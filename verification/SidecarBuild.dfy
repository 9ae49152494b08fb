/** The sidecar build pipeline (pkg/engine/entity_feed_sidecar_build.go): the
    same pool as the job runner, but workers send their results through a
    bounded channel to a consumer that visits them. Every channel operation
    is one step. */
module SidecarBuild {
  import opened Wrappers
  import opened WorkerPool

  datatype Visit = Visit(job: nat, sidecar: string)

  datatype Step = Receiving | Visiting(job: nat) | MustCancel

  /** The sending side. `sent` logs the results channel, `dropped` the jobs
      whose result met a cancelled context, `built` what each build produced. */
  datatype Pool = Pool(jobs: nat, next: nat, workers: seq<Phase>, capacity: nat, sent: seq<Item>,
                       dropped: multiset<nat>, built: map<nat, Option<string>>, buildFailed: bool)

  /** The consumer: the first `taken` items have been received. */
  datatype Desk = Desk(taken: nat, step: Step, visits: seq<Visit>, progress: nat, errs: seq<Failure>)

  datatype State = State(pool: Pool, desk: Desk, jobsClosed: bool, resultsClosed: bool, cancelled: bool,
                         result: Option<RunResult>)

  datatype Action =
    | Handover(w: nat)
    | Quit(w: nat)
    | BuildOk(w: nat, sidecar: Option<string>)
    | BuildFails(w: nat, error: string)
    | Send(w: nat)
    | Drop(w: nat)
    | CancelByWorker(w: nat)
    | Receive
    | VisitOk
    | VisitFails(error: string)
    | CancelByConsumer
    | CloseJobs
    | CloseResults
    | ParentCancels
    | Return

  predicate ByWorker(a: Action) {
    a.Handover? || a.Quit? || a.BuildOk? || a.BuildFails? || a.Send? || a.Drop? || a.CancelByWorker?
  }

  predicate AtDesk(a: Action) {
    a.Receive? || a.VisitOk? || a.VisitFails? || a.CancelByConsumer?
  }

  /** Room that can ever be used: one item a name and one a worker, of which
      there is at least one. */
  predicate UsefulRoom(n: int, names: int, workers: int) {
    0 <= n <= names && (n <= workers || n <= 1)
  }

  /** `feedEntitySidecarResultBufferSize`: the most room that can be used. */
  function BufferSize(names: int, workers: int): (n: nat)
    ensures names <= 0 ==> n == 0
    ensures names > 0 ==> 1 <= n && UsefulRoom(n, names, workers)
    ensures forall k :: UsefulRoom(k, names, workers) ==> k <= n
  {
    var pool := if workers < 1 then 1 else workers;
    if names <= 0 then 0 else if pool > names then names else pool
  }

  function Start(jobs: nat, workers: int, cancelled: bool): State {
    var pool := if workers < 1 then 1 else workers;
    State(Pool(jobs, 0, seq(pool, i => Idle), BufferSize(jobs, pool), [], multiset{}, map[], false),
          Desk(0, Receiving, [], 0, []), false, false, cancelled,
          if cancelled then Some(ContextError) else if jobs == 0 then Some(Nil) else None)
  }

  predicate AllExited(p: Pool) {
    forall w :: 0 <= w < |p.workers| ==> p.workers[w] == Exited
  }

  /** What a worker may do, given the channel's free room and the context. */
  predicate WorkerMay(p: Pool, a: Action, closed: bool, cancelled: bool, room: bool)
    requires ByWorker(a)
  {
    a.w < |p.workers| &&
    match a
    case Handover(w) => !closed && p.next < p.jobs && p.workers[w] == Idle
    case Quit(w) => p.workers[w] == Idle && (cancelled || closed)
    case BuildOk(w, _) => p.workers[w].Running?
    case BuildFails(w, _) => p.workers[w].Running?
    case Send(w) => p.workers[w].Sending? && room
    case Drop(w) => p.workers[w].Sending? && cancelled
    case _ => p.workers[a.w] == Cancelling
  }

  predicate Enabled(s: State, a: Action) {
    s.result.None? &&
    if ByWorker(a) then
      WorkerMay(s.pool, a, s.jobsClosed, s.cancelled, |s.pool.sent| < s.desk.taken + s.pool.capacity)
    else match a
      case Receive => s.desk.step == Receiving && s.desk.taken < |s.pool.sent|
      case VisitOk => s.desk.step.Visiting?
      case VisitFails(_) => s.desk.step.Visiting?
      case CancelByConsumer => s.desk.step == MustCancel
      case CloseJobs => !s.jobsClosed && (s.pool.next == s.pool.jobs || s.cancelled)
      case CloseResults => s.jobsClosed && !s.resultsClosed && AllExited(s.pool)
      case ParentCancels => !s.cancelled
      case _ => s.desk.step == Receiving && s.resultsClosed && s.desk.taken == |s.pool.sent|
  }

  /** The phase a worker moves to. */
  function PhaseAfter(p: Pool, a: Action): Phase
    requires ByWorker(a) && a.w < |p.workers|
    requires a.BuildOk? || a.BuildFails? ==> p.workers[a.w].Running?
    requires a.Send? || a.Drop? ==> p.workers[a.w].Sending?
  {
    match a
    case Handover(_) => Running(p.next)
    case BuildOk(w, sidecar) => Sending(Item(p.workers[w].job, Built(sidecar)))
    case BuildFails(w, error) => Sending(Item(p.workers[w].job, BuildError(error)))
    case Send(w) => if p.workers[w].item.outcome.Built? then Idle else Cancelling
    case Drop(w) => if p.workers[w].item.outcome.Built? then Exited else Cancelling
    case _ => Exited
  }

  function PoolAfter(p: Pool, a: Action): Pool
    requires ByWorker(a) && a.w < |p.workers|
    requires a.BuildOk? || a.BuildFails? ==> p.workers[a.w].Running?
    requires a.Send? || a.Drop? ==> p.workers[a.w].Sending?
  {
    var moved := p.workers[a.w := PhaseAfter(p, a)];
    match a
    case Handover(_) => p.(next := p.next + 1, workers := moved)
    case BuildOk(w, sidecar) => p.(workers := moved, built := p.built[p.workers[w].job := sidecar])
    case BuildFails(_, _) => p.(workers := moved, buildFailed := true)
    case Send(w) => p.(workers := moved, sent := p.sent + [p.workers[w].item])
    case Drop(w) => p.(workers := moved, dropped := p.dropped + multiset{p.workers[w].item.job})
    case _ => p.(workers := moved)
  }

  /** `errs.add`, and the cancel that must follow a first error. */
  function Recorded(d: Desk, f: Failure): Desk {
    d.(errs := d.errs + [f], step := if |d.errs| == 0 then MustCancel else Receiving)
  }

  function Received(d: Desk, item: Item): Desk {
    match item.outcome
    case BuildError(error) => Recorded(d.(taken := d.taken + 1), Failure(item.job, error))
    case Built(None) => d.(taken := d.taken + 1, progress := d.progress + 1)
    case Built(Some(sidecar)) =>
      d.(taken := d.taken + 1, visits := d.visits + [Visit(item.job, sidecar)], step := Visiting(item.job))
  }

  function DeskAfter(d: Desk, sent: seq<Item>, a: Action): Desk
    requires AtDesk(a) && (a.Receive? ==> d.taken < |sent|) && (a.VisitFails? ==> d.step.Visiting?)
  {
    match a
    case Receive => Received(d, sent[d.taken])
    case VisitOk => d.(progress := d.progress + 1, step := Receiving)
    case VisitFails(error) => Recorded(d, Failure(d.step.job, error))
    case _ => d.(step := Receiving)
  }

  function OutcomeOf(s: State): RunResult {
    if |s.desk.errs| > 0 then Joined(s.desk.errs) else if s.cancelled then ContextError else Nil
  }

  function Apply(s: State, a: Action): State
    requires Enabled(s, a)
  {
    if ByWorker(a) then s.(pool := PoolAfter(s.pool, a), cancelled := s.cancelled || a.CancelByWorker?)
    else if AtDesk(a) then
      s.(desk := DeskAfter(s.desk, s.pool.sent, a), cancelled := s.cancelled || a.CancelByConsumer?)
    else match a
      case CloseJobs => s.(jobsClosed := true)
      case CloseResults => s.(resultsClosed := true)
      case ParentCancels => s.(cancelled := true)
      case _ => s.(result := Some(OutcomeOf(s)))
  }

  ghost predicate Execution(states: seq<State>, actions: seq<Action>) {
    && |states| == |actions| + 1
    && (exists jobs, workers, cancelled :: states[0] == Start(jobs, workers, cancelled))
    && forall i :: 0 <= i < |actions| ==>
      Enabled(states[i], actions[i]) && states[i + 1] == Apply(states[i], actions[i])
  }

  // ------------------------------------------------------ reading the channel

  function JobsOf(items: seq<Item>): multiset<nat> {
    if items == [] then multiset{} else JobsOf(items[..|items| - 1]) + multiset{items[|items| - 1].job}
  }

  lemma OneMoreItem(items: seq<Item>, item: Item)
    ensures JobsOf(items + [item]) == JobsOf(items) + multiset{item.job}
    ensures Deliveries(items + [item]) == Deliveries(items) + Delivery(item)
  {
    assert (items + [item])[..|items|] == items;
  }

  function Delivery(item: Item): seq<Visit> {
    match item.outcome
    case Built(Some(sidecar)) => [Visit(item.job, sidecar)]
    case _ => []
  }

  /** The visits that a list of results calls for. */
  function Deliveries(items: seq<Item>): seq<Visit> {
    if items == [] then [] else Deliveries(items[..|items| - 1]) + Delivery(items[|items| - 1])
  }

  // --------------------------------------------------------------- invariant

  /** Every job handed over is in exactly one place, once. */
  ghost predicate Accounted(p: Pool, job: nat) {
    Holding(p.workers, job) + JobsOf(p.sent)[job] + p.dropped[job] == if job < p.next then 1 else 0
  }

  ghost predicate Truthful(built: map<nat, Option<string>>, item: Item) {
    item.outcome.Built? ==> item.job in built && built[item.job] == item.outcome.sidecar
  }

  /** An item in a worker's hand, or on the channel, tells what was built. */
  ghost predicate TellsTruth(p: Pool) {
    && (forall w :: 0 <= w < |p.workers| && p.workers[w].Sending? ==> Truthful(p.built, p.workers[w].item))
    && (forall i :: 0 <= i < |p.sent| ==> Truthful(p.built, p.sent[i]))
  }

  ghost predicate PoolOk(p: Pool) {
    && p.next <= p.jobs && p.workers != [] && (p.jobs > 0 ==> p.capacity > 0)
    && (forall job: nat :: Accounted(p, job))
    && TellsTruth(p)
  }

  ghost predicate DeskOk(d: Desk, sent: seq<Item>) {
    && d.taken <= |sent|
    && d.visits == Deliveries(sent[..d.taken])
    && d.progress + |d.errs| + (if d.step.Visiting? then 1 else 0) == d.taken
    && (forall i :: 0 <= i < d.taken && sent[i].outcome.BuildError? ==>
      Failure(sent[i].job, sent[i].outcome.error) in d.errs)
  }

  predicate CarriesError(p: Phase) {
    p == Cancelling || (p.Sending? && p.item.outcome.BuildError?)
  }

  ghost predicate ErrorUnderway(p: Pool) {
    exists w :: 0 <= w < |p.workers| && CarriesError(p.workers[w])
  }

  ghost predicate SomeExited(p: Pool) {
    exists w :: 0 <= w < |p.workers| && p.workers[w] == Exited
  }

  ghost predicate BadNewsTravels(s: State) {
    && (s.desk.errs != [] ==> s.cancelled || s.desk.step == MustCancel)
    && (s.pool.dropped != multiset{} ==> s.cancelled)
    && (s.pool.buildFailed ==> s.cancelled || ErrorUnderway(s.pool))
  }

  ghost predicate Ends(s: State) {
    && (s.jobsClosed ==> s.pool.next == s.pool.jobs || s.cancelled)
    && (s.resultsClosed ==> s.jobsClosed && AllExited(s.pool))
    && (SomeExited(s.pool) ==> s.jobsClosed || s.cancelled)
  }

  /** What a result says about the run. */
  ghost predicate Settled(s: State) {
    s.result.Some? ==>
      && (s.result.value == Nil ==> Perfect(s))
      && (s.result.value != Nil ==> s.cancelled)
      && (s.desk.errs != [] ==> s.result.value == Joined(s.desk.errs))
      && (s.result.value.Joined? ==> s.result.value.errs == s.desk.errs)
      && (s.pool.sent != [] ==> s.desk.taken == |s.pool.sent|)
  }

  ghost predicate Perfect(s: State) {
    && EachOnce(JobsOf(s.pool.sent), s.pool.jobs)
    && (forall i :: 0 <= i < |s.pool.sent| ==> s.pool.sent[i].outcome.Built?)
    && s.desk.visits == Deliveries(s.pool.sent)
    && s.desk.progress == |s.pool.sent| && s.desk.errs == [] && !s.cancelled && !s.pool.buildFailed
  }

  ghost predicate Inv(s: State) {
    PoolOk(s.pool) && DeskOk(s.desk, s.pool.sent) && BadNewsTravels(s) && Ends(s) && Settled(s)
  }

  lemma StartHolds(jobs: nat, workers: int, cancelled: bool)
    ensures Inv(Start(jobs, workers, cancelled))
  {
    var s := Start(jobs, workers, cancelled);
    forall job: nat ensures Accounted(s.pool, job) { NobodyHolds(s.pool.workers, job); }
  }

  // ---------------------------------------------------- the invariant is kept

  lemma AccountedStep(p: Pool, a: Action, closed: bool, cancelled: bool, room: bool, job: nat)
    requires ByWorker(a) && WorkerMay(p, a, closed, cancelled, room) && Accounted(p, job)
    ensures Accounted(PoolAfter(p, a), job)
  {
    hide Holding, JobsOf;
    HoldingUpdate(p.workers, a.w, PhaseAfter(p, a), job);
    if a.Send? { OneMoreItem(p.sent, p.workers[a.w].item); }
  }

  lemma {:induction false} SentCounts(items: seq<Item>, i: nat)
    requires i < |items|
    ensures JobsOf(items)[items[i].job] >= 1
  {
    if i < |items| - 1 { SentCounts(items[..|items| - 1], i); }
  }

  /** A finished build is the only word on its job. */
  lemma BuildIsFirst(p: Pool, w: nat)
    requires w < |p.workers| && p.workers[w].Running? && Accounted(p, p.workers[w].job)
    ensures forall v :: 0 <= v < |p.workers| && v != w && p.workers[v].Sending? ==>
      p.workers[v].item.job != p.workers[w].job
    ensures forall i :: 0 <= i < |p.sent| ==> p.sent[i].job != p.workers[w].job
  {
    var job := p.workers[w].job;
    HolderCounts(p.workers, w, job);
    forall i | 0 <= i < |p.sent| ensures p.sent[i].job != job { SentCounts(p.sent, i); }
  }

  lemma TruthStep(p: Pool, a: Action, closed: bool, cancelled: bool, room: bool)
    requires ByWorker(a) && WorkerMay(p, a, closed, cancelled, room) && PoolOk(p)
    ensures TellsTruth(PoolAfter(p, a))
  {
    if a.BuildOk? { BuildIsFirst(p, a.w); }
  }

  lemma PoolStep(p: Pool, a: Action, closed: bool, cancelled: bool, room: bool)
    requires ByWorker(a) && WorkerMay(p, a, closed, cancelled, room) && PoolOk(p)
    ensures PoolOk(PoolAfter(p, a))
  {
    hide Accounted, TellsTruth, PhaseAfter;
    forall job: nat ensures Accounted(PoolAfter(p, a), job) {
      assert Accounted(p, job);
      AccountedStep(p, a, closed, cancelled, room, job);
    }
    TruthStep(p, a, closed, cancelled, room);
  }

  lemma ReceiveStep(d: Desk, sent: seq<Item>)
    requires DeskOk(d, sent) && d.step == Receiving && d.taken < |sent|
    ensures DeskOk(Received(d, sent[d.taken]), sent)
  {
    hide Deliveries;
    var d', item := Received(d, sent[d.taken]), sent[d.taken];
    assert sent[..d.taken + 1] == sent[..d.taken] + [item];
    OneMoreItem(sent[..d.taken], item);
    assert d.visits + [] == d.visits;
  }

  lemma DeskStep(d: Desk, sent: seq<Item>, a: Action)
    requires AtDesk(a) && DeskOk(d, sent)
    requires a.Receive? ==> d.step == Receiving && d.taken < |sent|
    requires a.VisitOk? || a.VisitFails? ==> d.step.Visiting?
    requires a.CancelByConsumer? ==> d.step == MustCancel
    ensures DeskOk(DeskAfter(d, sent, a), sent)
  {
    hide Deliveries, Received;
    if a.Receive? { ReceiveStep(d, sent); }
  }

  lemma SendKeepsDesk(d: Desk, sent: seq<Item>, item: Item)
    requires DeskOk(d, sent)
    ensures DeskOk(d, sent + [item])
  {
    assert (sent + [item])[..d.taken] == sent[..d.taken];
  }

  /** An error on its way stays on its way until it cancels. */
  lemma UnderwayStep(p: Pool, a: Action, closed: bool, cancelled: bool, room: bool)
    requires ByWorker(a) && WorkerMay(p, a, closed, cancelled, room)
    ensures (ErrorUnderway(p) && !a.CancelByWorker?) || a.BuildFails? ==> ErrorUnderway(PoolAfter(p, a))
    ensures SomeExited(PoolAfter(p, a)) ==> SomeExited(p) || closed || cancelled || a.CancelByWorker?
    ensures AllExited(p) ==> AllExited(PoolAfter(p, a))
  {
    var q := PoolAfter(p, a);
    if a.BuildFails? {
      assert CarriesError(q.workers[a.w]);
    } else if ErrorUnderway(p) && !a.CancelByWorker? {
      var w :| 0 <= w < |p.workers| && CarriesError(p.workers[w]);
      assert CarriesError(q.workers[w]);
    }
    if SomeExited(q) {
      var w :| 0 <= w < |q.workers| && q.workers[w] == Exited;
      assert w == a.w || p.workers[w] == Exited;
    }
  }

  lemma ReturnSettles(s: State)
    requires Inv(s) && Enabled(s, Return)
    ensures Settled(Apply(s, Return))
  {
    hide Deliveries, JobsOf, TellsTruth, Holding;
    assert s.pool.sent[..s.desk.taken] == s.pool.sent;
    if OutcomeOf(s) == Nil {
      forall job: nat ensures JobsOf(s.pool.sent)[job] == if job < s.pool.jobs then 1 else 0 {
        assert Accounted(s.pool, job);
        NobodyHolds(s.pool.workers, job);
      }
    }
  }

  lemma InvStep(s: State)
    requires Inv(s)
    ensures forall a :: Enabled(s, a) ==> Inv(Apply(s, a))
  {
    hide PoolOk, DeskOk, ErrorUnderway, SomeExited, AllExited, Perfect;
    forall a | Enabled(s, a) ensures Inv(Apply(s, a)) {
      if ByWorker(a) {
        var room := |s.pool.sent| < s.desk.taken + s.pool.capacity;
        PoolStep(s.pool, a, s.jobsClosed, s.cancelled, room);
        UnderwayStep(s.pool, a, s.jobsClosed, s.cancelled, room);
        if a.Send? { SendKeepsDesk(s.desk, s.pool.sent, s.pool.workers[a.w].item); }
      } else if AtDesk(a) {
        DeskStep(s.desk, s.pool.sent, a);
      } else if a.Return? {
        ReturnSettles(s);
      }
    }
  }

  /** Safety over all runs, whatever the interleaving. */
  lemma Safety(states: seq<State>, actions: seq<Action>)
    requires Execution(states, actions)
    ensures forall k :: 0 <= k < |states| ==> Inv(states[k])
  {
    hide Inv;
    var jobs, workers, cancelled :| states[0] == Start(jobs, workers, cancelled);
    StartHolds(jobs, workers, cancelled);
    for k := 0 to |actions|
      invariant forall j :: 0 <= j <= k ==> Inv(states[j])
    {
      InvStep(states[k]);
    }
  }

  // ------------------------------------------------------------ main results

  function VisitedJobs(visits: seq<Visit>): multiset<nat> {
    if visits == [] then multiset{} else VisitedJobs(visits[..|visits| - 1]) + multiset{visits[|visits| - 1].job}
  }

  /** The consumer saw the job's sidecar once, as built, unless it is nil. */
  ghost predicate Delivered(s: State, job: nat) {
    && job in s.pool.built
    && VisitedJobs(s.desk.visits)[job] == (if s.pool.built[job].Some? then 1 else 0)
    && (s.pool.built[job].Some? ==> Visit(job, s.pool.built[job].value) in s.desk.visits)
  }

  lemma {:induction false} DeliveriesOf(built: map<nat, Option<string>>, items: seq<Item>, job: nat)
    requires forall i :: 0 <= i < |items| ==> Truthful(built, items[i]) && items[i].outcome.Built?
    ensures job in JobsOf(items) ==> job in built
    ensures job in built ==> VisitedJobs(Deliveries(items))[job] == if built[job].Some? then JobsOf(items)[job] else 0
    ensures job in JobsOf(items) && built[job].Some? ==> Visit(job, built[job].value) in Deliveries(items)
  {
    if items != [] {
      hide JobsOf, Deliveries, VisitedJobs, Delivery;
      var front, last := items[..|items| - 1], items[|items| - 1];
      assert Truthful(built, last) && items == front + [last];
      DeliveriesOf(built, front, job);
      OneMoreItem(front, last);
      DeliveryCounts(Deliveries(front), last);
    }
  }

  lemma DeliveryCounts(before: seq<Visit>, item: Item)
    requires item.outcome.Built?
    ensures VisitedJobs(before + Delivery(item))
      == VisitedJobs(before) + if item.outcome.sidecar.Some? then multiset{item.job} else multiset{}
    ensures forall v :: v in before ==> v in before + Delivery(item)
    ensures item.outcome.sidecar.Some? ==> Visit(item.job, item.outcome.sidecar.value) in before + Delivery(item)
  {
    if item.outcome.sidecar.Some? {
      var after := before + Delivery(item);
      assert after[..|before|] == before && after[|before|] == Visit(item.job, item.outcome.sidecar.value);
    } else {
      assert before + Delivery(item) == before;
    }
  }

  /** Nil means each name was built exactly once, none failed, and every
      sidecar that is not nil was delivered exactly once, as it was built. */
  lemma NilMeansEachDelivered(states: seq<State>, actions: seq<Action>, k: nat)
    requires Execution(states, actions) && k < |states| && states[k].result == Some(Nil)
    ensures EachOnce(JobsOf(states[k].pool.sent), states[k].pool.jobs) && states[k].desk.progress == states[k].pool.jobs
    ensures !states[k].pool.buildFailed && states[k].desk.errs == [] && !states[k].cancelled
    ensures forall job: nat :: job < states[k].pool.jobs ==> Delivered(states[k], job)
  {
    Safety(states, actions);
    var s := states[k];
    EachOnceSize(JobsOf(s.pool.sent), s.pool.jobs);
    JobsOfSize(s.pool.sent);
    forall job: nat | job < s.pool.jobs ensures Delivered(s, job) {
      DeliveriesOf(s.pool.built, s.pool.sent, job);
    }
  }

  lemma {:induction false} JobsOfSize(items: seq<Item>)
    ensures |JobsOf(items)| == |items|
  {
    if items != [] { JobsOfSize(items[..|items| - 1]); }
  }

  /** Whatever the outcome, no name is built or reported twice. */
  lemma NeverTwice(states: seq<State>, actions: seq<Action>, k: nat, job: nat)
    requires Execution(states, actions) && k < |states|
    ensures Holding(states[k].pool.workers, job) + JobsOf(states[k].pool.sent)[job] + states[k].pool.dropped[job] <= 1
  {
    Safety(states, actions);
    assert Accounted(states[k].pool, job);
  }

  ghost predicate Remembers(s: State, t: State) {
    s.desk.errs <= t.desk.errs && s.pool.sent <= t.pool.sent && (s.pool.buildFailed ==> t.pool.buildFailed)
    && s.pool.dropped <= t.pool.dropped
  }

  lemma StepRemembers(s: State, a: Action)
    requires Enabled(s, a)
    ensures Remembers(s, Apply(s, a))
  {}

  lemma HistoryKept(states: seq<State>, actions: seq<Action>, i: nat)
    requires Execution(states, actions) && i < |states|
    ensures forall j :: i <= j < |states| ==> Remembers(states[i], states[j])
  {
    for k := i to |actions|
      invariant forall j :: i <= j <= k ==> Remembers(states[i], states[j])
    {
      StepRemembers(states[k], actions[k]);
      hide Enabled, Apply;
    }
  }

  /** A failed build never ends in nil. Its error is in the joined error when
      it reached the channel; one that did not met a cancelled context. */
  lemma BuildErrorsShow(states: seq<State>, actions: seq<Action>, i: nat, k: nat)
    requires Execution(states, actions) && i < k < |states| && states[k].result.Some?
    ensures actions[i].BuildFails? || actions[i].Drop? ==> states[k].result.value != Nil
    ensures actions[i].Send? ==>
      var item := states[i].pool.workers[actions[i].w].item;
      item.outcome.BuildError? ==>
        states[k].result.value.Joined? && Failure(item.job, item.outcome.error) in states[k].result.value.errs
  {
    HistoryKept(states, actions, i + 1);
    Safety(states, actions);
    hide PoolOk, Ends, ErrorUnderway;
    if actions[i].Send? {
      var item := states[i].pool.workers[actions[i].w].item;
      assert states[k].pool.sent[|states[i].pool.sent|] == item;
    }
  }

  /** A failed visit is in the joined error. */
  lemma VisitErrorsShow(states: seq<State>, actions: seq<Action>, i: nat, k: nat)
    requires Execution(states, actions) && i < k < |states| && states[k].result.Some?
    requires actions[i].VisitFails?
    ensures states[k].result.value.Joined?
    ensures Failure(states[i].desk.step.job, actions[i].error) in states[k].result.value.errs
  {
    HistoryKept(states, actions, i + 1);
    Safety(states, actions);
    hide PoolOk, Ends, DeskOk, BadNewsTravels, Perfect;
    assert states[k].desk.errs[|states[i].desk.errs|] == Failure(states[i].desk.step.job, actions[i].error);
  }

  function DeskSteps(d: Desk, sent: nat): int {
    3 * (sent - d.taken) + match d.step case Receiving => 0 case MustCancel => 1 case Visiting(_) => 2
  }

  /** The steps a run can still take, at most. */
  function Measure(s: State): int {
    6 * (s.pool.jobs - s.pool.next) + TotalSteps(s.pool.workers) + DeskSteps(s.desk, |s.pool.sent|)
    + (if s.jobsClosed then 0 else 1) + (if s.cancelled then 0 else 1)
    + (if s.resultsClosed then 0 else 1) + (if s.result.Some? then 0 else 1)
  }

  lemma EveryStepCounts(s: State, a: Action)
    requires Enabled(s, a)
    ensures Measure(Apply(s, a)) < Measure(s)
  {
    hide TotalSteps;
    if ByWorker(a) { TotalUpdate(s.pool.workers, a.w, PhaseAfter(s.pool, a)); }
  }

  lemma WorkerCanMove(s: State, w: nat)
    requires Inv(s) && s.result.None? && w < |s.pool.workers| && s.pool.workers[w] != Exited
    requires s.desk.taken == |s.pool.sent| && (s.jobsClosed || s.pool.next < s.pool.jobs)
    ensures exists a :: Enabled(s, a) && ByWorker(a)
  {
    if s.pool.jobs == 0 && s.pool.workers[w].Sending? {
      assert Accounted(s.pool, s.pool.workers[w].item.job);
      HolderCounts(s.pool.workers, w, s.pool.workers[w].item.job);
    }
    var a := match s.pool.workers[w]
      case Idle => if s.jobsClosed then Quit(w) else Handover(w)
      case Running(_) => BuildOk(w, None)
      case Sending(_) => Send(w)
      case _ => CancelByWorker(w);
    assert Enabled(s, a) && ByWorker(a);
  }

  /** No interleaving of cancel, error exit, send and close deadlocks: until
      there is a result, some step is open that waits for nobody. */
  lemma NoDeadlock(states: seq<State>, actions: seq<Action>, k: nat)
    requires Execution(states, actions) && k < |states| && states[k].result.None?
    ensures exists a :: Enabled(states[k], a) && !a.ParentCancels?
  {
    hide Settled, BadNewsTravels, Accounted, TellsTruth, Deliveries;
    Safety(states, actions);
    var s := states[k];
    if s.desk.step.Visiting? {
      assert Enabled(s, VisitOk);
    } else if s.desk.step == MustCancel {
      assert Enabled(s, CancelByConsumer);
    } else if s.desk.taken < |s.pool.sent| {
      assert Enabled(s, Receive);
    } else if s.resultsClosed {
      assert Enabled(s, Return);
    } else if !s.jobsClosed && (s.pool.next == s.pool.jobs || s.cancelled) {
      assert Enabled(s, CloseJobs);
    } else if w :| 0 <= w < |s.pool.workers| && s.pool.workers[w] != Exited {
      WorkerCanMove(s, w);
    } else {
      assert s.pool.workers[0] == Exited;
      assert Enabled(s, CloseResults);
    }
  }

  lemma {:induction false} StepsTaken(states: seq<State>, actions: seq<Action>, k: nat)
    requires Execution(states, actions) && k < |states|
    ensures Measure(states[k]) <= Measure(states[0]) - k
  {
    if k > 0 {
      StepsTaken(states, actions, k - 1);
      EveryStepCounts(states[k - 1], actions[k - 1]);
    }
  }

  /** Every run ends, after a number of steps known at the start: at most a
      constant number per job and per worker. */
  lemma RunsEnd(states: seq<State>, actions: seq<Action>)
    requires Execution(states, actions)
    ensures |actions| <= 6 * states[0].pool.jobs + 2 * |states[0].pool.workers| + 4
  {
    Safety(states, actions);
    StepsTaken(states, actions, |actions|);
    var jobs, workers, cancelled :| states[0] == Start(jobs, workers, cancelled);
    IdlePool(states[0].pool.workers);
  }
}
