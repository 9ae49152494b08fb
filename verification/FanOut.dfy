/** The bounded job runner (pkg/engine/concurrency.go): a sender, a pool of
    workers, one unbuffered channel, first error cancels. The state machine
    takes one step per channel operation, context event or locked section. */
module FanOut {
  import opened Wrappers
  import opened WorkerPool

  /** `joinedErrorCollector`. */
  class JoinedErrorCollector {
    var errs: seq<Failure>

    constructor ()
      ensures errs == []
    {
      errs := [];
    }

    /** `add`: reports whether this error is the first; nil is no error. */
    method Add(err: Option<Failure>) returns (first: bool)
      modifies this
      ensures err.None? ==> !first && errs == old(errs)
      ensures err.Some? ==> errs == old(errs) + [err.value] && (first <==> old(errs) == [])
    {
      if err.None? {
        return false;
      }
      first := |errs| == 0;
      errs := errs + [err.value];
    }
  }

  /** `next` jobs have been handed over; `closed` is the jobs channel. */
  datatype State = State(jobs: nat, next: nat, closed: bool, cancelled: bool,
                         workers: seq<Phase>, completed: multiset<nat>, errs: seq<Failure>, result: Option<RunResult>)

  datatype Action =
    | Handover(w: nat)
    | CloseJobs
    | Quit(w: nat)
    | Succeed(w: nat)
    | Fail(w: nat, error: string)
    | CancelFirst(w: nat)
    | ParentCancels
    | Return

  /** The early returns, and the pool otherwise. */
  function Start(jobs: nat, workers: int, cancelled: bool): State {
    var pool := if workers < 1 then 1 else workers;
    State(jobs, 0, false, cancelled, seq(pool, i => Idle), multiset{}, [],
          if cancelled then Some(ContextError) else if jobs == 0 then Some(Nil) else None)
  }

  predicate Enabled(s: State, a: Action) {
    s.result.None? &&
    match a
    case Handover(w) => !s.closed && s.next < s.jobs && w < |s.workers| && s.workers[w] == Idle
    case CloseJobs => !s.closed && (s.next == s.jobs || s.cancelled)
    case Quit(w) => w < |s.workers| && s.workers[w] == Idle && (s.cancelled || s.closed)
    case Succeed(w) => w < |s.workers| && s.workers[w].Running?
    case Fail(w, _) => w < |s.workers| && s.workers[w].Running?
    case CancelFirst(w) => w < |s.workers| && s.workers[w] == Cancelling
    case ParentCancels => !s.cancelled
    case Return => s.closed && forall w :: 0 <= w < |s.workers| ==> s.workers[w] == Exited
  }

  function OutcomeOf(s: State): RunResult {
    if |s.errs| > 0 then Joined(s.errs) else if s.cancelled then ContextError else Nil
  }

  function Apply(s: State, a: Action): State
    requires Enabled(s, a)
  {
    match a
    case Handover(w) => s.(next := s.next + 1, workers := s.workers[w := Running(s.next)])
    case CloseJobs => s.(closed := true)
    case Quit(w) => s.(workers := s.workers[w := Exited])
    case Succeed(w) => s.(workers := s.workers[w := Idle], completed := s.completed + multiset{s.workers[w].job})
    case Fail(w, error) =>
      s.(workers := s.workers[w := if |s.errs| == 0 then Cancelling else Exited],
         errs := s.errs + [Failure(s.workers[w].job, error)])
    case CancelFirst(w) => s.(workers := s.workers[w := Exited], cancelled := true)
    case ParentCancels => s.(cancelled := true)
    case Return => s.(result := Some(OutcomeOf(s)))
  }

  ghost predicate Execution(states: seq<State>, actions: seq<Action>) {
    && |states| == |actions| + 1
    && (exists jobs, workers, cancelled :: states[0] == Start(jobs, workers, cancelled))
    && forall i :: 0 <= i < |actions| ==>
      Enabled(states[i], actions[i]) && states[i + 1] == Apply(states[i], actions[i])
  }

  // --------------------------------------------------------------- invariant

  function JobsOf(errs: seq<Failure>): multiset<nat> {
    if errs == [] then multiset{} else JobsOf(errs[..|errs| - 1]) + multiset{errs[|errs| - 1].job}
  }

  lemma OneMoreFailure(errs: seq<Failure>, f: Failure)
    ensures JobsOf(errs + [f]) == JobsOf(errs) + multiset{f.job}
  {
    assert (errs + [f])[..|errs|] == errs;
  }

  /** Every job handed over is in exactly one place, once. */
  ghost predicate Accounted(s: State, job: nat) {
    Holding(s.workers, job) + s.completed[job] + JobsOf(s.errs)[job] == if job < s.next then 1 else 0
  }

  ghost predicate Inv(s: State) {
    && s.next <= s.jobs && s.workers != []
    && (forall job: nat :: Accounted(s, job))
    && (forall w :: 0 <= w < |s.workers| ==> !s.workers[w].Sending?)
    && (s.closed ==> s.next == s.jobs || s.cancelled)
    && (forall w :: 0 <= w < |s.workers| && s.workers[w] == Exited ==> s.closed || s.cancelled || s.errs != [])
    && (s.errs != [] && !s.cancelled ==> exists w :: 0 <= w < |s.workers| && s.workers[w] == Cancelling)
    && (s.result.Some? ==> Settled(s, s.result.value))
  }

  /** What a result says about the run. */
  ghost predicate Settled(s: State, r: RunResult) {
    && (r == Nil ==> EachOnce(s.completed, s.jobs) && s.errs == [] && !s.cancelled)
    && (s.errs != [] ==> r == Joined(s.errs))
    && (r.Joined? ==> s.errs != [] && s.cancelled)
    && (r == ContextError ==> s.cancelled && s.errs == [])
  }

  lemma StartHolds(jobs: nat, workers: int, cancelled: bool)
    ensures Inv(Start(jobs, workers, cancelled))
  {
    var s := Start(jobs, workers, cancelled);
    forall job: nat ensures Accounted(s, job) { NobodyHolds(s.workers, job); }
  }

  lemma AccountedStep(s: State, a: Action, job: nat)
    requires Enabled(s, a) && Accounted(s, job) && s.next <= s.jobs
    ensures Accounted(Apply(s, a), job)
  {
    hide Holding, JobsOf;
    var s' := Apply(s, a);
    match a {
      case Handover(w) => HoldingUpdate(s.workers, w, Running(s.next), job);
      case Quit(w) => HoldingUpdate(s.workers, w, Exited, job);
      case Succeed(w) => HoldingUpdate(s.workers, w, Idle, job);
      case Fail(w, error) =>
        HoldingUpdate(s.workers, w, s'.workers[w], job);
        OneMoreFailure(s.errs, Failure(s.workers[w].job, error));
      case CancelFirst(w) => HoldingUpdate(s.workers, w, Exited, job);
      case _ =>
    }
  }

  lemma ReturnSettles(s: State)
    requires Inv(s) && Enabled(s, Return)
    ensures Settled(s, OutcomeOf(s))
  {
    if OutcomeOf(s) == Nil {
      forall job: nat ensures s.completed[job] == if job < s.jobs then 1 else 0 {
        assert Accounted(s, job);
        NobodyHolds(s.workers, job);
      }
    }
  }

  lemma InvStep(s: State)
    requires Inv(s)
    ensures forall a :: Enabled(s, a) ==> Inv(Apply(s, a))
  {
    hide Accounted;
    forall a | Enabled(s, a) ensures Inv(Apply(s, a)) {
      forall job: nat ensures Accounted(Apply(s, a), job) {
        assert Accounted(s, job);
        AccountedStep(s, a, job);
      }
      if a.Return? { ReturnSettles(s); }
      FirstErrorStep(s, a);
    }
  }

  lemma FirstErrorStep(s: State, a: Action)
    requires Enabled(s, a)
    requires s.errs != [] && !s.cancelled ==> exists w :: 0 <= w < |s.workers| && s.workers[w] == Cancelling
    ensures
      var s' := Apply(s, a);
      s'.errs != [] && !s'.cancelled ==> exists w :: 0 <= w < |s'.workers| && s'.workers[w] == Cancelling
  {
    var s' := Apply(s, a);
    if s'.errs != [] && !s'.cancelled {
      if s.errs == [] {
        assert s'.workers[a.w] == Cancelling;
      } else {
        var w :| 0 <= w < |s.workers| && s.workers[w] == Cancelling;
        assert s'.workers[w] == Cancelling;
      }
    }
  }

  /** Safety over all runs, whatever the interleaving. */
  lemma Safety(states: seq<State>, actions: seq<Action>)
    requires Execution(states, actions)
    ensures forall k :: 0 <= k < |states| ==> Inv(states[k])
  {
    var jobs, workers, cancelled :| states[0] == Start(jobs, workers, cancelled);
    StartHolds(jobs, workers, cancelled);
    for k := 0 to |actions|
      invariant forall j :: 0 <= j <= k ==> Inv(states[j])
    {
      InvStep(states[k]);
    }
  }

  // ------------------------------------------------------------ main results

  /** Nil means every name was processed exactly once and none failed. */
  lemma NilMeansExactlyOnce(states: seq<State>, actions: seq<Action>, k: nat)
    requires Execution(states, actions) && k < |states| && states[k].result == Some(Nil)
    ensures EachOnce(states[k].completed, states[k].jobs) && |states[k].completed| == states[k].jobs
    ensures states[k].errs == [] && !states[k].cancelled
  {
    Safety(states, actions);
    EachOnceSize(states[k].completed, states[k].jobs);
  }

  /** Whatever the outcome, no name is ever processed twice. */
  lemma NeverTwice(states: seq<State>, actions: seq<Action>, k: nat, job: nat)
    requires Execution(states, actions) && k < |states|
    ensures Holding(states[k].workers, job) + states[k].completed[job] + JobsOf(states[k].errs)[job] <= 1
  {
    Safety(states, actions);
    assert Accounted(states[k], job);
  }

  lemma ErrorsKept(states: seq<State>, actions: seq<Action>, i: nat)
    requires Execution(states, actions) && i < |states|
    ensures forall j :: i <= j < |states| ==> states[i].errs <= states[j].errs
  {
    for k := i to |actions|
      invariant forall j :: i <= j <= k ==> states[i].errs <= states[j].errs
    {
      assert states[k].errs <= Apply(states[k], actions[k]).errs;
    }
  }

  /** A failed job shows in the result, whenever that comes. */
  lemma NoErrorSwallowed(states: seq<State>, actions: seq<Action>, i: nat, k: nat)
    requires Execution(states, actions) && i < k < |states|
    requires actions[i].Fail? && states[k].result.Some?
    ensures states[k].result.value.Joined?
    ensures Failure(states[i].workers[actions[i].w].job, actions[i].error) in states[k].result.value.errs
  {
    ErrorsKept(states, actions, i + 1);
    Safety(states, actions);
    var f := Failure(states[i].workers[actions[i].w].job, actions[i].error);
    assert states[i + 1].errs[|states[i].errs|] == f;
  }

  /** The steps a run can still take. */
  function Measure(s: State): int {
    6 * (s.jobs - s.next) + TotalSteps(s.workers)
    + (if s.closed then 0 else 1) + (if s.cancelled then 0 else 1) + (if s.result.Some? then 0 else 1)
  }

  lemma EveryStepCounts(s: State, a: Action)
    requires Enabled(s, a)
    ensures Measure(Apply(s, a)) < Measure(s)
  {
    match a {
      case Handover(w) => TotalUpdate(s.workers, w, Running(s.next));
      case Quit(w) => TotalUpdate(s.workers, w, Exited);
      case Succeed(w) => TotalUpdate(s.workers, w, Idle);
      case Fail(w, error) => TotalUpdate(s.workers, w, Apply(s, a).workers[w]);
      case CancelFirst(w) => TotalUpdate(s.workers, w, Exited);
      case _ =>
    }
  }

  /** No interleaving deadlocks: until there is a result, some step is open
      that waits for nobody but a running job. */
  lemma NoDeadlock(states: seq<State>, actions: seq<Action>, k: nat)
    requires Execution(states, actions) && k < |states| && states[k].result.None?
    ensures exists a :: Enabled(states[k], a) && !a.ParentCancels?
  {
    Safety(states, actions);
    var s := states[k];
    if w :| 0 <= w < |s.workers| && s.workers[w] == Cancelling {
      assert Enabled(s, CancelFirst(w));
    } else if !s.closed && (s.next == s.jobs || s.cancelled) {
      assert Enabled(s, CloseJobs);
    } else if w :| 0 <= w < |s.workers| && s.workers[w] == Idle {
      assert Enabled(s, if s.closed then Quit(w) else Handover(w));
    } else if w :| 0 <= w < |s.workers| && s.workers[w].Running? {
      assert Enabled(s, Succeed(w));
    } else {
      assert forall w :: 0 <= w < |s.workers| ==> s.workers[w] == Exited;
      assert s.workers[0] == Exited;
      assert Enabled(s, Return);
    }
  }

  lemma {:induction false} StepsUsed(states: seq<State>, actions: seq<Action>, k: nat)
    requires Execution(states, actions) && k < |states|
    ensures k + Measure(states[k]) <= Measure(states[0])
  {
    if k > 0 {
      StepsUsed(states, actions, k - 1);
      EveryStepCounts(states[k - 1], actions[k - 1]);
    }
  }

  /** Every run ends, after a number of steps known at the start: at most a
      constant number per job and per worker. */
  lemma RunsEnd(states: seq<State>, actions: seq<Action>)
    requires Execution(states, actions)
    ensures |actions| <= 6 * states[0].jobs + 2 * |states[0].workers| + 3
  {
    Safety(states, actions);
    StepsUsed(states, actions, |actions|);
    var jobs, workers, cancelled :| states[0] == Start(jobs, workers, cancelled);
    IdlePool(states[0].workers);
  }
}
