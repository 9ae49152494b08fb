/** What a run of the sidecar build returns, by what happened in it
    (pkg/engine/entity_feed_sidecar_build.go), and what its workers do not do
    once one of their builds has failed or a result was given up. */
module SidecarHistory {
  import opened Wrappers
  import opened WorkerPool
  import opened SidecarBuild

  /** What the consumer records at a step: a received build error, or a failed
      visit of the item received last. */
  ghost function RecordedAt(s: State, a: Action): seq<Failure> {
    var d, sent := s.desk, s.pool.sent;
    if a.Receive? && d.taken < |sent| && sent[d.taken].outcome.BuildError? then
      [Failure(sent[d.taken].job, sent[d.taken].outcome.error)]
    else if a.VisitFails? && 0 < d.taken <= |sent| then [Failure(sent[d.taken - 1].job, a.error)]
    else []
  }

  ghost function RecordedOf(states: seq<State>, actions: seq<Action>, k: nat): seq<Failure>
    requires k <= |actions| && k <= |states|
  {
    if k == 0 then [] else RecordedOf(states, actions, k - 1) + RecordedAt(states[k - 1], actions[k - 1])
  }

  function HandedOver(actions: seq<Action>, k: nat): nat
    requires k <= |actions|
  {
    if k == 0 then 0 else HandedOver(actions, k - 1) + if actions[k - 1].Handover? then 1 else 0
  }

  /** Somebody outside, or a worker whose build failed, cancelled. */
  ghost predicate Interrupted(actions: seq<Action>, k: nat)
    requires k <= |actions|
  {
    exists i :: 0 <= i < k && (actions[i] == ParentCancels || actions[i].CancelByWorker?)
  }

  lemma InterruptedGrows(actions: seq<Action>, k: nat)
    requires k < |actions|
    ensures Interrupted(actions, k + 1)
      <==> Interrupted(actions, k) || actions[k] == ParentCancels || actions[k].CancelByWorker?
  {}

  /** The consumer visits what it received last, and cancels for an error. */
  ghost predicate DeskFollows(s: State) {
    && s.desk.taken <= |s.pool.sent|
    && (s.desk.step.Visiting? ==> s.desk.taken > 0 && s.desk.step.job == s.pool.sent[s.desk.taken - 1].job)
    && (s.desk.step == MustCancel ==> s.desk.errs != [])
  }

  ghost predicate HistoryIs(states: seq<State>, actions: seq<Action>, k: nat, jobs: nat, workers: int,
                            cancelled: bool)
    requires k <= |actions| && k < |states|
  {
    var s := states[k];
    && s.pool.jobs == jobs && |s.pool.workers| == (if workers <= 0 then 1 else workers)
    && s.pool.next == HandedOver(actions, k) && s.desk.errs == RecordedOf(states, actions, k)
    && DeskFollows(s)
    && (s.desk.errs == [] ==> (s.cancelled <==> cancelled || Interrupted(actions, k)))
  }

  lemma WorkerHistory(s: State, a: Action)
    requires Enabled(s, a) && ByWorker(a)
    ensures
      var t := Apply(s, a);
      && t.pool.next == s.pool.next + (if a.Handover? then 1 else 0)
      && |t.pool.workers| == |s.pool.workers| && t.pool.jobs == s.pool.jobs && s.pool.sent <= t.pool.sent
      && (a.Handover? ==> t.pool.workers[a.w] == Running(s.pool.next))
      && t.desk == s.desk && (t.cancelled <==> s.cancelled || a.CancelByWorker?) && t.result == s.result
  {}

  lemma DeskHistory(s: State, a: Action)
    requires Enabled(s, a) && !ByWorker(a) && DeskFollows(s)
    ensures
      var t := Apply(s, a);
      && t.pool == s.pool && DeskFollows(t)
      && t.desk.errs == s.desk.errs + RecordedAt(s, a)
      && (t.desk.errs == [] ==> (t.cancelled <==> s.cancelled || a.ParentCancels?))
      && (t.result.Some? ==> a.Return? && t.result.value == OutcomeOf(s))
  {}

  lemma HistoryNext(states: seq<State>, actions: seq<Action>, k: nat, jobs: nat, workers: int, cancelled: bool)
    requires k < |actions| && k + 1 < |states| && HistoryIs(states, actions, k, jobs, workers, cancelled)
    requires Enabled(states[k], actions[k]) && states[k + 1] == Apply(states[k], actions[k])
    ensures HistoryIs(states, actions, k + 1, jobs, workers, cancelled)
  {
    InterruptedGrows(actions, k);
    hide Apply, Enabled, Interrupted;
    if ByWorker(actions[k]) {
      WorkerHistory(states[k], actions[k]);
      assert RecordedAt(states[k], actions[k]) == [];
    } else {
      DeskHistory(states[k], actions[k]);
      hide DeskFollows, RecordedAt;
    }
  }

  /** Jobs are handed over in order, to a pool of the size asked for, at least
      one; errors are recorded as their items are received and visited. */
  lemma HistoryHolds(states: seq<State>, actions: seq<Action>, k: nat, jobs: nat, workers: int, cancelled: bool)
    requires Execution(states, actions) && k < |states| && states[0] == Start(jobs, workers, cancelled)
    ensures HistoryIs(states, actions, k, jobs, workers, cancelled)
  {
    assert HistoryIs(states, actions, 0, jobs, workers, cancelled);
    hide Apply, Enabled, HistoryIs;
    for j := 0 to k
      invariant HistoryIs(states, actions, j, jobs, workers, cancelled)
    {
      HistoryNext(states, actions, j, jobs, workers, cancelled);
    }
  }

  /** The result of a run: all recorded errors in order, if there were any;
      otherwise the context's error if somebody outside or a worker cancelled;
      otherwise nil. */
  lemma ResultIsHistory(states: seq<State>, actions: seq<Action>, k: nat, jobs: nat, workers: int, cancelled: bool)
    requires Execution(states, actions) && k < |states| && states[0] == Start(jobs, workers, cancelled)
    requires states[k].result.Some?
    ensures
      var recorded := RecordedOf(states, actions, k);
      states[k].result.value ==
        if recorded != [] then Joined(recorded)
        else if cancelled || Interrupted(actions, k) then ContextError
        else Nil
  {
    if k > 0 {
      HistoryHolds(states, actions, k - 1, jobs, workers, cancelled);
      InterruptedGrows(actions, k - 1);
      ReturnsLast(states[k - 1], actions[k - 1]);
      hide Interrupted, Execution, DeskFollows;
    }
  }

  lemma ReturnsLast(s: State, a: Action)
    requires Enabled(s, a) && Apply(s, a).result.Some?
    ensures a.Return? && Apply(s, a).result.value == OutcomeOf(s) && RecordedAt(s, a) == []
  {}

  // ------------------------------------------------------------------ workers

  /** A worker that is done for good, or about to be. */
  predicate Gone(s: State, w: nat) {
    w < |s.pool.workers| &&
    var p := s.pool.workers[w];
    p == Exited || p == Cancelling || (p.Sending? && p.item.outcome.BuildError?)
  }

  lemma GoneStep(s: State, a: Action, w: nat)
    requires Enabled(s, a)
    ensures Gone(s, w) ==> Gone(Apply(s, a), w) && a != Handover(w)
    ensures (a.BuildFails? || a.Drop? || a.Quit?) && a.w == w ==> Gone(Apply(s, a), w)
  {}

  /** No worker takes another job once one of its builds failed, it gave a result
      up, or it quit. */
  lemma FailedWorkerStops(states: seq<State>, actions: seq<Action>, i: nat, k: nat)
    requires Execution(states, actions) && i < k < |actions|
    requires actions[i].BuildFails? || actions[i].Drop? || actions[i].Quit?
    ensures actions[k] != Handover(actions[i].w)
  {
    hide Apply, Enabled;
    GoneStep(states[i], actions[i], actions[i].w);
    for j := i + 1 to k
      invariant Gone(states[j], actions[i].w)
    {
      GoneStep(states[j], actions[j], actions[i].w);
    }
    GoneStep(states[k], actions[k], actions[i].w);
  }

  lemma JobsInOrder(states: seq<State>, actions: seq<Action>, k: nat)
    requires Execution(states, actions) && k < |actions| && actions[k].Handover?
    ensures actions[k].w < |states[k + 1].pool.workers|
    ensures states[k + 1].pool.workers[actions[k].w] == Running(HandedOver(actions, k))
  {
    var jobs, workers, cancelled :| states[0] == Start(jobs, workers, cancelled);
    HistoryHolds(states, actions, k, jobs, workers, cancelled);
    WorkerHistory(states[k], actions[k]);
    hide Apply, DeskFollows;
  }
}
