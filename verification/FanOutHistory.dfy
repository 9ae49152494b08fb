/** What a run of the bounded job runner returns, by what happened in it
    (pkg/engine/concurrency.go:51-109), and what its workers do not do. */
module FanOutHistory {
  import opened Wrappers
  import opened WorkerPool
  import opened FanOut

  /** The failures of the first `k` steps, in order, each with its job. */
  ghost function FailuresOf(states: seq<State>, actions: seq<Action>, k: nat): seq<Failure>
    requires k <= |actions| && k <= |states|
  {
    if k == 0 then []
    else
      var a, s := actions[k - 1], states[k - 1];
      FailuresOf(states, actions, k - 1)
      + if a.Fail? && a.w < |s.workers| && s.workers[a.w].Running? then [Failure(s.workers[a.w].job, a.error)] else []
  }

  /** How many jobs were handed over. */
  function HandedOver(actions: seq<Action>, k: nat): nat
    requires k <= |actions|
  {
    if k == 0 then 0 else HandedOver(actions, k - 1) + if actions[k - 1].Handover? then 1 else 0
  }

  function Cancellations(actions: seq<Action>, k: nat): nat
    requires k <= |actions|
  {
    if k == 0 then 0 else Cancellations(actions, k - 1) + if actions[k - 1].CancelFirst? then 1 else 0
  }

  ghost predicate FromOutside(actions: seq<Action>, k: nat)
    requires k <= |actions|
  {
    exists i :: 0 <= i < k && actions[i] == ParentCancels
  }

  lemma HistoryStep(s: State, a: Action)
    requires Enabled(s, a)
    ensures
      var t := Apply(s, a);
      && t.errs == s.errs + (if a.Fail? then [Failure(s.workers[a.w].job, a.error)] else [])
      && t.next == s.next + (if a.Handover? then 1 else 0)
      && (t.cancelled <==> s.cancelled || a.CancelFirst? || a.ParentCancels?)
      && |t.workers| == |s.workers| && t.jobs == s.jobs
      && (a.Handover? ==> t.workers[a.w] == Running(s.next))
      && (a.Fail? ==> s.workers[a.w].Running?)
      && (t.result.Some? ==> a.Return? && t.result.value == OutcomeOf(s)) && s.result.None?
  {}

  ghost predicate HistoryIs(states: seq<State>, actions: seq<Action>, k: nat, jobs: nat, workers: int,
                            cancelled: bool)
    requires k <= |actions| && k < |states|
  {
    var s := states[k];
    && s.jobs == jobs && |s.workers| == (if workers <= 0 then 1 else workers)
    && s.next == HandedOver(actions, k) && s.errs == FailuresOf(states, actions, k)
    && (s.cancelled <==> cancelled || FromOutside(actions, k) || Cancellations(actions, k) > 0)
  }

  lemma OutsideGrows(actions: seq<Action>, k: nat)
    requires k < |actions|
    ensures FromOutside(actions, k + 1) <==> FromOutside(actions, k) || actions[k] == ParentCancels
  {}

  lemma HistoryNext(states: seq<State>, actions: seq<Action>, k: nat, jobs: nat, workers: int, cancelled: bool)
    requires k < |actions| && k + 1 < |states| && HistoryIs(states, actions, k, jobs, workers, cancelled)
    requires Enabled(states[k], actions[k]) && states[k + 1] == Apply(states[k], actions[k])
    ensures HistoryIs(states, actions, k + 1, jobs, workers, cancelled)
  {
    HistoryStep(states[k], actions[k]);
    OutsideGrows(actions, k);
    hide Apply, Enabled, FromOutside;
  }

  /** Jobs are handed over in order, to a pool of the size asked for, at least
      one; the failures are collected as they come. */
  lemma HistoryHolds(states: seq<State>, actions: seq<Action>, k: nat, jobs: nat, workers: int, cancelled: bool)
    requires Execution(states, actions) && k < |states| && states[0] == Start(jobs, workers, cancelled)
    ensures HistoryIs(states, actions, k, jobs, workers, cancelled)
  {
    assert HistoryIs(states, actions, 0, jobs, workers, cancelled);
    hide Apply, Enabled, HistoryIs;
    for j := 0 to k
      invariant HistoryIs(states, actions, j, jobs, workers, cancelled)
    {
      HistoryNext(states, actions, j, jobs, workers, cancelled);
    }
  }

  lemma JobsInOrder(states: seq<State>, actions: seq<Action>, k: nat)
    requires Execution(states, actions) && k < |actions| && actions[k].Handover?
    ensures actions[k].w < |states[k + 1].workers|
    ensures states[k + 1].workers[actions[k].w] == Running(HandedOver(actions, k))
  {
    var jobs, workers, cancelled :| states[0] == Start(jobs, workers, cancelled);
    HistoryHolds(states, actions, k, jobs, workers, cancelled);
    HistoryStep(states[k], actions[k]);
  }

  // ------------------------------------------------------------------ workers

  /** A worker that failed, or quit, is gone for good. */
  predicate Gone(s: State, w: nat) {
    w < |s.workers| && (s.workers[w] == Cancelling || s.workers[w] == Exited)
  }

  lemma GoneStep(s: State, a: Action, w: nat)
    requires Enabled(s, a)
    ensures Gone(s, w) ==> Gone(Apply(s, a), w) && a != Handover(w)
    ensures (a.Fail? || a.Quit? || a.CancelFirst?) && a.w == w ==> Gone(Apply(s, a), w)
  {}

  lemma FailedWorkerStops(states: seq<State>, actions: seq<Action>, i: nat, k: nat)
    requires Execution(states, actions) && i < k < |actions| && (actions[i].Fail? || actions[i].Quit?)
    ensures actions[k] != Handover(actions[i].w)
  {
    hide Apply, Enabled;
    GoneStep(states[i], actions[i], actions[i].w);
    for j := i + 1 to k
      invariant Gone(states[j], actions[i].w)
    {
      GoneStep(states[j], actions[j], actions[i].w);
    }
    GoneStep(states[k], actions[k], actions[i].w);
  }

  /** Only the first failure is on its way to cancel. */
  ghost predicate OneCanceller(s: State, done: nat) {
    && (forall v, w :: 0 <= v < |s.workers| && 0 <= w < |s.workers| && s.workers[v] == s.workers[w] == Cancelling ==>
          v == w)
    && done <= 1
    && (done == 1 || s.errs == [] ==> forall w :: 0 <= w < |s.workers| ==> s.workers[w] != Cancelling)
    && (done == 1 ==> s.errs != [])
  }

  lemma CancellerStep(s: State, a: Action, done: nat)
    requires Enabled(s, a) && OneCanceller(s, done)
    ensures OneCanceller(Apply(s, a), done + if a.CancelFirst? then 1 else 0)
  {}

  /** However many jobs fail, the runner cancels its context once, and only after
      a failure. */
  lemma CancelledOnce(states: seq<State>, actions: seq<Action>, k: nat)
    requires Execution(states, actions) && k < |states|
    ensures Cancellations(actions, k) <= 1
    ensures Cancellations(actions, k) == 1 ==> FailuresOf(states, actions, k) != []
  {
    hide Apply, Enabled;
    var jobs, workers, cancelled :| states[0] == Start(jobs, workers, cancelled);
    for j := 0 to k
      invariant OneCanceller(states[j], Cancellations(actions, j))
    {
      CancellerStep(states[j], actions[j], Cancellations(actions, j));
    }
    HistoryHolds(states, actions, k, jobs, workers, cancelled);
  }

  // ------------------------------------------------------------- main results

  /** The result of a run: all failures in the order they happened if there were
      any; otherwise the context's error if somebody outside cancelled; otherwise
      nil. */
  lemma ResultIsHistory(states: seq<State>, actions: seq<Action>, k: nat, jobs: nat, workers: int, cancelled: bool)
    requires Execution(states, actions) && k < |states| && states[0] == Start(jobs, workers, cancelled)
    requires states[k].result.Some?
    ensures
      var failures := FailuresOf(states, actions, k);
      states[k].result.value ==
        if failures != [] then Joined(failures)
        else if cancelled || FromOutside(actions, k) then ContextError
        else Nil
  {
    if k > 0 {
      HistoryStep(states[k - 1], actions[k - 1]);
      HistoryHolds(states, actions, k - 1, jobs, workers, cancelled);
      CancelledOnce(states, actions, k - 1);
    }
  }

  /** Nothing is started when there is nothing to do. */
  lemma NothingToDo(states: seq<State>, actions: seq<Action>, jobs: nat, workers: int, cancelled: bool)
    requires Execution(states, actions) && states[0] == Start(jobs, workers, cancelled)
    ensures actions == [] <==> |states| == 1
    ensures cancelled || jobs == 0 ==>
      actions == [] && states[0].result == Some(if cancelled then ContextError else Nil)
  {
    if |actions| > 0 { HistoryStep(states[0], actions[0]); }
  }
}
