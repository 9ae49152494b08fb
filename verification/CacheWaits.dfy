/** What `Wait` answers, said of what happened before and not of the worker's
    fields (pkg/engine/cache_persistence.go:129-161): a run knows which saves
    finished, which failed and with what text, and when the worker ended. */
module CacheWaits {
  import opened Wrappers
  import opened CachePersistence

  /** The number a worker has in hand: being saved, else pending, else none. */
  function InHand(x: Worker): nat {
    if x.pc.Saving? then x.pc.seq' else if x.f.pending.Some? then |x.submitted| else 0
  }

  /** Step `i` completes a save of worker `w` numbered at least `n`. */
  ghost predicate SavedAt(states: seq<System>, actions: seq<Action>, i: nat, w: nat, n: nat) {
    && i < |actions| && i < |states| && w < |states[i].workers|
    && actions[i] == FinishOk(w) && n <= InHand(states[i].workers[w])
  }

  /** Step `i` fails a save of worker `w` numbered at least `n`, or is a panic
      that takes one with it. */
  ghost predicate FailedAt(states: seq<System>, actions: seq<Action>, i: nat, w: nat, n: nat) {
    && i < |actions| && i < |states| && w < |states[i].workers|
    && (actions[i].FinishError? || actions[i].Panic?) && actions[i].w == w && n <= InHand(states[i].workers[w])
  }

  ghost predicate SavedBefore(states: seq<System>, actions: seq<Action>, k: nat, w: nat, n: nat) {
    exists i :: 0 <= i < k && SavedAt(states, actions, i, w, n)
  }

  ghost predicate FailedBefore(states: seq<System>, actions: seq<Action>, k: nat, w: nat, n: nat) {
    exists i :: 0 <= i < k && FailedAt(states, actions, i, w, n)
  }

  ghost predicate EndedBefore(actions: seq<Action>, k: nat, w: nat)
    requires k <= |actions|
  {
    exists i :: 0 <= i < k && (actions[i].Drain? || actions[i].Panic?) && actions[i].w == w
  }

  ghost predicate StopAsked(actions: seq<Action>, k: nat, w: nat)
    requires k <= |actions|
  {
    exists i :: 0 <= i < k && (actions[i].Stop? || actions[i].Panic?) && actions[i].w == w
  }

  /** Whether an action finishes something of worker `w`. */
  predicate Finishes(a: Action, w: nat) {
    (a.FinishOk? || a.FinishError? || a.Panic?) && a.w == w
  }

  /** The text that the last of them left; a save that worked leaves none. */
  function LastText(actions: seq<Action>, k: nat, w: nat): string
    requires k <= |actions|
  {
    if k == 0 then ""
    else if !Finishes(actions[k - 1], w) then LastText(actions, k - 1, w)
    else if actions[k - 1].FinishOk? then "" else actions[k - 1].error
  }

  function Saves(actions: seq<Action>, k: nat, w: nat): nat
    requires k <= |actions|
  {
    if k == 0 then 0 else Saves(actions, k - 1, w) + if actions[k - 1] == FinishOk(w) then 1 else 0
  }

  function Failures(actions: seq<Action>, k: nat, w: nat): nat
    requires k <= |actions|
  {
    if k == 0 then 0
    else
      Failures(actions, k - 1, w) + if Finishes(actions[k - 1], w) && !actions[k - 1].FinishOk? then 1 else 0
  }

  /** The fields of a worker are what happened to it. */
  ghost predicate Told(states: seq<System>, actions: seq<Action>, k: nat, w: nat)
    requires k <= |actions| && k < |states| && w < |states[k].workers|
  {
    var f := states[k].workers[w].f;
    && (forall n: nat :: n > 0 ==> (f.completedSeq >= n <==> SavedBefore(states, actions, k, w, n)))
    && (forall n: nat :: n > 0 ==> (f.failedSeq >= n <==> FailedBefore(states, actions, k, w, n)))
    && f.lastError == LastText(actions, k, w)
    && (f.stopped <==> EndedBefore(actions, k, w))
    && (f.stopping <==> StopAsked(actions, k, w))
    && f.completedSaves == Saves(actions, k, w) && f.failedSaves == Failures(actions, k, w)
  }

  // ------------------------------------------------------------- one more step

  /** How a step moves what a worker remembers, its own steps and all others. */
  lemma Remembered(s: System, a: Action, w: nat)
    requires Inv(s) && Enabled(s, a) && w < |s.workers|
    ensures w < |Apply(s, a).workers|
    ensures
      var x, y := s.workers[w], Apply(s, a).workers[w];
      && y.f.completedSeq == (if a == FinishOk(w) then InHand(x) else x.f.completedSeq)
      && y.f.failedSeq == (if Finishes(a, w) && !a.FinishOk? && InHand(x) > 0 then InHand(x) else x.f.failedSeq)
      && y.f.lastError == (if !Finishes(a, w) then x.f.lastError else if a.FinishOk? then "" else a.error)
      && (y.f.stopped <==> x.f.stopped || ((a.Drain? || a.Panic?) && a.w == w))
      && (y.f.stopping <==> x.f.stopping || ((a.Stop? || a.Panic?) && a.w == w))
      && y.f.completedSaves == x.f.completedSaves + (if a == FinishOk(w) then 1 else 0)
      && y.f.failedSaves == x.f.failedSaves + (if Finishes(a, w) && !a.FinishOk? then 1 else 0)
      && (Finishes(a, w) && InHand(x) > 0 ==> x.f.completedSeq < InHand(x) && x.f.failedSeq < InHand(x))
      && (a == FinishOk(w) ==> InHand(x) > 0)
  {
    hide NoLostWakeup, DiskCurrent, OneRunning, WaitTurn, Broadcast, WorkerAfter, WorkerOk;
    assert WorkerOk(s.workers[w]);
    if OnWorker(a) && a.w == w { OwnStep(s, a); }
  }

  lemma OwnStep(s: System, a: Action)
    requires Enabled(s, a) && OnWorker(a) && WorkerOk(s.workers[a.w])
    ensures
      var x, y, w := s.workers[a.w], WorkerAfter(s.workers[a.w], a), a.w;
      && y.f.completedSeq == (if a == FinishOk(w) then InHand(x) else x.f.completedSeq)
      && y.f.failedSeq == (if Finishes(a, w) && !a.FinishOk? && InHand(x) > 0 then InHand(x) else x.f.failedSeq)
      && y.f.lastError == (if !Finishes(a, w) then x.f.lastError else if a.FinishOk? then "" else a.error)
      && (y.f.stopped <==> x.f.stopped || a.Drain? || a.Panic?)
      && (y.f.stopping <==> x.f.stopping || a.Stop? || a.Panic?)
      && y.f.completedSaves == x.f.completedSaves + (if a == FinishOk(w) then 1 else 0)
      && y.f.failedSaves == x.f.failedSaves + (if Finishes(a, w) && !a.FinishOk? then 1 else 0)
      && (Finishes(a, w) && InHand(x) > 0 ==> x.f.completedSeq < InHand(x) && x.f.failedSeq < InHand(x))
      && (a == FinishOk(w) ==> InHand(x) > 0)
  {
    hide Newest;
  }

  lemma BeforeGrows(states: seq<System>, actions: seq<Action>, k: nat, w: nat, n: nat)
    ensures SavedBefore(states, actions, k + 1, w, n)
      <==> SavedBefore(states, actions, k, w, n) || SavedAt(states, actions, k, w, n)
    ensures FailedBefore(states, actions, k + 1, w, n)
      <==> FailedBefore(states, actions, k, w, n) || FailedAt(states, actions, k, w, n)
  {
    hide SavedAt, FailedAt;
  }

  lemma EndedGrows(actions: seq<Action>, k: nat, w: nat)
    requires k < |actions|
    ensures EndedBefore(actions, k + 1, w)
      <==> EndedBefore(actions, k, w) || ((actions[k].Drain? || actions[k].Panic?) && actions[k].w == w)
    ensures StopAsked(actions, k + 1, w)
      <==> StopAsked(actions, k, w) || ((actions[k].Stop? || actions[k].Panic?) && actions[k].w == w)
  {}

  lemma ToldStep(states: seq<System>, actions: seq<Action>, k: nat, w: nat)
    requires Execution(states, actions) && k < |actions| && w < |states[k].workers|
    requires Inv(states[k]) && Told(states, actions, k, w)
    ensures w < |states[k + 1].workers| && Told(states, actions, k + 1, w)
  {
    hide Inv, Told;
    ToldNext(states, actions, k, w);
  }

  lemma ToldNext(states: seq<System>, actions: seq<Action>, k: nat, w: nat)
    requires k < |actions| && k + 1 < |states| && w < |states[k].workers|
    requires Enabled(states[k], actions[k]) && states[k + 1] == Apply(states[k], actions[k])
    requires Inv(states[k]) && Told(states, actions, k, w)
    ensures w < |states[k + 1].workers| && Told(states, actions, k + 1, w)
  {
    hide Inv, Enabled, Apply, SavedBefore, FailedBefore, EndedBefore, StopAsked;
    var a, x := actions[k], states[k].workers[w];
    Remembered(states[k], a, w);
    EndedGrows(actions, k, w);
    var f, g, next := x.f, states[k + 1].workers[w].f, k + 1;
    forall n: nat | n > 0
      ensures g.completedSeq >= n <==> SavedBefore(states, actions, next, w, n)
      ensures g.failedSeq >= n <==> FailedBefore(states, actions, next, w, n)
    {
      BeforeGrows(states, actions, k, w, n);
      assert f.completedSeq >= n <==> SavedBefore(states, actions, k, w, n);
      assert f.failedSeq >= n <==> FailedBefore(states, actions, k, w, n);
    }
  }

  // ------------------------------------------------------------- new workers

  lemma {:induction false} NothingYet(states: seq<System>, actions: seq<Action>, k: nat, w: nat)
    requires k <= |actions| && k <= |states|
    requires forall i :: 0 <= i < k ==> |states[i].workers| <= w
    requires forall i :: 0 <= i < k ==> Enabled(states[i], actions[i])
    ensures LastText(actions, k, w) == "" && Saves(actions, k, w) == 0 && Failures(actions, k, w) == 0
    ensures !EndedBefore(actions, k, w) && !StopAsked(actions, k, w)
    ensures forall n: nat :: !SavedBefore(states, actions, k, w, n) && !FailedBefore(states, actions, k, w, n)
  {
    if k > 0 {
      NothingYet(states, actions, k - 1, w);
      NotOnUnknown(states[k - 1], actions[k - 1], w);
      EndedGrows(actions, k - 1, w);
    }
  }

  lemma NotOnUnknown(s: System, a: Action, w: nat)
    requires Enabled(s, a) && |s.workers| <= w
    ensures OnWorker(a) ==> a.w != w
  {}

  lemma NewWorkerIsFresh(s: System, a: Action, w: nat)
    requires Enabled(s, a) && |s.workers| <= w < |Apply(s, a).workers|
    ensures Apply(s, a).workers[w].f == FRESH
  {}

  /** In every state of every run, the fields of every worker are its history. */
  lemma FieldsAreHistory(states: seq<System>, actions: seq<Action>, k: nat)
    requires Execution(states, actions) && k < |states|
    ensures forall w :: 0 <= w < |states[k].workers| ==> Told(states, actions, k, w)
  {
    Safety(states, actions);
    forall i, j | 0 <= i <= j < |states| ensures |states[i].workers| <= |states[j].workers| {
      Monotone(states, actions, i);
    }
    hide Inv, Told;
    for j := 0 to k
      invariant forall w :: 0 <= w < |states[j].workers| ==> Told(states, actions, j, w)
    {
      var next := j + 1;
      forall w | 0 <= w < |states[next].workers| ensures Told(states, actions, next, w) {
        if w < |states[j].workers| {
          ToldStep(states, actions, j, w);
        } else {
          FreshIsTold(states, actions, j, w);
        }
      }
    }
  }

  lemma FreshIsTold(states: seq<System>, actions: seq<Action>, j: nat, w: nat)
    requires Execution(states, actions) && j < |actions| && |states[j].workers| <= w < |states[j + 1].workers|
    requires forall i :: 0 <= i <= j ==> |states[i].workers| <= |states[j].workers|
    ensures Told(states, actions, j + 1, w)
  {
    NothingYet(states, actions, j + 1, w);
    NewWorkerIsFresh(states[j], actions[j], w);
  }

  // ------------------------------------------------------------ main results

  /** The context of the wait under way was cancelled. */
  ghost predicate CancelledSince(actions: seq<Action>, k: nat, id: nat)
    requires k <= |actions|
  {
    exists i :: 0 <= i < k && actions[i] == CancelContext(id)
      && forall j :: i < j < k ==> !(actions[j].StartWait? && actions[j].id == id)
  }

  lemma CancelledIsHistory(states: seq<System>, actions: seq<Action>, k: nat, id: nat)
    requires Execution(states, actions) && k < |states| && id in states[k].waiters
    ensures states[k].waiters[id].cancelled <==> CancelledSince(actions, k, id)
  {
    hide Apply, Enabled, CancelledSince;
    if k > 0 {
      CancelledStep(states[k - 1], actions[k - 1], id);
      CancelledGrows(actions, k - 1, id);
      if id in states[k - 1].waiters { CancelledIsHistory(states, actions, k - 1, id); }
    }
  }

  lemma CancelledStep(s: System, a: Action, id: nat)
    requires Enabled(s, a) && id in Apply(s, a).waiters
    ensures id in s.waiters || (a.StartWait? && a.id == id)
    ensures Apply(s, a).waiters[id].cancelled <==>
      !(a.StartWait? && a.id == id) && (a == CancelContext(id) || s.waiters[id].cancelled)
  {
    hide WaitTurn, WorkerAfter;
  }

  lemma CancelledGrows(actions: seq<Action>, k: nat, id: nat)
    requires k < |actions|
    ensures CancelledSince(actions, k + 1, id) <==>
      !(actions[k].StartWait? && actions[k].id == id)
        && (actions[k] == CancelContext(id) || CancelledSince(actions, k, id))
  {}

  /** The wait under way is for worker `w` and number `n`. */
  ghost predicate AskedFor(actions: seq<Action>, k: nat, id: nat, w: nat, n: nat)
    requires k <= |actions|
  {
    exists i :: 0 <= i < k && actions[i] == StartWait(id, w, n)
      && forall j :: i < j < k ==> !(actions[j].StartWait? && actions[j].id == id)
  }

  lemma AskedGrows(actions: seq<Action>, k: nat, id: nat, w: nat, n: nat)
    requires k < |actions|
    ensures AskedFor(actions, k + 1, id, w, n) <==>
      actions[k] == StartWait(id, w, n)
        || (!(actions[k].StartWait? && actions[k].id == id) && AskedFor(actions, k, id, w, n))
  {}

  lemma WaitsAsAsked(states: seq<System>, actions: seq<Action>, k: nat, id: nat)
    requires Execution(states, actions) && k < |states| && id in states[k].waiters
    ensures AskedFor(actions, k, id, states[k].waiters[id].worker, states[k].waiters[id].seq')
  {
    hide Apply, Enabled, AskedFor;
    if k > 0 {
      var t := states[k].waiters[id];
      AskedStep(states[k - 1], actions[k - 1], id);
      AskedGrows(actions, k - 1, id, t.worker, t.seq');
      if id in states[k - 1].waiters { WaitsAsAsked(states, actions, k - 1, id); }
    }
  }

  lemma AskedStep(s: System, a: Action, id: nat)
    requires Enabled(s, a) && id in Apply(s, a).waiters
    ensures
      var t := Apply(s, a).waiters[id];
      if a.StartWait? && a.id == id then a == StartWait(id, t.worker, t.seq')
      else id in s.waiters && s.waiters[id].worker == t.worker && s.waiters[id].seq' == t.seq'
  {
    hide WaitTurn, WorkerAfter;
  }

  /** What a look at number `n` must answer, by what happened before it. */
  ghost predicate Deserved(states: seq<System>, actions: seq<Action>, k: nat, id: nat, w: nat, n: nat, r: WaitResult)
    requires k <= |actions|
  {
    var saved := SavedBefore(states, actions, k, w, n);
    var failed := !saved && FailedBefore(states, actions, k, w, n) && LastText(actions, k, w) != "";
    var ended := !saved && !failed && EndedBefore(actions, k, w);
    var cancelled := !saved && !failed && !ended && CancelledSince(actions, k, id);
    && (r == Saved <==> saved)
    && (r.Failed? <==> failed) && (r.Failed? ==> r.error == LastText(actions, k, w))
    && (r == Stopped <==> ended)
    && (r == Cancelled <==> cancelled)
    && (r == Sleep <==> !saved && !failed && !ended && !cancelled)
  }

  /** In every run, a look at a number answers nil exactly when its worker has
      completed a save numbered at least that; with the last text exactly when it
      has not, one numbered at least that has failed, and the text is not empty;
      that the worker stopped exactly when neither holds and it has; the
      context's error when nothing else is left; and sleeps otherwise. */
  lemma LookTells(states: seq<System>, actions: seq<Action>, k: nat, id: nat)
    requires Execution(states, actions) && k < |actions| && actions[k] == LookAgain(id)
    ensures
      var t := states[k].waiters[id];
      && AskedFor(actions, k, id, t.worker, t.seq') && t.worker < |states[k].workers| && t.seq' > 0
      && Deserved(states, actions, k, id, t.worker, t.seq',
                  WaitTurn(states[k].workers[t.worker].f, t.seq', t.cancelled))
  {
    hide Deserved, Told, SavedBefore, FailedBefore, EndedBefore, StopAsked, CancelledSince, AskedFor, WaitTurn;
    Waiting(states, actions, k, id);
    FieldsAreHistory(states, actions, k);
    CancelledIsHistory(states, actions, k, id);
    WaitsAsAsked(states, actions, k, id);
    TurnTells(states, actions, k, id);
  }

  lemma Waiting(states: seq<System>, actions: seq<Action>, k: nat, id: nat)
    requires Execution(states, actions) && k < |actions| && actions[k] == LookAgain(id)
    ensures id in states[k].waiters
    ensures states[k].waiters[id].worker < |states[k].workers| && states[k].waiters[id].seq' > 0
  {
    hide WorkerOk, DiskCurrent, OneRunning, WaitTurn;
    Safety(states, actions);
    assert NoLostWakeup(states[k], id);
  }

  lemma TurnTells(states: seq<System>, actions: seq<Action>, k: nat, id: nat)
    requires k <= |actions| && k < |states| && id in states[k].waiters
    requires states[k].waiters[id].worker < |states[k].workers| && states[k].waiters[id].seq' > 0
    requires Told(states, actions, k, states[k].waiters[id].worker)
    requires states[k].waiters[id].cancelled <==> CancelledSince(actions, k, id)
    ensures
      var t := states[k].waiters[id];
      Deserved(states, actions, k, id, t.worker, t.seq',
               WaitTurn(states[k].workers[t.worker].f, t.seq', t.cancelled))
  {
    hide SavedBefore, FailedBefore, EndedBefore, StopAsked, CancelledSince;
  }

  /** A look that answers ends the wait; one that does not puts it to sleep. */
  lemma LookEndsWait(states: seq<System>, actions: seq<Action>, k: nat, id: nat)
    requires Execution(states, actions) && k < |actions| && actions[k] == LookAgain(id)
    ensures
      var t := states[k].waiters[id];
      var sleeps :=
        && !SavedBefore(states, actions, k, t.worker, t.seq')
        && !(FailedBefore(states, actions, k, t.worker, t.seq') && LastText(actions, k, t.worker) != "")
        && !EndedBefore(actions, k, t.worker) && !CancelledSince(actions, k, id);
      && (id in states[k + 1].waiters <==> sleeps)
      && (sleeps ==> states[k + 1].waiters[id] == t.(asleep := true))
  {
    LookTells(states, actions, k, id);
    hide SavedBefore, FailedBefore, EndedBefore, CancelledSince, LastText, WaitTurn;
  }

  /** Once a worker was asked to stop, or panicked, it accepts nothing more; until
      then, it accepts everything. */
  lemma StopRefuses(states: seq<System>, actions: seq<Action>, k: nat, w: nat, content: Content)
    requires Execution(states, actions) && k < |actions| && w < |states[k].workers|
    ensures Enabled(states[k], Submit(w, content)) <==> !StopAsked(actions, k, w)
  {
    FieldsAreHistory(states, actions, k);
    Safety(states, actions);
    assert Told(states, actions, k, w) && WorkerOk(states[k].workers[w]);
    hide StopAsked, SavedBefore, FailedBefore, EndedBefore, LastText, Saves, Failures, Execution, Numbered;
  }

  /** A caller that asks for the worker gets one that has not stopped: the newest
      one, unless that has stopped, else a new one. */
  lemma EnsuredWorkerRuns(states: seq<System>, actions: seq<Action>, k: nat)
    requires Execution(states, actions) && k < |actions| && actions[k] == EnsureWorker
    ensures
      var was, now := states[k].workers, states[k + 1].workers;
      && now != [] && !now[|now| - 1].f.stopped && was <= now
      && (was != [] && !was[|was| - 1].f.stopped <==> now == was)
      && (now != was ==> |now| == |was| + 1 && now[|was|].f.acceptedSeq == 0)
  {}
}
