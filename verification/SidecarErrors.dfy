/** What becomes of the error of a failed sidecar build
    (pkg/engine/entity_feed_sidecar_build.go): it is sent, or given up because
    the context was cancelled first. */
module SidecarErrors {
  import opened Wrappers
  import opened WorkerPool
  import opened SidecarBuild

  ghost predicate InHand(s: State, w: nat, item: Item) {
    w < |s.pool.workers| && s.pool.workers[w] == Sending(item)
  }

  /** Step `d` puts the item worker `w` has in hand on the channel. */
  ghost predicate SentAt(states: seq<State>, actions: seq<Action>, d: nat, w: nat, item: Item) {
    d < |actions| && d < |states| && actions[d] == Send(w) && InHand(states[d], w, item)
  }

  /** Step `d` gives the item up, the context being cancelled. */
  ghost predicate GivenUpAt(states: seq<State>, actions: seq<Action>, d: nat, w: nat, item: Item) {
    d < |actions| && d < |states| && actions[d] == Drop(w) && InHand(states[d], w, item) && states[d].cancelled
  }

  ghost predicate Leaves(states: seq<State>, actions: seq<Action>, d: nat, w: nat, item: Item) {
    SentAt(states, actions, d, w, item) || GivenUpAt(states, actions, d, w, item)
  }

  /** An item stays in hand until it is sent or given up, and no result is
      returned before. */
  lemma HeldStep(s: State, a: Action, w: nat, item: Item)
    requires Inv(s) && Enabled(s, a) && InHand(s, w, item)
    ensures a == Send(w) || (a == Drop(w) && s.cancelled)
         || (InHand(Apply(s, a), w, item) && Apply(s, a).result.None?)
  {
    hide PoolOk, DeskOk, BadNewsTravels, Settled;
  }

  lemma EveryItemLeaves(states: seq<State>, actions: seq<Action>, i: nat, k: nat, w: nat, item: Item)
    requires Execution(states, actions) && i <= k < |states| && states[k].result.Some?
    requires InHand(states[i], w, item) && states[i].result.None?
    ensures exists d :: i <= d < k && Leaves(states, actions, d, w, item)
  {
    hide Inv, Apply, Enabled;
    Safety(states, actions);
    var j := i;
    while j < k
      invariant i <= j <= k
      invariant InHand(states[j], w, item) && states[j].result.None?
      invariant forall d :: i <= d < j ==> !Leaves(states, actions, d, w, item)
    {
      HeldStep(states[j], actions[j], w, item);
      if Leaves(states, actions, j, w, item) {
        return;
      }
      j := j + 1;
    }
  }

  // ---------------------------------------- where the recorded errors are from

  ghost predicate FromChannel(sent: seq<Item>, taken: nat, job: nat) {
    exists i :: 0 <= i < taken && i < |sent| && sent[i].job == job
  }

  /** Every recorded error, and the visit under way, is about a received item. */
  ghost predicate ErrorsFromChannel(d: Desk, sent: seq<Item>) {
    && (forall f :: f in d.errs ==> FromChannel(sent, d.taken, f.job))
    && (d.step.Visiting? ==> FromChannel(sent, d.taken, d.step.job))
  }

  lemma FromChannelGrows(sent: seq<Item>, taken: nat, wider: seq<Item>, more: nat, job: nat)
    requires FromChannel(sent, taken, job) && sent <= wider && taken <= more
    ensures FromChannel(wider, more, job)
  {}

  lemma RecordedStep(d: Desk, sent: seq<Item>, a: Action)
    requires AtDesk(a) && ErrorsFromChannel(d, sent)
    requires a.Receive? ==> d.step == Receiving && d.taken < |sent|
    requires a.VisitOk? || a.VisitFails? ==> d.step.Visiting?
    ensures ErrorsFromChannel(DeskAfter(d, sent, a), sent)
  {
    var e := DeskAfter(d, sent, a);
    if a.Receive? {
      assert FromChannel(sent, d.taken + 1, sent[d.taken].job);
    }
    forall f | f in e.errs ensures FromChannel(sent, e.taken, f.job) {
      if f in d.errs { FromChannelGrows(sent, d.taken, sent, e.taken, f.job); }
    }
  }

  lemma ErrorsStep(s: State, a: Action)
    requires Enabled(s, a) && ErrorsFromChannel(s.desk, s.pool.sent)
    ensures ErrorsFromChannel(Apply(s, a).desk, Apply(s, a).pool.sent)
  {
    hide FromChannel;
    if AtDesk(a) {
      RecordedStep(s.desk, s.pool.sent, a);
    } else {
      var t := Apply(s, a);
      forall job | FromChannel(s.pool.sent, s.desk.taken, job) ensures FromChannel(t.pool.sent, s.desk.taken, job) {
        FromChannelGrows(s.pool.sent, s.desk.taken, t.pool.sent, s.desk.taken, job);
      }
    }
  }

  lemma RecordedErrorsWereSent(states: seq<State>, actions: seq<Action>, k: nat)
    requires Execution(states, actions) && k < |states|
    ensures ErrorsFromChannel(states[k].desk, states[k].pool.sent)
  {
    hide Apply, Enabled;
    for j := 0 to k
      invariant ErrorsFromChannel(states[j].desk, states[j].pool.sent)
    {
      ErrorsStep(states[j], actions[j]);
    }
  }

  // ------------------------------------------------------------ main results

  ghost predicate Reported(r: RunResult, f: Failure) {
    r.Joined? && f in r.errs
  }

  /** A job whose item was given up is not on the channel, so nothing about it
      is ever recorded. */
  lemma GivenUpIsLost(states: seq<State>, actions: seq<Action>, d: nat, k: nat, w: nat, item: Item, error: string)
    requires Execution(states, actions) && d < k < |states| && GivenUpAt(states, actions, d, w, item)
    ensures Failure(item.job, error) !in states[k].desk.errs
  {
    hide FromChannel, JobsOf, Holding;
    HistoryKept(states, actions, d + 1);
    Safety(states, actions);
    RecordedErrorsWereSent(states, actions, k);
    assert states[d + 1].pool.dropped[item.job] >= 1;
    assert Accounted(states[k].pool, item.job);
    NotOnChannel(states[k].pool.sent, states[k].desk.taken, item.job);
  }

  lemma NotOnChannel(sent: seq<Item>, taken: nat, job: nat)
    requires JobsOf(sent)[job] == 0
    ensures !FromChannel(sent, taken, job)
  {
    forall i | 0 <= i < |sent| ensures sent[i].job != job { SentCounts(sent, i); }
  }

  /** The error of a failed build is reported if and only if its item was put
      on the channel; otherwise the item was given up after the context had
      been cancelled, and the error is lost. */
  lemma ReportedExactlyWhenSent(states: seq<State>, actions: seq<Action>, i: nat, k: nat)
    requires Execution(states, actions) && i < k < |states| && states[k].result.Some?
    requires actions[i].BuildFails?
    ensures
      var w, job := actions[i].w, states[i].pool.workers[actions[i].w].job;
      var item := Item(job, BuildError(actions[i].error));
      && (Reported(states[k].result.value, Failure(job, actions[i].error)) <==>
            exists d :: i < d < k && SentAt(states, actions, d, w, item))
      && (!Reported(states[k].result.value, Failure(job, actions[i].error)) <==>
            exists d :: i < d < k && GivenUpAt(states, actions, d, w, item))
  {
    var w, job := actions[i].w, states[i].pool.workers[actions[i].w].job;
    var item := Item(job, BuildError(actions[i].error));
    assert InHand(states[i + 1], w, item) && states[i + 1].result.None?;
    EveryItemLeaves(states, actions, i + 1, k, w, item);
    hide Apply, Enabled, Inv, SentAt, GivenUpAt, Reported;
    forall d | i < d < k && SentAt(states, actions, d, w, item)
      ensures Reported(states[k].result.value, Failure(job, actions[i].error))
    {
      SentIsReported(states, actions, d, k, w, item);
    }
    forall d | i < d < k && GivenUpAt(states, actions, d, w, item)
      ensures !Reported(states[k].result.value, Failure(job, actions[i].error))
    {
      GivenUpIsNotReported(states, actions, d, k, w, item);
    }
  }

  lemma SentIsReported(states: seq<State>, actions: seq<Action>, d: nat, k: nat, w: nat, item: Item)
    requires Execution(states, actions) && d < k < |states| && states[k].result.Some?
    requires SentAt(states, actions, d, w, item) && item.outcome.BuildError?
    ensures Reported(states[k].result.value, Failure(item.job, item.outcome.error))
  {
    hide Apply, Enabled, Inv;
    BuildErrorsShow(states, actions, d, k);
  }

  lemma GivenUpIsNotReported(states: seq<State>, actions: seq<Action>, d: nat, k: nat, w: nat, item: Item)
    requires Execution(states, actions) && d < k < |states| && states[k].result.Some?
    requires GivenUpAt(states, actions, d, w, item) && item.outcome.BuildError?
    ensures !Reported(states[k].result.value, Failure(item.job, item.outcome.error))
  {
    GivenUpIsLost(states, actions, d, k, w, item, item.outcome.error);
    Safety(states, actions);
    hide Apply, Enabled, PoolOk, DeskOk, BadNewsTravels, Ends;
  }

  // ----------------------------------------- some error is always reported

  ghost predicate ErrorSent(sent: seq<Item>) {
    exists i :: 0 <= i < |sent| && sent[i].outcome.BuildError?
  }

  ghost predicate SomeoneCancels(p: Pool) {
    exists w :: 0 <= w < |p.workers| && p.workers[w] == Cancelling
  }

  /** Unless somebody outside cancelled, an error is on its way to the result
      before the context is. */
  ghost predicate CancelledByError(s: State) {
    s.cancelled || SomeoneCancels(s.pool) || s.desk.step == MustCancel ==> s.desk.errs != [] || ErrorSent(s.pool.sent)
  }

  lemma CancelledByErrorStep(s: State, a: Action)
    requires Enabled(s, a) && CancelledByError(s) && !a.ParentCancels?
    ensures CancelledByError(Apply(s, a))
  {
    var t := Apply(s, a);
    if ErrorSent(s.pool.sent) {
      var i :| 0 <= i < |s.pool.sent| && s.pool.sent[i].outcome.BuildError?;
      assert t.pool.sent[i].outcome.BuildError?;
    } else if a.Send? && s.pool.workers[a.w].item.outcome.BuildError? {
      assert t.pool.sent[|s.pool.sent|].outcome.BuildError?;
    } else if SomeoneCancels(t.pool) {
      var w :| 0 <= w < |t.pool.workers| && t.pool.workers[w] == Cancelling;
      assert (ByWorker(a) && a.w == w) || s.pool.workers[w] == Cancelling;
    }
  }

  /** Without a cancellation from outside, a run in which some build failed
      reports at least one error. */
  lemma SomeErrorReported(states: seq<State>, actions: seq<Action>, i: nat, k: nat)
    requires Execution(states, actions) && i < k < |states| && states[k].result.Some?
    requires actions[i].BuildFails? && !states[0].cancelled
    requires forall j :: 0 <= j < k ==> !actions[j].ParentCancels?
    ensures states[k].result.value.Joined? && states[k].result.value.errs != []
  {
    hide Apply, Enabled;
    assert CancelledByError(states[0]);
    for j := 0 to k
      invariant CancelledByError(states[j])
    {
      CancelledByErrorStep(states[j], actions[j]);
    }
    BuildErrorsShow(states, actions, i, k);
    Safety(states, actions);
    hide PoolOk, BadNewsTravels, Ends, Deliveries;
  }

  // ------------------------------------------------------ a run that loses one

  /** Two jobs, two workers, room for two results. */
  function Race(w0: Phase, w1: Phase, next: nat, failed: bool, sent: seq<Item>, dropped: multiset<nat>, d: Desk,
                closed: (bool, bool), cancelled: bool, result: Option<RunResult>): State
  {
    State(Pool(2, next, [w0, w1], 2, sent, dropped, map[], failed), d, closed.0, closed.1, cancelled, result)
  }

  const FIRST := Item(0, BuildError("a"))
  const SECOND := Item(1, BuildError("b"))
  const NOBODY := Desk(0, Receiving, [], 0, [])

  /** Both builds fail. The first worker sends its error and cancels, so that
      the second gives its error up. */
  function RaceStates(): seq<State> {
    var d1 := Desk(1, MustCancel, [], 0, [Failure(0, "a")]);
    var d2 := d1.(step := Receiving);
    var open := (false, false);
    [ Race(Idle, Idle, 0, false, [], multiset{}, NOBODY, open, false, None),
      Race(Running(0), Idle, 1, false, [], multiset{}, NOBODY, open, false, None),
      Race(Running(0), Running(1), 2, false, [], multiset{}, NOBODY, open, false, None),
      Race(Sending(FIRST), Running(1), 2, true, [], multiset{}, NOBODY, open, false, None),
      Race(Sending(FIRST), Sending(SECOND), 2, true, [], multiset{}, NOBODY, open, false, None),
      Race(Cancelling, Sending(SECOND), 2, true, [FIRST], multiset{}, NOBODY, open, false, None),
      Race(Exited, Sending(SECOND), 2, true, [FIRST], multiset{}, NOBODY, open, true, None),
      Race(Exited, Cancelling, 2, true, [FIRST], multiset{1}, NOBODY, open, true, None),
      Race(Exited, Exited, 2, true, [FIRST], multiset{1}, NOBODY, open, true, None),
      Race(Exited, Exited, 2, true, [FIRST], multiset{1}, NOBODY, (true, false), true, None),
      Race(Exited, Exited, 2, true, [FIRST], multiset{1}, NOBODY, (true, true), true, None),
      Race(Exited, Exited, 2, true, [FIRST], multiset{1}, d1, (true, true), true, None),
      Race(Exited, Exited, 2, true, [FIRST], multiset{1}, d2, (true, true), true, None),
      Race(Exited, Exited, 2, true, [FIRST], multiset{1}, d2, (true, true), true, Some(Joined([Failure(0, "a")]))) ]
  }

  function RaceActions(): seq<Action> {
    [ Handover(0), Handover(1), BuildFails(0, "a"), BuildFails(1, "b"), Send(0), CancelByWorker(0), Drop(1),
      CancelByWorker(1), CloseJobs, CloseResults, Receive, CancelByConsumer, Return ]
  }

  ghost predicate RaceMoves(i: nat) {
    i < 13 && Enabled(RaceStates()[i], RaceActions()[i])
      && RaceStates()[i + 1] == Apply(RaceStates()[i], RaceActions()[i])
  }

  lemma BuildsFail()
    ensures RaceMoves(0) && RaceMoves(1) && RaceMoves(2) && RaceMoves(3)
  {}

  lemma FirstSendsSecondGivesUp()
    ensures RaceMoves(4) && RaceMoves(5) && RaceMoves(6) && RaceMoves(7)
  {}

  lemma ErrorsCollected()
    ensures RaceMoves(8) && RaceMoves(9) && RaceMoves(10) && RaceMoves(11) && RaceMoves(12)
  {}

  lemma RaceEnds()
    ensures |RaceStates()| == 14 && RaceStates()[0] == Start(2, 2, false)
    ensures RaceStates()[13].result == Some(Joined([Failure(0, "a")]))
    ensures |RaceActions()| == 13 && RaceActions()[3] == BuildFails(1, "b")
  {
    assert seq(2, i => Idle) == [Idle, Idle];
  }

  lemma EveryRaceMove(i: nat)
    requires i < 13
    ensures RaceMoves(i)
  {
    hide RaceMoves;
    BuildsFail();
    FirstSendsSecondGivesUp();
    ErrorsCollected();
  }

  /** Not every error survives: here one of two is lost. */
  lemma SecondErrorLost()
    ensures exists states: seq<State>, actions :: (
      && Execution(states, actions) && |states| == 14 && actions[3] == BuildFails(1, "b")
      && states[13].result == Some(Joined([Failure(0, "a")])))
  {
    hide RaceStates, RaceActions, Apply, Enabled, Start;
    RaceEnds();
    forall i | 0 <= i < |RaceActions()|
      ensures Enabled(RaceStates()[i], RaceActions()[i])
      ensures RaceStates()[i + 1] == Apply(RaceStates()[i], RaceActions()[i])
    {
      EveryRaceMove(i);
    }
    assert Execution(RaceStates(), RaceActions());
  }
}
