/** The cache persistence worker (pkg/engine/cache_persistence.go) and its
    replacement by the engine (cache_persistence_engine.go). Each locked
    section is one atomic step; a save is a rename that happens or not,
    between two locked sections. */
module CachePersistence {
  import opened Wrappers

  /** A cache snapshot: entry name to serialised entry. */
  type Content = map<string, string>

  /** The fields of the worker that its mutex guards. */
  datatype Fields = Fields(
    pending: Option<Content>,
    pendingSeq: nat,
    inFlightSeq: nat,
    acceptedSeq: nat,
    completedSeq: nat,
    failedSeq: nat,
    completedSaves: nat,
    failedSaves: nat,
    saving: bool,
    stopping: bool,
    stopped: bool,
    lastError: string)

  const FRESH := Fields(None, 0, 0, 0, 0, 0, 0, 0, false, false, false, "")

  function Submitted(f: Fields, c: Content): Fields {
    f.(acceptedSeq := f.acceptedSeq + 1, pending := Some(c), pendingSeq := f.acceptedSeq + 1)
  }

  function Taken(f: Fields): Fields {
    f.(pending := None, pendingSeq := 0, inFlightSeq := f.pendingSeq, saving := true)
  }

  function SaveSucceeded(f: Fields, seq': nat): Fields {
    f.(saving := false, inFlightSeq := 0, completedSeq := seq', completedSaves := f.completedSaves + 1, lastError := "")
  }

  function SaveFailed(f: Fields, seq': nat, error: string): Fields {
    f.(saving := false, inFlightSeq := 0, failedSeq := seq', failedSaves := f.failedSaves + 1, lastError := error)
  }

  function StopRequested(f: Fields): Fields {
    f.(stopping := true)
  }

  function Drained(f: Fields): Fields {
    f.(stopped := true)
  }

  function PanicRecovered(f: Fields, error: string): Fields {
    var lost := if f.inFlightSeq == 0 then f.pendingSeq else f.inFlightSeq;
    f.(pending := None, pendingSeq := 0, inFlightSeq := 0, saving := false, stopping := true, stopped := true,
       failedSeq := if lost != 0 then lost else f.failedSeq,
       failedSaves := f.failedSaves + 1, lastError := error)
  }

  /** What one turn of the `Wait` loop decides. */
  datatype WaitResult = Saved | Failed(error: string) | Stopped | Cancelled | Sleep

  function WaitTurn(f: Fields, seq': nat, cancelled: bool): WaitResult {
    if f.completedSeq >= seq' then Saved
    else if f.failedSeq >= seq' && f.lastError != "" then Failed(f.lastError)
    else if f.stopped then Stopped
    else if cancelled then Cancelled
    else Sleep
  }

  class CachePersistenceWorker {
    var pending: Option<Content>
    var pendingSeq: nat
    var inFlightSeq: nat
    var acceptedSeq: nat
    var completedSeq: nat
    var failedSeq: nat
    var completedSaves: nat
    var failedSaves: nat
    var saving: bool
    var stopping: bool
    var stopped: bool
    var lastError: string

    function View(): Fields
      reads this
    {
      Fields(pending, pendingSeq, inFlightSeq, acceptedSeq, completedSeq, failedSeq,
             completedSaves, failedSaves, saving, stopping, stopped, lastError)
    }

    constructor ()
      ensures View() == FRESH
    {
      pending := None;
      pendingSeq, inFlightSeq, acceptedSeq, completedSeq, failedSeq := 0, 0, 0, 0, 0;
      completedSaves, failedSaves := 0, 0;
      saving, stopping, stopped, lastError := false, false, false, "";
    }

    /** `Submit`; a nil snapshot is replaced by an empty one. */
    method Submit(snapshot: Option<Content>) returns (seq': Option<nat>)
      modifies this
      ensures old(stopping || stopped) ==> seq' == None && View() == old(View())
      ensures !old(stopping || stopped) ==>
        seq' == Some(old(acceptedSeq) + 1) &&
        View() == Submitted(old(View()), if snapshot.Some? then snapshot.value else map[])
    {
      if stopping || stopped {
        return None;
      }
      acceptedSeq := acceptedSeq + 1;
      pending := Some(if snapshot.Some? then snapshot.value else map[]);
      pendingSeq := acceptedSeq;
      seq' := Some(acceptedSeq);
    }

    /** The locked section before a save: `None` when the worker is done. */
    method Next() returns (job: Option<(Content, nat)>)
      requires pending.Some? || stopping
      modifies this
      ensures old(pending).None? ==> job == None && View() == Drained(old(View()))
      ensures old(pending).Some? ==>
        job == Some((old(pending).value, old(pendingSeq))) && View() == Taken(old(View()))
    {
      if pending.None? && stopping {
        stopped := true;
        return None;
      }
      job := Some((pending.value, pendingSeq));
      pending, pendingSeq := None, 0;
      inFlightSeq := job.value.1;
      saving := true;
    }

    /** The locked section after a save. */
    method Finish(seq': nat, error: Option<string>)
      modifies this
      ensures View() == if error.Some? then SaveFailed(old(View()), seq', error.value)
        else SaveSucceeded(old(View()), seq')
    {
      saving, inFlightSeq := false, 0;
      if error.Some? {
        failedSeq, failedSaves, lastError := seq', failedSaves + 1, error.value;
      } else {
        completedSeq, completedSaves, lastError := seq', completedSaves + 1, "";
      }
    }

    /** The locked section of `Stop`, and whether it broadcasts. */
    method RequestStop() returns (wakes: bool)
      modifies this
      ensures View() == StopRequested(old(View()))
      ensures wakes <==> !old(stopping)
    {
      wakes := false;
      if !stopping {
        stopping := true;
        wakes := true;
      }
    }

    /** `recoverRunPanic`, once something was recovered. */
    method RecoverPanic(error: string)
      modifies this
      ensures View() == PanicRecovered(old(View()), error)
    {
      var lost := inFlightSeq;
      if lost == 0 {
        lost := pendingSeq;
      }
      pending, pendingSeq, inFlightSeq := None, 0, 0;
      saving, stopping, stopped := false, true, true;
      if lost != 0 {
        failedSeq := lost;
      }
      failedSaves, lastError := failedSaves + 1, error;
    }

    /** One turn of `Wait`, for a non-zero number. */
    method CheckWait(seq': nat, cancelled: bool) returns (r: WaitResult)
      ensures r == WaitTurn(View(), seq', cancelled)
    {
      if completedSeq >= seq' { return Saved; }
      if failedSeq >= seq' && lastError != "" { return Failed(lastError); }
      if stopped { return Stopped; }
      if cancelled { return Cancelled; }
      r := Sleep;
    }
  }

  // ------------------------------------------------------ the whole system

  /** Where the worker goroutine is between locked sections; at its loop it may
      be asleep on the condition. */
  datatype Pc = AtLoop(asleep: bool) | Saving(content: Content, seq': nat, renamed: bool) | Exited

  datatype Worker = Worker(f: Fields, pc: Pc, panicked: bool, submitted: seq<Content>)

  /** A goroutine inside `Wait`: asleep on the condition, or about to look. */
  datatype Waiter = Waiter(worker: nat, seq': nat, asleep: bool, cancelled: bool, wakePending: bool)

  datatype Disk = Disk(worker: nat, seq': nat, content: Content)

  /** `workers[|workers| - 1]` is the one the engine points at. Every other
      worker ever made is kept, since callers may still hold it. The initial
      disk content belongs to no worker and carries number 0. */
  datatype System = System(workers: seq<Worker>, disk: Disk, waiters: map<nat, Waiter>)

  datatype Action =
    | EnsureWorker
    | Submit(w: nat, content: Content)
    | Doze(w: nat)
    | Take(w: nat)
    | Rename(w: nat)
    | FinishOk(w: nat)
    | FinishError(w: nat, error: string)
    | Stop(w: nat)
    | Drain(w: nat)
    | Panic(w: nat, error: string)
    | StartWait(id: nat, w: nat, seq': nat)
    | LookAgain(id: nat)
    | CancelContext(id: nat)
    | WakeCancelled(id: nat)

  const NEW_WORKER := Worker(FRESH, AtLoop(false), false, [])

  ghost predicate Init(s: System) {
    s.workers == [] && s.disk.worker == 0 && s.disk.seq' == 0 && s.waiters == map[]
  }

  ghost predicate Enabled(s: System, a: Action) {
    match a
    case EnsureWorker => true
    case Submit(w, _) => w < |s.workers| && !s.workers[w].f.stopping && !s.workers[w].f.stopped
    case Doze(w) => w < |s.workers| && s.workers[w].pc == AtLoop(false) && s.workers[w].f.pending.None?
      && !s.workers[w].f.stopping
    case Take(w) => w < |s.workers| && s.workers[w].pc == AtLoop(false) && s.workers[w].f.pending.Some?
    case Rename(w) => w < |s.workers| && s.workers[w].pc.Saving? && !s.workers[w].pc.renamed
    case FinishOk(w) => w < |s.workers| && s.workers[w].pc.Saving? && s.workers[w].pc.renamed
    case FinishError(w, _) => w < |s.workers| && s.workers[w].pc.Saving? && !s.workers[w].pc.renamed
    case Stop(w) => w < |s.workers|
    case Drain(w) => w < |s.workers| && s.workers[w].pc == AtLoop(false) && s.workers[w].f.pending.None?
      && s.workers[w].f.stopping
    case Panic(w, _) =>
      w < |s.workers| &&
      (s.workers[w].pc == AtLoop(false) || (s.workers[w].pc.Saving? && !s.workers[w].pc.renamed))
    case StartWait(id, w, seq') => id !in s.waiters && w < |s.workers| && seq' > 0
    case LookAgain(id) => id in s.waiters && !s.waiters[id].asleep && s.waiters[id].worker < |s.workers|
    case CancelContext(id) => id in s.waiters && !s.waiters[id].cancelled
    case WakeCancelled(id) => id in s.waiters && s.waiters[id].wakePending && s.waiters[id].worker < |s.workers|
  }

  function Woken(pc: Pc): Pc {
    if pc.AtLoop? then AtLoop(false) else pc
  }

  /** `cond.Broadcast()` of worker `w` wakes the worker, and these of the
      goroutines waiting for it. */
  function Broadcast(waiters: map<nat, Waiter>, w: nat): map<nat, Waiter> {
    map id | id in waiters :: if waiters[id].worker == w then waiters[id].(asleep := false) else waiters[id]
  }

  ghost function WorkerAfter(x: Worker, a: Action): Worker
    requires a.Take? ==> x.f.pending.Some?
    requires a.FinishOk? || a.FinishError? || a.Rename? ==> x.pc.Saving?
  {
    match a
    case Submit(_, c) => x.(f := Submitted(x.f, c), submitted := x.submitted + [c], pc := Woken(x.pc))
    case Doze(_) => x.(pc := AtLoop(true))
    case Take(_) => x.(f := Taken(x.f), pc := Saving(x.f.pending.value, x.f.pendingSeq, false))
    case Rename(_) => x.(pc := x.pc.(renamed := true))
    case FinishOk(_) => x.(f := SaveSucceeded(x.f, x.pc.seq'), pc := AtLoop(false))
    case FinishError(_, error) => x.(f := SaveFailed(x.f, x.pc.seq', error), pc := AtLoop(false))
    case Stop(_) => x.(f := StopRequested(x.f), pc := if x.f.stopping then x.pc else Woken(x.pc))
    case Drain(_) => x.(f := Drained(x.f), pc := Exited)
    case Panic(_, error) => x.(f := PanicRecovered(x.f, error), pc := Exited, panicked := true)
    case _ => x
  }

  ghost predicate OnWorker(a: Action) {
    a.Submit? || a.Doze? || a.Take? || a.Rename? || a.FinishOk? || a.FinishError? || a.Stop? || a.Drain? || a.Panic?
  }

  /** Going to sleep, taking a job and renaming a file wake nobody; `Stop` wakes
      only the first time. */
  ghost predicate Wakes(s: System, a: Action)
    requires Enabled(s, a) && OnWorker(a)
  {
    !a.Doze? && !a.Take? && !a.Rename? && !(a.Stop? && s.workers[a.w].f.stopping)
  }

  ghost function Apply(s: System, a: Action): System
    requires Enabled(s, a)
  {
    if OnWorker(a) then
      System(
        s.workers[a.w := WorkerAfter(s.workers[a.w], a)],
        if a.Rename? then Disk(a.w, s.workers[a.w].pc.seq', s.workers[a.w].pc.content) else s.disk,
        if Wakes(s, a) then Broadcast(s.waiters, a.w) else s.waiters)
    else match a
      case EnsureWorker =>
        if s.workers == [] || s.workers[|s.workers| - 1].f.stopped then s.(workers := s.workers + [NEW_WORKER]) else s
      case StartWait(id, w, seq') => s.(waiters := s.waiters[id := Waiter(w, seq', false, false, false)])
      case LookAgain(id) =>
        var t := s.waiters[id];
        if WaitTurn(s.workers[t.worker].f, t.seq', t.cancelled) == Sleep then
          s.(waiters := s.waiters[id := t.(asleep := true)])
        else s.(waiters := s.waiters - {id})
      case CancelContext(id) => s.(waiters := s.waiters[id := s.waiters[id].(cancelled := true, wakePending := true)])
      case WakeCancelled(id) =>
        var t := s.waiters[id];
        var x := s.workers[t.worker];
        s.(waiters := Broadcast(s.waiters[id := t.(wakePending := false)], t.worker),
           workers := s.workers[t.worker := x.(pc := Woken(x.pc))])
      case _ => s
  }

  ghost predicate Execution(states: seq<System>, actions: seq<Action>) {
    && |states| == |actions| + 1
    && Init(states[0])
    && forall i :: 0 <= i < |actions| ==>
      Enabled(states[i], actions[i]) && states[i + 1] == Apply(states[i], actions[i])
  }

  // --------------------------------------------------------------- invariant

  function Max(a: nat, b: nat): nat { if a >= b then a else b }

  /** The newest number the worker still knows about. */
  function Newest(f: Fields): nat {
    Max(Max(f.pendingSeq, f.inFlightSeq), Max(f.completedSeq, f.failedSeq))
  }

  ghost predicate Numbered(x: Worker) {
    var f := x.f;
    && |x.submitted| == f.acceptedSeq
    && f.completedSeq <= f.acceptedSeq && f.failedSeq <= f.acceptedSeq
    && (f.pending.Some? ==>
          f.pendingSeq == f.acceptedSeq > 0 && f.pending.value == x.submitted[f.pendingSeq - 1]
          && f.inFlightSeq < f.pendingSeq && f.completedSeq < f.pendingSeq && f.failedSeq < f.pendingSeq)
    && (f.pending.None? ==> f.pendingSeq == 0)
    && (f.saving ==>
          0 < f.inFlightSeq <= f.acceptedSeq && f.completedSeq < f.inFlightSeq && f.failedSeq < f.inFlightSeq)
    && (!f.saving ==> f.inFlightSeq == 0)
    && (f.failedSeq == f.completedSeq ==> f.failedSeq == 0)
  }

  ghost predicate Located(x: Worker) {
    var f := x.f;
    && (f.saving <==> x.pc.Saving?)
    && (x.pc.Saving? ==>
          && x.pc.seq' == f.inFlightSeq && 0 < x.pc.seq' <= |x.submitted|
          && x.pc.content == x.submitted[x.pc.seq' - 1])
    && (f.stopped <==> x.pc == Exited)
    && (x.pc == AtLoop(true) ==> f.pending.None? && !f.stopping)
    && (f.stopped ==> f.stopping && f.pending.None?)
    && (!x.panicked ==> f.acceptedSeq == Newest(f))
    && (x.panicked ==> f.stopped)
  }

  ghost predicate WorkerOk(x: Worker) {
    Numbered(x) && Located(x)
  }

  /** Only the newest worker can still be running. */
  ghost predicate OneRunning(s: System) {
    forall i :: 0 <= i < |s.workers| - 1 ==> s.workers[i].f.stopped
  }

  /** The disk holds the last snapshot renamed into place, by number and by
      content, and nothing newer was ever reported complete. */
  ghost predicate DiskCurrent(s: System) {
    && (s.disk.seq' > 0 ==>
          && s.disk.worker < |s.workers|
          && s.disk.seq' <= |s.workers[s.disk.worker].submitted|
          && s.disk.content == s.workers[s.disk.worker].submitted[s.disk.seq' - 1]
          && s.disk.seq' == DiskSeq(s.workers[s.disk.worker]))
    && (s.disk.seq' == 0 ==> s.disk.worker == 0)
    && forall i :: 0 <= i < |s.workers| && (i > s.disk.worker || s.disk.seq' == 0) ==> DiskSeq(s.workers[i]) == 0
  }

  ghost function DiskSeq(x: Worker): nat {
    if x.pc.Saving? && x.pc.renamed then x.pc.seq' else x.f.completedSeq
  }

  /** A sleeping waiter would sleep again, unless its own wake-up is on its way. */
  ghost predicate NoLostWakeup(s: System, id: nat)
    requires id in s.waiters
  {
    var t := s.waiters[id];
    && t.worker < |s.workers| && t.seq' > 0
    && (t.asleep ==> WaitTurn(s.workers[t.worker].f, t.seq', t.cancelled && !t.wakePending) == Sleep)
    && (t.wakePending ==> t.cancelled)
  }

  ghost predicate Inv(s: System) {
    && (forall i :: 0 <= i < |s.workers| ==> WorkerOk(s.workers[i]))
    && OneRunning(s)
    && DiskCurrent(s)
    && (forall id :: id in s.waiters ==> NoLostWakeup(s, id))
  }

  lemma WorkerStep(s: System, a: Action)
    requires Enabled(s, a) && OnWorker(a) && WorkerOk(s.workers[a.w])
    ensures WorkerOk(WorkerAfter(s.workers[a.w], a))
  {}

  /** What no step takes back, worker by worker. */
  ghost predicate Grows(x: Worker, y: Worker) {
    && x.f.acceptedSeq <= y.f.acceptedSeq
    && x.f.completedSeq <= y.f.completedSeq
    && x.f.failedSeq <= y.f.failedSeq
    && x.submitted <= y.submitted
    && (x.f.stopping ==> y.f.stopping) && (x.f.stopped ==> y.f.stopped)
  }

  /** The disk moves only to a later worker, or to a later number of the same. */
  ghost predicate DiskGrows(d: Disk, e: Disk) {
    d == e || d.worker < e.worker || (d.worker == e.worker && d.seq' < e.seq')
  }

  lemma OnlyRenameMovesDiskSeq(s: System, a: Action)
    requires Enabled(s, a) && OnWorker(a) && WorkerOk(s.workers[a.w])
    ensures
      var x := s.workers[a.w];
      && DiskSeq(WorkerAfter(x, a)) == (if a.Rename? then x.pc.seq' else DiskSeq(x))
      && (a.Rename? ==> x.pc.seq' > DiskSeq(x))
  {
    hide Newest;
  }

  lemma RenameKeepsDisk(s: System, w: nat)
    requires Inv(s) && Enabled(s, Rename(w))
    ensures DiskCurrent(Apply(s, Rename(w))) && DiskGrows(s.disk, Apply(s, Rename(w)).disk)
  {
    hide NoLostWakeup, Newest;
    var x := s.workers[w];
    OnlyRenameMovesDiskSeq(s, Rename(w));
    assert WorkerOk(x) && !x.f.stopped;
    assert w == |s.workers| - 1;
  }

  lemma SameDisk(s: System, t: System)
    requires DiskCurrent(s) && t.disk == s.disk && |s.workers| == |t.workers|
    requires forall i :: 0 <= i < |s.workers| ==>
      DiskSeq(t.workers[i]) == DiskSeq(s.workers[i]) && s.workers[i].submitted <= t.workers[i].submitted
    ensures DiskCurrent(t)
  {
    hide DiskSeq;
  }

  lemma StepKeepsDisk(s: System, a: Action)
    requires Inv(s) && Enabled(s, a) && OnWorker(a)
    ensures DiskCurrent(Apply(s, a)) && DiskGrows(s.disk, Apply(s, a).disk)
  {
    hide NoLostWakeup, DiskCurrent, WorkerAfter, DiskSeq, WorkerOk;
    if a.Rename? {
      RenameKeepsDisk(s, a.w);
    } else {
      OnlyRenameMovesDiskSeq(s, a);
      WorkerGrows(s, a);
      SameDisk(s, Apply(s, a));
    }
  }

  lemma WorkerStepKeepsWaiters(s: System, a: Action, id: nat)
    requires Enabled(s, a) && OnWorker(a) && id in s.waiters && NoLostWakeup(s, id)
    ensures NoLostWakeup(Apply(s, a), id)
  {
    hide WaitTurn, WorkerAfter;
    var t := s.waiters[id];
    if t.worker == a.w && !Wakes(s, a) {
      SilentForWaiters(s, a, t.seq', t.cancelled && !t.wakePending);
    }
  }

  /** A step that wakes nobody changes nothing a waiter looks at. */
  lemma SilentForWaiters(s: System, a: Action, seq': nat, cancelled: bool)
    requires Enabled(s, a) && OnWorker(a) && !Wakes(s, a)
    ensures WaitTurn(WorkerAfter(s.workers[a.w], a).f, seq', cancelled) == WaitTurn(s.workers[a.w].f, seq', cancelled)
  {}

  lemma OtherStepKeepsWaiters(s: System, a: Action, id: nat)
    requires Inv(s) && Enabled(s, a) && !OnWorker(a) && id in Apply(s, a).waiters
    ensures NoLostWakeup(Apply(s, a), id)
  {
    hide WorkerOk, DiskCurrent, OneRunning;
    if id in s.waiters { assert NoLostWakeup(s, id); }
  }

  lemma InvStepOnWorker(s: System, a: Action)
    requires Inv(s) && Enabled(s, a) && OnWorker(a)
    ensures Inv(Apply(s, a))
    ensures Grows(s.workers[a.w], Apply(s, a).workers[a.w])
  {
    hide NoLostWakeup, WorkerOk, DiskCurrent, WorkerAfter;
    var s' := Apply(s, a);
    forall id | id in s'.waiters ensures NoLostWakeup(s', id) { WorkerStepKeepsWaiters(s, a, id); }
    WorkerStep(s, a);
    WorkerGrows(s, a);
    StepKeepsDisk(s, a);
  }

  lemma WorkerGrows(s: System, a: Action)
    requires Enabled(s, a) && OnWorker(a) && WorkerOk(s.workers[a.w])
    ensures Grows(s.workers[a.w], WorkerAfter(s.workers[a.w], a))
  {}

  lemma InvStepElsewhere(s: System, a: Action)
    requires Inv(s) && Enabled(s, a) && !OnWorker(a)
    ensures Inv(Apply(s, a)) && SystemGrows(s, Apply(s, a))
  {
    hide NoLostWakeup, WorkerOk, DiskCurrent, DiskSeq, WaitTurn;
    var s' := Apply(s, a);
    forall id | id in s'.waiters ensures NoLostWakeup(s', id) { OtherStepKeepsWaiters(s, a, id); }
    forall w | 0 <= w < |s'.workers| ensures WorkerOk(s'.workers[w]) { OtherStepKeepsWorker(s, a, w); }
    OtherStepKeepsDisk(s, a);
  }

  /** Other steps wake a worker at most, or make a new one. */
  lemma OtherStepKeepsWorker(s: System, a: Action, w: nat)
    requires Inv(s) && Enabled(s, a) && !OnWorker(a) && w < |Apply(s, a).workers|
    ensures WorkerOk(Apply(s, a).workers[w])
    ensures DiskSeq(Apply(s, a).workers[w]) == if w < |s.workers| then DiskSeq(s.workers[w]) else 0
  {
    hide NoLostWakeup, DiskCurrent;
    if w < |s.workers| { assert WorkerOk(s.workers[w]); } else { FreshWorkerOk(); }
  }

  lemma OtherStepKeepsDisk(s: System, a: Action)
    requires Inv(s) && Enabled(s, a) && !OnWorker(a)
    ensures DiskCurrent(Apply(s, a))
  {
    hide NoLostWakeup, WorkerOk, DiskSeq;
    forall w | 0 <= w < |Apply(s, a).workers|
      ensures DiskSeq(Apply(s, a).workers[w]) == if w < |s.workers| then DiskSeq(s.workers[w]) else 0
    {
      OtherStepKeepsWorker(s, a, w);
    }
  }

  lemma FreshWorkerOk()
    ensures WorkerOk(NEW_WORKER) && DiskSeq(NEW_WORKER) == 0
  {}

  /** What no run takes back: workers only gain, the disk only moves on. */
  ghost predicate SystemGrows(s: System, t: System) {
    && |s.workers| <= |t.workers|
    && (forall w :: 0 <= w < |s.workers| ==> Grows(s.workers[w], t.workers[w]))
    && DiskGrows(s.disk, t.disk)
  }

  lemma SystemGrowsTransitive(s: System, t: System, u: System)
    requires SystemGrows(s, t) && SystemGrows(t, u)
    ensures SystemGrows(s, u)
  {
    forall w | 0 <= w < |s.workers| ensures Grows(s.workers[w], u.workers[w]) {}
  }

  lemma SystemGrowsReflexive(s: System)
    ensures SystemGrows(s, s)
  {}

  lemma InvStep(s: System, a: Action)
    requires Inv(s) && Enabled(s, a)
    ensures Inv(Apply(s, a)) && SystemGrows(s, Apply(s, a))
  {
    hide Inv, WorkerAfter, Grows, DiskGrows;
    if OnWorker(a) {
      InvStepOnWorker(s, a);
      StepKeepsDisk(s, a);
      OthersUnmoved(s, a);
    } else {
      InvStepElsewhere(s, a);
    }
  }

  lemma OthersUnmoved(s: System, a: Action)
    requires Enabled(s, a) && OnWorker(a) && Grows(s.workers[a.w], Apply(s, a).workers[a.w])
    requires DiskGrows(s.disk, Apply(s, a).disk)
    ensures SystemGrows(s, Apply(s, a))
  {
    hide WorkerAfter, DiskGrows;
  }

  /** Safety over all runs, whatever the interleaving. */
  lemma Safety(states: seq<System>, actions: seq<Action>)
    requires Execution(states, actions)
    ensures forall k :: 0 <= k < |states| ==> Inv(states[k])
  {
    assert Inv(states[0]);
    hide Inv, Apply;
    for k := 0 to |actions|
      invariant forall j :: 0 <= j <= k ==> Inv(states[j])
    {
      InvStep(states[k], actions[k]);
    }
  }

  lemma Monotone(states: seq<System>, actions: seq<Action>, i: nat)
    requires Execution(states, actions) && i < |states|
    ensures forall j :: i <= j < |states| ==> SystemGrows(states[i], states[j])
  {
    hide Inv, Apply, SystemGrows;
    Safety(states, actions);
    SystemGrowsReflexive(states[i]);
    for k := i to |actions|
      invariant forall j :: i <= j <= k ==> SystemGrows(states[i], states[j])
    {
      InvStep(states[k], actions[k]);
      SystemGrowsTransitive(states[i], states[k], states[k + 1]);
    }
  }

  // ------------------------------------------------------------ main results

  /** `Wait` returning nil means a snapshot numbered at least `seq'` is on
      disk, unless a later worker has already put its own there. */
  lemma WaitNilMeansSaved(states: seq<System>, actions: seq<Action>, k: nat, id: nat)
    requires Execution(states, actions) && k < |actions| && actions[k] == LookAgain(id)
    requires
      var t := states[k].waiters[id];
      WaitTurn(states[k].workers[t.worker].f, t.seq', t.cancelled) == Saved
    ensures
      var t, disk := states[k].waiters[id], states[k].disk;
      && disk.worker < |states[k].workers|
      && 0 < disk.seq' <= |states[k].workers[disk.worker].submitted|
      && disk.content == states[k].workers[disk.worker].submitted[disk.seq' - 1]
      && (t.worker < disk.worker || (t.worker == disk.worker && t.seq' <= disk.seq'))
  {
    Safety(states, actions);
    var s := states[k];
    assert NoLostWakeup(s, id);
    var x := s.workers[s.waiters[id].worker];
    assert WorkerOk(x) && DiskSeq(x) > 0;
  }

  /** The newest save failed with an error that has no text. */
  ghost predicate FailedSilently(f: Fields) {
    f.failedSeq > f.completedSeq && f.lastError == ""
  }

  /** Barring a panic nothing accepted is forgotten: the newest accepted number
      is pending, being saved, saved or failed. A stopped worker, panicked or
      not, lets every wait return. An idle one lets every wait for an accepted
      number return exactly when its newest save did not fail silently. */
  lemma NothingForgotten(states: seq<System>, actions: seq<Action>, k: nat, w: nat)
    requires Execution(states, actions) && k < |states| && w < |states[k].workers|
    ensures
      var x := states[k].workers[w];
      && (!x.panicked ==> x.f.acceptedSeq == Newest(x.f))
      && (x.f.stopped ==> forall n, cancelled :: WaitTurn(x.f, n, cancelled) != Sleep)
      && (x.pc.AtLoop? && x.f.pending.None? ==>
            ((forall n: nat :: 0 < n <= x.f.acceptedSeq ==> WaitTurn(x.f, n, false) != Sleep) <==>
              !FailedSilently(x.f)))
  {
    Safety(states, actions);
    var x := states[k].workers[w];
    assert WorkerOk(x);
    if x.pc.AtLoop? && x.f.pending.None? && FailedSilently(x.f) {
      assert WaitTurn(x.f, x.f.failedSeq, false) == Sleep;
    }
  }

  /** Every error a save returns, or a panic leaves, has a text. */
  ghost predicate ErrorsHaveText(actions: seq<Action>) {
    forall i :: 0 <= i < |actions| && (actions[i].FinishError? || actions[i].Panic?) ==> actions[i].error != ""
  }

  ghost predicate NoSilentFailure(s: System) {
    forall w :: 0 <= w < |s.workers| ==> !FailedSilently(s.workers[w].f)
  }

  lemma NoSilentStep(s: System, a: Action)
    requires Inv(s) && Enabled(s, a) && NoSilentFailure(s)
    requires a.FinishError? || a.Panic? ==> a.error != ""
    ensures NoSilentFailure(Apply(s, a))
  {
    hide NoLostWakeup, DiskCurrent, OneRunning, WorkerAfter, WorkerOk;
    if OnWorker(a) {
      assert WorkerOk(s.workers[a.w]) && !FailedSilently(s.workers[a.w].f);
      NotSilentAfter(s, a);
    }
  }

  lemma NotSilentAfter(s: System, a: Action)
    requires Enabled(s, a) && OnWorker(a) && WorkerOk(s.workers[a.w]) && !FailedSilently(s.workers[a.w].f)
    requires a.FinishError? || a.Panic? ==> a.error != ""
    ensures !FailedSilently(WorkerAfter(s.workers[a.w], a).f)
  {
    hide Newest;
  }

  lemma NeverSilent(states: seq<System>, actions: seq<Action>)
    requires Execution(states, actions) && ErrorsHaveText(actions)
    ensures forall k :: 0 <= k < |states| ==> NoSilentFailure(states[k])
  {
    hide Inv, Apply;
    Safety(states, actions);
    assert NoSilentFailure(states[0]);
    hide NoSilentFailure;
    for k := 0 to |actions|
      invariant forall j :: 0 <= j <= k ==> NoSilentFailure(states[j])
    {
      NoSilentStep(states[k], actions[k]);
    }
  }

  ghost predicate WorkerMoves(s: System, w: nat) {
    exists a :: Enabled(s, a) && (a.Take? || a.Drain? || a.Rename? || a.FinishOk?) && a.w == w
  }

  /** The worker misses no wake-up of its own: it sleeps only while there is
      nothing to save and no stop requested, and with either it can go on by
      itself until it is done. */
  lemma WorkerNeverOversleeps(states: seq<System>, actions: seq<Action>, k: nat, w: nat)
    requires Execution(states, actions) && k < |states| && w < |states[k].workers|
    ensures
      var x := states[k].workers[w];
      && (x.pc == AtLoop(true) ==> x.f.pending.None? && !x.f.stopping)
      && (x.f.pending.Some? || x.f.saving || (x.f.stopping && !x.f.stopped) ==> WorkerMoves(states[k], w))
  {
    Safety(states, actions);
    var s, x := states[k], states[k].workers[w];
    assert WorkerOk(x);
    if x.f.pending.Some? || x.f.saving || (x.f.stopping && !x.f.stopped) {
      var a := match x.pc
        case AtLoop(_) => if x.f.pending.Some? then Take(w) else Drain(w)
        case Saving(_, _, renamed) => if renamed then FinishOk(w) else Rename(w)
        case Exited => EnsureWorker;
      assert Enabled(s, a) && !a.EnsureWorker?;
    }
  }

  /** In every run whose errors have texts, a waiter for an accepted number that
      sleeps, and has no wake-up on its way, waits for a worker that still has
      that work in hand and can go on with it. */
  lemma NoWaiterStuck(states: seq<System>, actions: seq<Action>, k: nat, id: nat)
    requires Execution(states, actions) && ErrorsHaveText(actions) && k < |states| && id in states[k].waiters
    requires
      var t := states[k].waiters[id];
      t.asleep && !t.wakePending && t.worker < |states[k].workers|
        && t.seq' <= states[k].workers[t.worker].f.acceptedSeq
    ensures
      var x := states[k].workers[states[k].waiters[id].worker];
      && !x.f.stopped && (x.pc.Saving? || x.f.pending.Some?)
      && WorkerMoves(states[k], states[k].waiters[id].worker)
  {
    NeverSilent(states, actions);
    WorkerNeverOversleeps(states, actions, k, states[k].waiters[id].worker);
    hide WorkerMoves, Newest;
    Safety(states, actions);
    var s := states[k];
    assert NoLostWakeup(s, id) && !FailedSilently(s.workers[s.waiters[id].worker].f);
    assert WorkerOk(s.workers[s.waiters[id].worker]);
  }

  /** The only worker has nothing to do and failed silently, and a waiter for
      the number it last accepted goes to sleep. */
  ghost predicate Stuck(s: System) {
    && |s.workers| == 1
    && var x := s.workers[0];
    && FailedSilently(x.f) && x.pc.AtLoop? && x.f.pending.None? && x.f.acceptedSeq > 0
    && WaitTurn(x.f, x.f.acceptedSeq, false) == Sleep
  }

  /** One failed save whose error has no text leaves a worker idle whose waiter
      would sleep on. */
  lemma SilentFailure()
    ensures exists states, actions :: Execution(states, actions) && Stuck(states[|actions|])
  {
    hide Apply, Enabled, WorkerAfter, WaitTurn;
    var d := Disk(0, 0, map[]);
    SilentWorkers(d);
    var x1, x2, x3 :| SilentRun(d, x1, x2, x3);
    var actions := [EnsureWorker, Submit(0, map[]), Take(0), FinishError(0, "")];
    var states := [System([], d, map[]), System([NEW_WORKER], d, map[]), System([x1], d, map[]), System([x2], d, map[]),
                   System([x3], d, map[])];
    FirstWorker(d);
    LoneWorkerStep(NEW_WORKER, d, actions[1]);
    LoneWorkerStep(x1, d, actions[2]);
    LoneWorkerStep(x2, d, actions[3]);
    assert Execution(states, actions) && Stuck(states[|actions|]);
  }

  /** A worker given a job, saving it, and back without an error text. */
  ghost predicate SilentRun(d: Disk, x1: Worker, x2: Worker, x3: Worker) {
    && Enabled(System([NEW_WORKER], d, map[]), Submit(0, map[])) && x1 == WorkerAfter(NEW_WORKER, Submit(0, map[]))
    && Enabled(System([x1], d, map[]), Take(0)) && x2 == WorkerAfter(x1, Take(0))
    && Enabled(System([x2], d, map[]), FinishError(0, "")) && x3 == WorkerAfter(x2, FinishError(0, ""))
    && Stuck(System([x3], d, map[]))
  }

  lemma SilentWorkers(d: Disk)
    ensures exists x1, x2, x3 :: SilentRun(d, x1, x2, x3)
  {
    var x1 := WorkerAfter(NEW_WORKER, Submit(0, map[]));
    var x2 := WorkerAfter(x1, Take(0));
    assert SilentRun(d, x1, x2, WorkerAfter(x2, FinishError(0, "")));
  }

  lemma FirstWorker(d: Disk)
    ensures Enabled(System([], d, map[]), EnsureWorker)
    ensures Apply(System([], d, map[]), EnsureWorker) == System([NEW_WORKER], d, map[])
  {}

  lemma LoneWorkerStep(x: Worker, d: Disk, a: Action)
    requires a.Submit? || a.Take? || a.FinishError?
    requires a.w == 0 && Enabled(System([x], d, map[]), a)
    ensures Apply(System([x], d, map[]), a) == System([WorkerAfter(x, a)], d, map[])
  {}

  /** A normal stop drains: the last accepted snapshot has been saved or has
      failed to save by the time the worker is done. */
  lemma StopDrains(states: seq<System>, actions: seq<Action>, k: nat, w: nat)
    requires Execution(states, actions) && k < |states| && w < |states[k].workers|
    requires states[k].workers[w].pc == Exited && !states[k].workers[w].panicked
    ensures
      var f := states[k].workers[w].f;
      f.acceptedSeq == Max(f.completedSeq, f.failedSeq)
  {
    Safety(states, actions);
    assert WorkerOk(states[k].workers[w]);
  }

  /** Two saves never overlap, across all workers the engine ever made. */
  lemma SavesNeverOverlap(states: seq<System>, actions: seq<Action>, k: nat, v: nat, w: nat)
    requires Execution(states, actions) && k < |states|
    requires v < |states[k].workers| && w < |states[k].workers|
    requires states[k].workers[v].pc.Saving? && states[k].workers[w].pc.Saving?
    ensures v == w
  {
    Safety(states, actions);
    assert WorkerOk(states[k].workers[v]) && WorkerOk(states[k].workers[w]);
  }

  /** Whenever a sleeper's condition has come true, it has been woken. */
  lemma SleepersHaveReason(states: seq<System>, actions: seq<Action>, k: nat, id: nat)
    requires Execution(states, actions) && k < |states| && id in states[k].waiters && states[k].waiters[id].asleep
    ensures
      var t := states[k].waiters[id];
      t.worker < |states[k].workers| &&
      (t.wakePending || WaitTurn(states[k].workers[t.worker].f, t.seq', t.cancelled) == Sleep)
  {
    Safety(states, actions);
    assert NoLostWakeup(states[k], id);
  }
}
