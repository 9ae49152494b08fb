/** Optimistic publication of entity artifacts
    (pkg/engine/entity_artifact_publish.go). Plans are staged from unlocked
    reads of the live files and published under a lease that is granted only
    if no other publication happened since the generation was sampled. */
module OptimisticPublish {
  import opened Wrappers

  const MAX_ATTEMPTS := 3

  /** One file published (`Some`) or deleted (`None`). */
  datatype Write<K, V> = Write(key: K, value: Option<V>)

  /** `mutates` is false when the plan has neither a web nor an entity batch. */
  datatype Plan<K, V> = Plan(writes: seq<Write<K, V>>, mutates: bool)

  ghost predicate WellFormed<K, V>(p: Plan<K, V>) {
    p.mutates || p.writes == []
  }

  function ApplyWrite<K, V>(live: map<K, V>, w: Write<K, V>): map<K, V> {
    if w.value.Some? then live[w.key := w.value.value] else live - {w.key}
  }

  function ApplyWrites<K, V>(live: map<K, V>, ws: seq<Write<K, V>>): map<K, V> {
    if ws == [] then live else ApplyWrite(ApplyWrites(live, ws[..|ws| - 1]), ws[|ws| - 1])
  }

  function ReadKey<K, V>(live: map<K, V>, k: K): Option<V> {
    if k in live then Some(live[k]) else None
  }

  /** One unlocked read made while staging, with what it returned: a file's
      content, or the names of the files of one directory. */
  datatype Observation<!K, V> = FileRead(key: K, value: Option<V>) | Listed(dir: iset<K>, keys: set<K>)

  ghost function FilesIn<K, V>(live: map<K, V>, dir: iset<K>): set<K> {
    set k | k in live && k in dir
  }

  ghost predicate StillTrue<K, V>(o: Observation<K, V>, live: map<K, V>) {
    match o
    case FileRead(key, value) => value == ReadKey(live, key)
    case Listed(dir, keys) => keys == FilesIn(live, dir)
  }

  /** Everything read while staging is what `live` holds. */
  ghost predicate Agrees<K, V>(seen: seq<Observation<K, V>>, live: map<K, V>) {
    forall i :: 0 <= i < |seen| ==> StillTrue(seen[i], live)
  }

  // ------------------------------------------------- one publication at a time

  datatype PublishResult = Published | Stale | Failed

  /** What the surroundings do to one publication. */
  datatype Weather = Weather(cancelled: bool, failAfter: Option<nat>, syncFails: bool)

  class Lease<K(==), V> {
    const engine: Engine<K, V>
    var released: bool

    constructor (e: Engine<K, V>)
      ensures engine == e && !released
    {
      engine, released := e, false;
    }

    /** `release`: only the first call bumps the generation and unlocks. */
    method Release(mutatesLive: bool)
      requires !released ==> engine.publishLocked
      modifies this, engine`publishLocked, engine`generation, engine`unlocks
      ensures released
      ensures old(released) ==> engine.publishLocked == old(engine.publishLocked) &&
                                engine.generation == old(engine.generation) && engine.unlocks == old(engine.unlocks)
      ensures !old(released) ==> !engine.publishLocked && engine.unlocks == old(engine.unlocks) + 1 &&
                                 engine.generation == old(engine.generation) + if mutatesLive then 1 else 0
    {
      if released {
        return;
      }
      released := true;
      if mutatesLive {
        engine.generation := engine.generation + 1;
      }
      engine.publishLocked, engine.unlocks := false, engine.unlocks + 1;
    }
  }

  class Engine<K(==), V> {
    var live: map<K, V>
    var generation: nat
    var publishLocked: bool
    var unlocks: nat

    constructor (files: map<K, V>)
      ensures live == files && generation == 0 && !publishLocked && unlocks == 0
    {
      live, generation, publishLocked, unlocks := files, 0, false, 0;
    }

    /** `acquireEntityArtifactPublishLease`, once the mutex is free. */
    method Acquire(expected: nat) returns (lease: Option<Lease<K, V>>)
      requires !publishLocked
      modifies this`publishLocked, this`generation, this`unlocks
      ensures generation == old(generation)
      ensures lease.Some? <==> generation == expected
      ensures lease.Some? ==> fresh(lease.value) && lease.value.engine == this && !lease.value.released
      ensures lease.Some? ==> publishLocked && unlocks == old(unlocks)
      ensures lease.None? ==> !publishLocked && unlocks == old(unlocks) + 1
    {
      publishLocked := true;
      var l := new Lease(this);
      if generation != expected {
        l.Release(false);
        return None;
      }
      lease := Some(l);
    }

    /** Renames and deletes the staged files one by one, up to a failure. */
    method PublishFiles(writes: seq<Write<K, V>>, failAfter: Option<nat>) returns (ok: bool)
      modifies this`live
      ensures ok <==> failAfter.None? || failAfter.value >= |writes|
      ensures live == ApplyWrites(old(live), if ok then writes else writes[..failAfter.value])
    {
      for i := 0 to |writes|
        invariant live == ApplyWrites(old(live), writes[..i])
        invariant failAfter.Some? ==> i <= failAfter.value
      {
        if failAfter.Some? && failAfter.value == i {
          return false;
        }
        live := ApplyWrite(live, writes[i]);
        assert writes[..i + 1][..i] == writes[..i];
      }
      assert writes[..|writes|] == writes;
      ok := true;
    }

    /** `publishEntityArtifactMutationPlan`: a stale or cancelled plan leaves
        no trace, a failed one leaves a prefix of its writes and a bumped
        generation, and the lease taken is unlocked exactly once. */
    method PublishPlan(expected: nat, plan: Plan<K, V>, weather: Weather) returns (r: PublishResult)
      requires !publishLocked && WellFormed(plan)
      modifies this
      ensures !publishLocked
      ensures unlocks == old(unlocks) + if weather.cancelled then 0 else 1
      ensures r == Stale <==> !weather.cancelled && old(generation) != expected
      ensures r == Published ==> live == ApplyWrites(old(live), plan.writes) && old(generation) == expected
      ensures generation == old(generation) ==> live == old(live)
      ensures generation
           == old(generation) + if !weather.cancelled && old(generation) == expected && plan.mutates then 1 else 0
      ensures exists n: nat :: n <= |plan.writes| && live == ApplyWrites(old(live), plan.writes[..n])
    {
      assert plan.writes[..0] == [] && plan.writes[..|plan.writes|] == plan.writes;
      assert live == ApplyWrites(old(live), plan.writes[..0]);
      if weather.cancelled {
        return Failed;
      }
      var acquired := Acquire(expected);
      if acquired.None? {
        return Stale;
      }
      var lease := acquired.value;
      var ok := PublishFiles(plan.writes, weather.failAfter);
      if !ok {
        lease.Release(plan.mutates);
        return Failed;
      }
      assert live == ApplyWrites(old(live), plan.writes[..|plan.writes|]);
      lease.Release(plan.mutates);
      r := if weather.syncFails then Failed else Published;
      lease.Release(plan.mutates);
    }
  }

  // ------------------------------------------------------- all interleavings

  datatype Outcome = Committed | Nothing | Rejected | OutOfAttempts

  /** A mutator inside `runOptimisticEntityArtifactMutation`. */
  datatype Phase<!K, V> =
    | Starting(attempt: nat)
    | Staging(attempt: nat, expected: nat, seen: seq<Observation<K, V>>)
    | Staged(attempt: nat, expected: nat, seen: seq<Observation<K, V>>, plan: Plan<K, V>)
    | Publishing(seen: seq<Observation<K, V>>, plan: Plan<K, V>, done: nat)
    | Syncing
    | Finished(outcome: Outcome)

  /** The lease of the current attempt, counting what `release` did. */
  datatype Held = NoLease | Leased(released: bool, unlocks: nat)

  datatype Mutator<!K, V> = Mutator(phase: Phase<K, V>, lease: Held)

  /** One lease's publication: what its owner had read, and what it wrote. */
  datatype Entry<!K, V> = Entry(seen: seq<Observation<K, V>>, plan: Plan<K, V>, applied: seq<Write<K, V>>)

  /** `bumps[g]` is the mutator that moved the generation from g to g + 1. */
  datatype System<!K, V> = System(
    live: map<K, V>,
    bumps: seq<nat>,
    holder: Option<nat>,
    mutators: map<nat, Mutator<K, V>>,
    log: seq<Entry<K, V>>)

  datatype Action<!K, V> =
    | Join(id: nat)
    | Sample(id: nat)
    | Read(id: nat, key: K)
    | List(id: nat, dir: iset<K>)
    | FinishStage(id: nat, plan: Plan<K, V>)
    | GiveUp(id: nat, outcome: Outcome)
    | Acquire(id: nat)
    | AcquirePanics(id: nat)
    | WriteFile(id: nat)
    | PublishFails(id: nat)
    | PublishEnds(id: nat)
    | SyncEnds(id: nat, outcome: Outcome)

  ghost predicate Init<K, V>(s: System<K, V>) {
    s.bumps == [] && s.holder.None? && s.mutators == map[] && s.log == []
  }

  ghost predicate Enabled<K, V>(s: System<K, V>, a: Action<K, V>) {
    if a.Join? || a.id !in s.mutators then a.Join? && a.id !in s.mutators
    else
      var m := s.mutators[a.id].phase;
      match a
      case Join(_) => false
      case Sample(_) => m.Starting? && m.attempt <= MAX_ATTEMPTS
      case Read(_, _) => m.Staging?
      case List(_, _) => m.Staging?
      case FinishStage(_, plan) => m.Staging? && WellFormed(plan)
      case GiveUp(_, outcome) =>
        (outcome == Rejected && (m.Starting? || m.Staging? || m.Staged?)) || (outcome == Nothing && m.Staging?)
      case Acquire(_) => m.Staged? && s.holder.None?
      case AcquirePanics(_) => m.Staged? && s.holder.None?
      case WriteFile(_) => m.Publishing? && m.done < |m.plan.writes|
      case PublishFails(_) => m.Publishing? && m.done <= |m.plan.writes|
      case PublishEnds(_) => m.Publishing? && m.done == |m.plan.writes|
      case SyncEnds(_, outcome) => m.Syncing? && (outcome == Committed || outcome == Rejected)
  }

  function Release(l: Held): Held {
    if l.Leased? && !l.released then Leased(true, l.unlocks + 1) else l
  }

  /** Ends the publication of `id`: the entry is logged, the generation moves
      if the plan mutates, and the lease is released. */
  ghost function EndPublication<K, V>(s: System<K, V>, id: nat, next: Phase<K, V>): System<K, V>
    requires id in s.mutators && s.mutators[id].phase.Publishing?
    requires s.mutators[id].phase.done <= |s.mutators[id].phase.plan.writes|
  {
    var m := s.mutators[id];
    s.(holder := None,
       bumps := if m.phase.plan.mutates then s.bumps + [id] else s.bumps,
       log := s.log + [Entry(m.phase.seen, m.phase.plan, m.phase.plan.writes[..m.phase.done])],
       mutators := s.mutators[id := Mutator(next, Release(m.lease))])
  }

  /** After a stale lease the loop goes round again, or is exhausted. */
  function Retry<K, V>(attempt: nat): Phase<K, V> {
    if attempt < MAX_ATTEMPTS then Starting(attempt + 1) else Finished(OutOfAttempts)
  }

  ghost function Apply<K, V>(s: System<K, V>, a: Action<K, V>): System<K, V>
    requires Enabled(s, a)
  {
    if a.Join? then s.(mutators := s.mutators[a.id := Mutator(Starting(1), NoLease)])
    else
      var m := s.mutators[a.id];
      var p := m.phase;
      match a
      case Join(_) => s
      case Sample(id) => s.(mutators := s.mutators[id := Mutator(Staging(p.attempt, |s.bumps|, []), NoLease)])
      case Read(id, k) =>
        s.(mutators := s.mutators[id :=
          m.(phase := Staging(p.attempt, p.expected, p.seen + [FileRead(k, ReadKey(s.live, k))]))])
      case List(id, dir) =>
        s.(mutators := s.mutators[id :=
          m.(phase := Staging(p.attempt, p.expected, p.seen + [Listed(dir, FilesIn(s.live, dir))]))])
      case FinishStage(id, plan) =>
        s.(mutators := s.mutators[id := m.(phase := Phase.Staged(p.attempt, p.expected, p.seen, plan))])
      case GiveUp(id, outcome) => s.(mutators := s.mutators[id := m.(phase := Finished(outcome))])
      case Acquire(id) =>
        if p.expected == |s.bumps| then
          s.(holder := Some(id), mutators := s.mutators[id := Mutator(Publishing(p.seen, p.plan, 0), Leased(false, 0))])
        else
          s.(mutators := s.mutators[id := Mutator(Retry(p.attempt), Release(Leased(false, 0)))])
      case AcquirePanics(id) =>
        s.(mutators := s.mutators[id := Mutator(Finished(Rejected), Release(Leased(false, 0)))])
      case WriteFile(id) =>
        s.(live := ApplyWrite(s.live, p.plan.writes[p.done]),
           mutators := s.mutators[id := m.(phase := Publishing(p.seen, p.plan, p.done + 1))])
      case PublishFails(id) => EndPublication(s, id, Finished(Rejected))
      case PublishEnds(id) => EndPublication(s, id, Syncing)
      case SyncEnds(id, outcome) => s.(mutators := s.mutators[id := Mutator(Finished(outcome), Release(m.lease))])
  }

  // --------------------------------------------------------------- invariant

  /** The live state a sequential run of the logged publications produces. */
  ghost function Replay<K, V>(start: map<K, V>, log: seq<Entry<K, V>>): map<K, V> {
    if log == [] then start
    else ApplyWrites(Replay(start, log[..|log| - 1]), log[|log| - 1].applied)
  }

  /** Every publication started from the state its predecessors left, had read
      nothing else, and wrote a prefix of its plan. */
  ghost predicate Sequential<K, V>(start: map<K, V>, log: seq<Entry<K, V>>) {
    forall i :: 0 <= i < |log| ==> Agrees(log[i].seen, Replay(start, log[..i])) && log[i].applied <= log[i].plan.writes
  }

  ghost predicate Dirty<K, V>(s: System<K, V>) {
    s.holder.Some? && s.holder.value in s.mutators && s.mutators[s.holder.value].phase.Publishing?
    && s.mutators[s.holder.value].phase.done > 0
  }

  /** What is left to write is the only difference between live and log. */
  ghost predicate LiveIsLog<K, V>(s: System<K, V>, start: map<K, V>) {
    match s.holder
    case None => s.live == Replay(start, s.log)
    case Some(id) =>
      && id in s.mutators && s.mutators[id].phase.Publishing?
      && var p := s.mutators[id].phase;
      && p.done <= |p.plan.writes|
      && s.live == ApplyWrites(Replay(start, s.log), p.plan.writes[..p.done])
      && Agrees(p.seen, Replay(start, s.log))
  }

  ghost predicate MutatorOk<K, V>(s: System<K, V>, id: nat)
    requires id in s.mutators
  {
    var m := s.mutators[id];
    var p := m.phase;
    && (p.Publishing? <==> s.holder == Some(id))
    && (p.Publishing? ==> m.lease == Leased(false, 0) && WellFormed(p.plan))
    && (!p.Publishing? ==> m.lease == NoLease || m.lease == Leased(true, 1))
    && (p.Staged? ==> WellFormed(p.plan))
    && (p.Starting? || p.Staging? || p.Staged? ==> 1 <= p.attempt <= MAX_ATTEMPTS)
    && (!p.Syncing? && !p.Finished? ==> id !in s.bumps)
    && (p.Staging? || p.Staged? ==>
          p.expected <= |s.bumps| && (p.expected == |s.bumps| && !Dirty(s) ==> Agrees(p.seen, s.live)))
  }

  ghost predicate Inv<K(!new), V(!new)>(s: System<K, V>, start: map<K, V>) {
    && Sequential(start, s.log)
    && LiveIsLog(s, start)
    && (forall id :: id in s.mutators ==> MutatorOk(s, id))
    && (forall id :: id in s.bumps ==> id in s.mutators)
  }

  ghost predicate Execution<K(!new), V(!new)>(states: seq<System<K, V>>, actions: seq<Action<K, V>>) {
    && |states| == |actions| + 1
    && Init(states[0])
    && forall i :: 0 <= i < |actions| ==>
      Enabled(states[i], actions[i]) && states[i + 1] == Apply(states[i], actions[i])
  }

  lemma PrefixGrows<K, V>(live: map<K, V>, ws: seq<Write<K, V>>, n: nat)
    requires n < |ws|
    ensures ApplyWrites(live, ws[..n + 1]) == ApplyWrite(ApplyWrites(live, ws[..n]), ws[n])
  {
    assert ws[..n + 1][..n] == ws[..n];
  }

  lemma LogGrows<K, V>(start: map<K, V>, log: seq<Entry<K, V>>, e: Entry<K, V>)
    requires Sequential(start, log) && Agrees(e.seen, Replay(start, log)) && e.applied <= e.plan.writes
    ensures Sequential(start, log + [e])
    ensures Replay(start, log + [e]) == ApplyWrites(Replay(start, log), e.applied)
  {
    hide Agrees, ApplyWrites;
    var grown := log + [e];
    assert grown[..|log|] == log;
    forall i | 0 <= i < |grown|
      ensures Agrees(grown[i].seen, Replay(start, grown[..i])) && grown[i].applied <= grown[i].plan.writes
    {
      if i < |log| { assert grown[i] == log[i] && grown[..i] == log[..i]; }
    }
  }

  lemma StepKeepsLog<K(!new), V(!new)>(s: System<K, V>, a: Action<K, V>, start: map<K, V>)
    requires Inv(s, start) && Enabled(s, a)
    ensures Sequential(start, Apply(s, a).log) && LiveIsLog(Apply(s, a), start)
  {
    hide Agrees, Sequential;
    if a.id in s.mutators {
      var p := s.mutators[a.id].phase;
      assert MutatorOk(s, a.id);
      if a.WriteFile? {
        PrefixGrows(Replay(start, s.log), p.plan.writes, p.done);
      } else if a.PublishFails? || a.PublishEnds? {
        LogGrows(start, s.log, Entry(p.seen, p.plan, p.plan.writes[..p.done]));
      } else if a.Acquire? {
        assert p.plan.writes[..0] == [];
      }
    }
  }

  lemma HolderIsKnown<K(!new), V(!new)>(s: System<K, V>, start: map<K, V>)
    requires Inv(s, start)
    ensures s.holder.Some? ==> s.holder.value in s.mutators
  {
    hide Sequential, MutatorOk, Replay, ApplyWrites, Agrees;
  }

  lemma StepKeepsActor<K(!new), V(!new)>(s: System<K, V>, a: Action<K, V>, start: map<K, V>)
    requires Inv(s, start) && Enabled(s, a)
    ensures a.id in Apply(s, a).mutators && MutatorOk(Apply(s, a), a.id)
  {
    hide Sequential, LiveIsLog;
    HolderIsKnown(s, start);
    if a.id in s.mutators { assert MutatorOk(s, a.id); }
  }

  lemma StepKeepsOther<K(!new), V(!new)>(s: System<K, V>, a: Action<K, V>, id: nat)
    requires Enabled(s, a) && id != a.id && id in s.mutators && MutatorOk(s, id)
    requires a.id in s.mutators ==> MutatorOk(s, a.id)
    requires s.holder.Some? ==> s.holder.value in s.mutators
    ensures MutatorOk(Apply(s, a), id)
  {
    hide Agrees;
  }

  lemma InvStep<K(!new), V(!new)>(s: System<K, V>, a: Action<K, V>, start: map<K, V>)
    requires Inv(s, start) && Enabled(s, a)
    ensures Inv(Apply(s, a), start)
  {
    hide MutatorOk, Sequential, LiveIsLog;
    HolderIsKnown(s, start);
    StepKeepsLog(s, a, start);
    StepKeepsActor(s, a, start);
    forall id | id in Apply(s, a).mutators ensures MutatorOk(Apply(s, a), id) {
      if id != a.id { StepKeepsOther(s, a, id); }
    }
  }

  // ------------------------------------------------------------ main results

  /** Safety over all runs, whatever the interleaving. */
  lemma Safety<K(!new), V(!new)>(states: seq<System<K, V>>, actions: seq<Action<K, V>>)
    requires Execution(states, actions)
    ensures forall k :: 0 <= k < |states| ==> Inv(states[k], states[0].live)
  {
    for k := 0 to |actions|
      invariant forall j :: 0 <= j <= k ==> Inv(states[j], states[0].live)
    {
      InvStep(states[k], actions[k], states[0].live);
    }
  }

  /** In every run, a mutator that is granted the lease staged from exactly
      the live files it is about to change. */
  lemma GrantedLeaseIsFresh<K(!new), V(!new)>(states: seq<System<K, V>>, actions: seq<Action<K, V>>, k: nat, id: nat)
    requires Execution(states, actions) && k < |actions| && actions[k] == Acquire(id)
    requires states[k].mutators[id].phase.expected == |states[k].bumps|
    ensures Agrees(states[k].mutators[id].phase.seen, states[k].live)
  {
    Safety(states, actions);
    assert MutatorOk(states[k], id);
  }

  /** In every run, a stale lease witnesses a bump by another mutator since the
      generation was sampled. */
  lemma StaleWitness<K(!new), V(!new)>(states: seq<System<K, V>>, actions: seq<Action<K, V>>, k: nat, id: nat)
    requires Execution(states, actions) && k < |actions| && actions[k] == Acquire(id)
    requires states[k].mutators[id].phase.expected != |states[k].bumps|
    ensures
      var s, sampled := states[k], states[k].mutators[id].phase.expected;
      sampled < |s.bumps| && forall g :: sampled <= g < |s.bumps| ==> s.bumps[g] != id && s.bumps[g] in s.mutators
  {
    Safety(states, actions);
    assert MutatorOk(states[k], id);
  }

  /** In every interleaving the live files are those of the publications run
      one after the other in lease order, each staged from exactly the state
      its predecessors left, failed ones contributing a prefix. */
  lemma Serializable<K(!new), V(!new)>(states: seq<System<K, V>>, actions: seq<Action<K, V>>, k: nat)
    requires Execution(states, actions) && k < |states| && states[k].holder.None?
    ensures states[k].live == Replay(states[0].live, states[k].log)
    ensures Sequential(states[0].live, states[k].log)
  {
    Safety(states, actions);
  }

  /** Every lease is unlocked exactly once, and none outlives its mutator. */
  lemma LeasesUnlockedOnce<K(!new), V(!new)>(states: seq<System<K, V>>, actions: seq<Action<K, V>>, k: nat, id: nat)
    requires Execution(states, actions) && k < |states| && id in states[k].mutators
    ensures
      var m := states[k].mutators[id];
      && (m.lease == NoLease || m.lease == Leased(false, 0) || m.lease == Leased(true, 1))
      && (m.lease == Leased(false, 0) <==> states[k].holder == Some(id))
      && (m.phase.Finished? ==> m.lease != Leased(false, 0))
  {
    Safety(states, actions);
    assert MutatorOk(states[k], id);
  }

  /** The ways out of the protocol: giving up, failing, panicking. */
  predicate Escapes<K, V>(a: Action<K, V>) {
    a.GiveUp? || a.PublishFails? || a.AcquirePanics?
  }

  /** Without any mutator giving up or failing, one that is not finished can
      take its next step, or it has its plan staged and waits for a lease
      holder that can take its own. */
  lemma NoDeadlock<K(!new), V(!new)>(states: seq<System<K, V>>, actions: seq<Action<K, V>>, k: nat, id: nat)
    requires Execution(states, actions) && k < |states|
    requires id in states[k].mutators && !states[k].mutators[id].phase.Finished?
    ensures exists a :: (
      && Enabled(states[k], a) && !Escapes(a)
      && (a.id == id || (states[k].mutators[id].phase.Staged? && states[k].holder == Some(a.id))))
  {
    Safety(states, actions);
    var s := states[k];
    assert MutatorOk(s, id);
    var mover := if s.mutators[id].phase.Staged? && s.holder.Some? then s.holder.value else id;
    assert MutatorOk(s, mover);
    var p := s.mutators[mover].phase;
    var a: Action<K, V> :=
      if p.Starting? then Sample(mover)
      else if p.Staging? then FinishStage(mover, Plan([], false))
      else if p.Staged? then Action.Acquire(mover)
      else if p.Publishing? && p.done < |p.plan.writes| then WriteFile(mover)
      else if p.Publishing? then PublishEnds(mover)
      else SyncEnds(mover, Rejected);
    assert Enabled(s, a);
  }

  /** A plan that, from any state with the same observations, keeps `good`. */
  ghost predicate Keeps<K(!new), V(!new)>(e: Entry<K, V>, good: map<K, V> -> bool) {
    forall live :: Agrees(e.seen, live) && good(live) ==> good(ApplyWrites(live, e.plan.writes))
  }

  /** A plan that establishes `good` whatever the live files were. */
  ghost predicate Establishes<K(!new), V(!new)>(e: Entry<K, V>, good: map<K, V> -> bool) {
    forall live :: Agrees(e.seen, live) ==> good(ApplyWrites(live, e.plan.writes))
  }

  ghost predicate Complete<K, V>(e: Entry<K, V>) {
    e.applied == e.plan.writes
  }

  /** A property that a complete publication establishes holds right after it. */
  lemma GoodAfterEstablishing<K(!new), V(!new)>(
    start: map<K, V>, log: seq<Entry<K, V>>, i: nat, good: map<K, V> -> bool)
    requires Sequential(start, log) && i < |log| && Complete(log[i]) && Establishes(log[i], good)
    ensures good(Replay(start, log[..i + 1]))
  {
    assert log[..i + 1][..i] == log[..i];
  }

  lemma SequentialPrefix<K, V>(start: map<K, V>, log: seq<Entry<K, V>>)
    requires Sequential(start, log) && log != []
    ensures Sequential(start, log[..|log| - 1])
  {
    hide Agrees, Replay;
    var shorter := log[..|log| - 1];
    forall i | 0 <= i < |shorter|
      ensures Agrees(shorter[i].seen, Replay(start, shorter[..i])) && shorter[i].applied <= shorter[i].plan.writes
    {
      assert shorter[i] == log[i] && shorter[..i] == log[..i];
    }
  }

  lemma GoodAfterCommit<K(!new), V(!new)>(start: map<K, V>, log: seq<Entry<K, V>>, good: map<K, V> -> bool)
    requires Sequential(start, log) && log != [] && good(Replay(start, log[..|log| - 1]))
    requires Complete(log[|log| - 1]) && Keeps(log[|log| - 1], good)
    ensures good(Replay(start, log))
  {
    hide Agrees, ApplyWrites;
    assert Agrees(log[|log| - 1].seen, Replay(start, log[..|log| - 1]));
  }

  /** A property of the live files that holds after some publications in lease
      order survives all later ones, if they are complete and keep it. */
  lemma {:induction false} GoodAfterCommits<K(!new), V(!new)>(
    start: map<K, V>, log: seq<Entry<K, V>>, from: nat, good: map<K, V> -> bool)
    requires Sequential(start, log) && from <= |log| && good(Replay(start, log[..from]))
    requires forall i :: from <= i < |log| ==> Complete(log[i]) && Keeps(log[i], good)
    ensures good(Replay(start, log))
  {
    hide Sequential, Replay, Keeps, Complete;
    if from == |log| {
      assert log[..from] == log;
    } else {
      var shorter := log[..|log| - 1];
      assert shorter[..from] == log[..from];
      SequentialPrefix(start, log);
      GoodAfterCommits(start, shorter, from, good);
      GoodAfterCommit(start, log, good);
    }
  }
}
