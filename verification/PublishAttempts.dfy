/** How a mutation ends (pkg/engine/entity_artifact_publish.go:128-153), by
    counting steps of a run: a stale lease sends it back to staging until the
    third one, and only publications by others make a lease stale. */
module PublishAttempts {
  import opened Wrappers
  import opened OptimisticPublish

  /** Step `i` refuses mutator `id` the lease: the generation has moved. */
  ghost predicate Refused<K(!new), V(!new)>(
    states: seq<System<K, V>>, actions: seq<Action<K, V>>, i: nat, id: nat)
  {
    && i < |actions| && i < |states| && actions[i] == Action.Acquire(id)
    && id in states[i].mutators && states[i].mutators[id].phase.Staged?
    && states[i].mutators[id].phase.expected != |states[i].bumps|
  }

  ghost function Refusals<K(!new), V(!new)>(
    states: seq<System<K, V>>, actions: seq<Action<K, V>>, k: nat, id: nat): nat
  {
    if k == 0 then 0
    else Refusals(states, actions, k - 1, id) + if Refused(states, actions, k - 1, id) then 1 else 0
  }

  /** The attempt a mutator is at is one more than its refusals. */
  ghost predicate Attempts<K, V>(m: Mutator<K, V>, refusals: nat) {
    match m.phase
    case Starting(attempt) => attempt == refusals + 1 <= 3
    case Staging(attempt, _, _) => attempt == refusals + 1 <= 3
    case Staged(attempt, _, _, _) => attempt == refusals + 1 <= 3
    case Finished(outcome) => refusals <= 3 && (outcome == OutOfAttempts <==> refusals == 3)
    case _ => refusals < 3
  }

  lemma AttemptsStep<K(!new), V(!new)>(s: System<K, V>, a: Action<K, V>, id: nat, refusals: nat)
    requires Enabled(s, a) && id in s.mutators && Attempts(s.mutators[id], refusals)
    ensures
      var refused := a == Action.Acquire(id) && s.mutators[id].phase.expected != |s.bumps|;
      id in Apply(s, a).mutators && Attempts(Apply(s, a).mutators[id], refusals + if refused then 1 else 0)
  {}

  lemma JoinAttempts<K(!new), V(!new)>(s: System<K, V>, a: Action<K, V>, id: nat)
    requires Enabled(s, a) && id !in s.mutators && id in Apply(s, a).mutators
    ensures a == Join(id) && Apply(s, a).mutators[id].phase == Starting(1)
  {}

  lemma {:induction false} NotYetRefused<K(!new), V(!new)>(
    states: seq<System<K, V>>, actions: seq<Action<K, V>>, k: nat, id: nat)
    requires forall i :: 0 <= i < k && i < |states| ==> id !in states[i].mutators
    ensures Refusals(states, actions, k, id) == 0
  {
    if k > 0 { NotYetRefused(states, actions, k - 1, id); }
  }

  lemma MutatorsStay<K(!new), V(!new)>(s: System<K, V>, a: Action<K, V>, id: nat)
    requires Enabled(s, a) && id in s.mutators
    ensures id in Apply(s, a).mutators
  {}

  lemma Known<K(!new), V(!new)>(states: seq<System<K, V>>, actions: seq<Action<K, V>>, i: nat, k: nat, id: nat)
    requires Execution(states, actions) && i <= k < |states| && id in states[i].mutators
    ensures id in states[k].mutators
  {
    hide Apply, Enabled;
    for j := i to k
      invariant id in states[j].mutators
    {
      MutatorsStay(states[j], actions[j], id);
    }
  }

  lemma CountedAttempts<K(!new), V(!new)>(
    states: seq<System<K, V>>, actions: seq<Action<K, V>>, k: nat, id: nat)
    requires Execution(states, actions) && k < |states| && id in states[k].mutators
    ensures Attempts(states[k].mutators[id], Refusals(states, actions, k, id))
  {
    hide Apply, Attempts;
    for j := 0 to k
      invariant id in states[j].mutators ==> Attempts(states[j].mutators[id], Refusals(states, actions, j, id))
    {
      if id in states[j].mutators {
        AttemptsStep(states[j], actions[j], id, Refusals(states, actions, j, id));
        RefusedNow(states, actions, j, id);
      } else if id in states[j + 1].mutators {
        JoinAttempts(states[j], actions[j], id);
        forall i | 0 <= i <= j ensures id !in states[i].mutators {
          if id in states[i].mutators { Known(states, actions, i, j, id); }
        }
        NotYetRefused(states, actions, j + 1, id);
        FirstAttempt(states[j + 1].mutators[id]);
      }
    }
  }

  lemma FirstAttempt<K, V>(m: Mutator<K, V>)
    requires m.phase == Starting(1)
    ensures Attempts(m, 0)
  {}

  lemma RefusedNow<K(!new), V(!new)>(states: seq<System<K, V>>, actions: seq<Action<K, V>>, i: nat, id: nat)
    requires Execution(states, actions) && i < |actions| && id in states[i].mutators
    ensures Refused(states, actions, i, id) <==>
      actions[i] == Action.Acquire(id) && states[i].mutators[id].phase.expected != |states[i].bumps|
  {
    assert Enabled(states[i], actions[i]);
    hide Apply;
  }

  // ------------------------------------------------------------ main results

  /** In every run a mutator is refused the lease three times at most, and it
      ends out of attempts exactly when it was refused three times. */
  lemma OutOfAttemptsExactlyWhen<K(!new), V(!new)>(
    states: seq<System<K, V>>, actions: seq<Action<K, V>>, k: nat, id: nat)
    requires Execution(states, actions) && k < |states| && id in states[k].mutators
    ensures Refusals(states, actions, k, id) <= 3
    ensures states[k].mutators[id].phase == Finished(OutOfAttempts) <==> Refusals(states, actions, k, id) == 3
  {
    CountedAttempts(states, actions, k, id);
  }

  /** A first or second refusal sends the mutator back to its start. */
  lemma RefusedStartsAgain<K(!new), V(!new)>(
    states: seq<System<K, V>>, actions: seq<Action<K, V>>, k: nat, id: nat)
    requires Execution(states, actions) && Refused(states, actions, k, id)
    ensures id in states[k + 1].mutators
    ensures Refusals(states, actions, k + 1, id) < 3 ==> states[k + 1].mutators[id].phase.Starting?
    ensures Refusals(states, actions, k + 1, id) >= 3 ==> states[k + 1].mutators[id].phase == Finished(OutOfAttempts)
  {
    RefusedStep(states[k], actions[k], id);
    CountedAttempts(states, actions, k + 1, id);
  }

  lemma RefusedStep<K(!new), V(!new)>(s: System<K, V>, a: Action<K, V>, id: nat)
    requires Enabled(s, a) && a == Action.Acquire(id) && s.mutators[id].phase.expected != |s.bumps|
    ensures id in Apply(s, a).mutators
    ensures Apply(s, a).mutators[id].phase.Starting? || Apply(s, a).mutators[id].phase == Finished(OutOfAttempts)
  {}

  /** Whatever the attempt, staging begins from the generation of the moment
      with nothing read, and what is read is what is live then. */
  lemma StagesFromLive<K(!new), V(!new)>(states: seq<System<K, V>>, actions: seq<Action<K, V>>, k: nat, id: nat)
    requires Execution(states, actions) && k < |actions| && actions[k].id == id && id in states[k].mutators
    ensures id in states[k + 1].mutators
    ensures
      var p, q := states[k].mutators[id].phase, states[k + 1].mutators[id].phase;
      && (actions[k].Sample? ==> q.Staging? && q.expected == |states[k].bumps| && q.seen == [])
      && (actions[k].Read? || actions[k].List? ==>
            && p.Staging? && q.Staging? && q.expected == p.expected
            && |q.seen| == |p.seen| + 1 && q.seen[..|p.seen|] == p.seen
            && StillTrue(q.seen[|p.seen|], states[k].live))
  {
    assert Enabled(states[k], actions[k]) && states[k + 1] == Apply(states[k], actions[k]);
    hide Execution;
  }

  // --------------------------------------------------------- what outcomes say

  /** How many publications of `id` ended complete, or failed. */
  ghost function Ended<K(!new), V(!new)>(actions: seq<Action<K, V>>, k: nat, id: nat, complete: bool): nat
    requires k <= |actions|
  {
    if k == 0 then 0
    else
      Ended(actions, k - 1, id, complete)
      + if actions[k - 1] == (if complete then PublishEnds(id) else PublishFails(id)) then 1 else 0
  }

  ghost predicate OutcomeIs<K, V>(m: Mutator<K, V>, complete: nat, failed: nat) {
    match m.phase
    case Syncing => complete == 1 && failed == 0
    case Finished(outcome) =>
      && complete + failed <= 1
      && (outcome == Committed ==> complete == 1)
      && (outcome == Nothing || outcome == OutOfAttempts ==> complete + failed == 0)
    case _ => complete + failed == 0
  }

  lemma OutcomeStep<K(!new), V(!new)>(s: System<K, V>, a: Action<K, V>, id: nat, complete: nat, failed: nat)
    requires Enabled(s, a) && (id in s.mutators ==> OutcomeIs(s.mutators[id], complete, failed))
    requires id !in s.mutators ==> complete == failed == 0
    ensures id in Apply(s, a).mutators ==>
      OutcomeIs(Apply(s, a).mutators[id], complete + (if a == PublishEnds(id) then 1 else 0),
                failed + if a == PublishFails(id) then 1 else 0)
    ensures id !in Apply(s, a).mutators ==> id !in s.mutators && a != PublishEnds(id) && a != PublishFails(id)
  {}

  /** A mutator publishes at most once; it ends committed only after publishing
      its whole plan, and with nothing to do, or out of attempts, only without
      having published anything. */
  lemma OutcomesTell<K(!new), V(!new)>(states: seq<System<K, V>>, actions: seq<Action<K, V>>, k: nat, id: nat)
    requires Execution(states, actions) && k < |states| && id in states[k].mutators
    ensures Ended(actions, k, id, true) + Ended(actions, k, id, false) <= 1
    ensures
      var p := states[k].mutators[id].phase;
      && (p == Finished(Committed) ==> Ended(actions, k, id, true) == 1)
      && (p == Finished(Nothing) || p == Finished(OutOfAttempts) ==>
            Ended(actions, k, id, true) + Ended(actions, k, id, false) == 0)
  {
    hide Apply, OutcomeIs;
    for j := 0 to k
      invariant id in states[j].mutators ==>
        OutcomeIs(states[j].mutators[id], Ended(actions, j, id, true), Ended(actions, j, id, false))
      invariant id !in states[j].mutators ==> Ended(actions, j, id, true) == Ended(actions, j, id, false) == 0
    {
      OutcomeStep(states[j], actions[j], id, Ended(actions, j, id, true), Ended(actions, j, id, false));
    }
    OutcomeReads(states[k].mutators[id], Ended(actions, k, id, true), Ended(actions, k, id, false));
  }

  lemma OutcomeReads<K, V>(m: Mutator<K, V>, complete: nat, failed: nat)
    requires OutcomeIs(m, complete, failed)
    ensures complete + failed <= 1
    ensures m.phase == Finished(Committed) ==> complete == 1
    ensures m.phase == Finished(Nothing) || m.phase == Finished(OutOfAttempts) ==> complete + failed == 0
  {}

  // ------------------------------------------------------ who makes it stale

  /** Step `d` ends a publication that may have changed live files. */
  ghost predicate Moves<K(!new), V(!new)>(states: seq<System<K, V>>, actions: seq<Action<K, V>>, d: nat) {
    && d < |actions| && d < |states| && (actions[d].PublishEnds? || actions[d].PublishFails?)
    && actions[d].id in states[d].mutators && states[d].mutators[actions[d].id].phase.Publishing?
    && states[d].mutators[actions[d].id].phase.plan.mutates
  }

  lemma BumpStep<K(!new), V(!new)>(states: seq<System<K, V>>, actions: seq<Action<K, V>>, d: nat)
    requires Execution(states, actions) && d < |actions|
    ensures states[d + 1].bumps == states[d].bumps + if Moves(states, actions, d) then [actions[d].id] else []
  {
    assert Enabled(states[d], actions[d]) && states[d + 1] == Apply(states[d], actions[d]);
    hide Execution;
  }

  /** The generation moves exactly with such steps, and remembers by whom. */
  lemma BumpsBetween<K(!new), V(!new)>(states: seq<System<K, V>>, actions: seq<Action<K, V>>, s: nat, k: nat)
    requires Execution(states, actions) && s <= k < |states|
    ensures states[s].bumps <= states[k].bumps
    ensures |states[s].bumps| < |states[k].bumps| <==> exists d :: s <= d < k && Moves(states, actions, d)
    ensures forall d :: s <= d < k && Moves(states, actions, d) ==> actions[d].id in states[k].bumps
  {
    hide Moves, Apply, Enabled;
    for j := s to k
      invariant states[s].bumps <= states[j].bumps
      invariant |states[s].bumps| < |states[j].bumps| <==> exists d :: s <= d < j && Moves(states, actions, d)
      invariant forall d :: s <= d < j && Moves(states, actions, d) ==> actions[d].id in states[j].bumps
    {
      BumpStep(states, actions, j);
    }
  }

  /** Step `s` is the last before `k` at which `id` sampled the generation. */
  ghost predicate LatestSample<K(!new), V(!new)>(actions: seq<Action<K, V>>, s: nat, k: nat, id: nat) {
    && s < k <= |actions| && actions[s] == Sample(id)
    && forall j :: s < j < k ==> actions[j] != Sample(id)
  }

  lemma SampleStep<K(!new), V(!new)>(s: System<K, V>, a: Action<K, V>, id: nat)
    requires Enabled(s, a) && id in Apply(s, a).mutators
    requires Apply(s, a).mutators[id].phase.Staging? || Apply(s, a).mutators[id].phase.Staged?
    ensures id in s.mutators
    ensures
      var p, q := s.mutators[id].phase, Apply(s, a).mutators[id].phase;
      if a == Sample(id) then q.expected == |s.bumps|
      else (p.Staging? || p.Staged?) && q.expected == p.expected
  {}

  lemma SampledBefore<K(!new), V(!new)>(states: seq<System<K, V>>, actions: seq<Action<K, V>>, k: nat, id: nat)
    returns (s: nat)
    requires Execution(states, actions) && k < |states| && id in states[k].mutators
    requires states[k].mutators[id].phase.Staging? || states[k].mutators[id].phase.Staged?
    ensures LatestSample(actions, s, k, id) && states[k].mutators[id].phase.expected == |states[s].bumps|
  {
    hide Apply;
    if k == 0 { assert false; }
    SampleStep(states[k - 1], actions[k - 1], id);
    if actions[k - 1] == Sample(id) {
      s := k - 1;
    } else {
      s := SampledBefore(states, actions, k - 1, id);
    }
  }

  /** A lease is refused if and only if, since its mutator last sampled the
      generation, a publication with something to publish ended; it was another
      mutator's. */
  lemma RefusedExactlyWhen<K(!new), V(!new)>(
    states: seq<System<K, V>>, actions: seq<Action<K, V>>, k: nat, id: nat)
    requires Execution(states, actions) && k < |actions| && actions[k] == Action.Acquire(id)
    ensures exists s: nat :: (
      && LatestSample(actions, s, k, id)
      && (Refused(states, actions, k, id) <==> exists d :: s < d < k && Moves(states, actions, d)))
    ensures forall d :: 0 <= d < k && Moves(states, actions, d) ==> actions[d].id != id
  {
    assert Enabled(states[k], actions[k]);
    Safety(states, actions);
    assert MutatorOk(states[k], id);
    var s := SampledBefore(states, actions, k, id);
    BumpsBetween(states, actions, s, k);
    BumpsBetween(states, actions, 0, k);
    RefusedNow(states, actions, k, id);
    assert !Moves(states, actions, s);
    hide Moves, Refused, Execution, Inv;
  }

  /** Every refusal has its own witness: between two of them the generation was
      sampled again. */
  lemma WitnessesDiffer<K(!new), V(!new)>(
    states: seq<System<K, V>>, actions: seq<Action<K, V>>, i: nat, k: nat, id: nat)
    requires Execution(states, actions) && i < k && Refused(states, actions, i, id) && Refused(states, actions, k, id)
    ensures exists d: nat, s: nat, e: nat :: (
      && d < i < s < e < k && actions[s] == Sample(id)
      && Moves(states, actions, d) && Moves(states, actions, e) && actions[d].id != id && actions[e].id != id)
  {
    RefusedExactlyWhen(states, actions, i, id);
    RefusedExactlyWhen(states, actions, k, id);
    var r: nat :| LatestSample(actions, r, i, id) &&
      (Refused(states, actions, i, id) <==> exists d :: r < d < i && Moves(states, actions, d));
    var d: nat :| r < d < i && Moves(states, actions, d);
    var s: nat :| LatestSample(actions, s, k, id) &&
      (Refused(states, actions, k, id) <==> exists d :: s < d < k && Moves(states, actions, d));
    var e: nat :| s < e < k && Moves(states, actions, e);
    SampledAgain(states, actions, i, k, id, s);
  }

  lemma SampledAgain<K(!new), V(!new)>(
    states: seq<System<K, V>>, actions: seq<Action<K, V>>, i: nat, k: nat, id: nat, s: nat)
    requires Execution(states, actions) && i < k && Refused(states, actions, i, id) && Refused(states, actions, k, id)
    requires LatestSample(actions, s, k, id)
    ensures i < s
  {
    hide Apply;
    assert Enabled(states[i], actions[i]);
    RefusedStep(states[i], actions[i], id);
    if s <= i {
      assert actions[i] != Sample(id);
      for j := i + 1 to k
        invariant id in states[j].mutators && !states[j].mutators[id].phase.Staged?
        invariant !states[j].mutators[id].phase.Staging?
      {
        MutatorsStay(states[j], actions[j], id);
        if states[j + 1].mutators[id].phase.Staging? || states[j + 1].mutators[id].phase.Staged? {
          SampleStep(states[j], actions[j], id);
        }
      }
      assert false;
    }
  }
}
