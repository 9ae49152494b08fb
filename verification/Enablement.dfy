/** Effective enablement of a feed (pkg/engine/enabled_state.go). */
module Enablement {
  import opened Wrappers
  import opened Catalog

  /** What the resolver consults: the catalog, the artifact parents it knows,
      the enable markers on disk, and the enable-all switch. */
  datatype World = World(
    sources: Sources, artifacts: set<string>, markers: set<string>, artifactMarkers: set<string>, enableAll: bool)

  predicate Marked(w: World, name: string) {
    w.enableAll || name in w.markers
  }

  predicate ArtifactEnabled(w: World, name: string) {
    name in w.artifacts && (w.enableAll || name in w.artifactMarkers)
  }

  /** The parents through which a feed inherits enablement; none when the feed
      is decided by itself or by its artifact parent. */
  function Inputs(s: Source): Option<seq<string>> {
    if s.artifactParent != "" then None
    else match s.provenance
      case SecondaryRetention => Some(s.derivedFrom)
      case SecondaryMerge => Some(MergeSourceNames(s))
      case _ => None
  }

  // --------------------------------------------------------- the reference

  ghost predicate MayPass(w: World, name: string, overridden: bool) {
    SourceAt(w.sources, name).Some? && (overridden || Marked(w, name))
  }

  /** A base feed that ends a chain: a plain one, or one whose artifact parent
      is enabled. */
  ghost predicate IsBase(w: World, name: string) {
    SourceAt(w.sources, name).Some? &&
    var s := SourceAt(w.sources, name).value;
    Inputs(s).None? && (s.artifactParent != "" ==> ArtifactEnabled(w, s.artifactParent))
  }

  ghost predicate Inherits(w: World, child: string, parent: string) {
    SourceAt(w.sources, child).Some? &&
    var inputs := Inputs(SourceAt(w.sources, child).value);
    inputs.Some? && parent in inputs.value
  }

  /** A chain of marked feeds from `p[0]`, whose own marker may be overridden,
      through inherited inputs to a base feed. */
  ghost predicate Chain(w: World, p: seq<string>, overridden: bool) {
    && p != []
    && (forall i :: 0 <= i < |p| ==> MayPass(w, p[i], overridden && i == 0))
    && (forall i :: 0 <= i < |p| - 1 ==> Inherits(w, p[i], p[i + 1]))
    && IsBase(w, p[|p| - 1])
  }

  ghost predicate Distinct(p: seq<string>) {
    forall i, j :: 0 <= i < j < |p| ==> p[i] != p[j]
  }

  ghost predicate Avoids(p: seq<string>, seen: set<string>) {
    forall i :: 0 <= i < |p| ==> p[i] !in seen
  }

  /** A chain without repeated feeds, outside the feeds already on the path. */
  ghost predicate SimpleChain(w: World, p: seq<string>, overridden: bool, seen: set<string>) {
    Chain(w, p, overridden) && Distinct(p) && Avoids(p, seen)
  }

  // --------------------------------------------- the recursion, as a function

  predicate Enabled(w: World, name: string, overridden: bool, seen: set<string>)
    decreases w.sources.Keys - seen, 1, 0
  {
    if SourceAt(w.sources, name).None? || name in seen then false
    else if !(overridden || Marked(w, name)) then false
    else
      var s := SourceAt(w.sources, name).value;
      var inputs := Inputs(s);
      if s.artifactParent != "" then ArtifactEnabled(w, s.artifactParent)
      else if inputs.Some? then AnyEnabled(w, inputs.value, seen + {name})
      else true
  }

  predicate AnyEnabled(w: World, names: seq<string>, seen: set<string>)
    decreases w.sources.Keys - seen, 2, |names|
  {
    names != [] && (Enabled(w, names[0], false, seen) || AnyEnabled(w, names[1..], seen))
  }

  lemma {:induction false} AnyEnabledMeans(w: World, names: seq<string>, seen: set<string>)
    ensures AnyEnabled(w, names, seen) <==> exists n :: n in names && Enabled(w, n, false, seen)
  {
    if names != [] {
      AnyEnabledMeans(w, names[1..], seen);
      if n :| n in names && Enabled(w, n, false, seen) { assert n == names[0] || n in names[1..]; }
    }
  }

  /** An enabled feed has a simple chain outside `seen`. */
  lemma {:induction false} EnabledHasChain(w: World, name: string, overridden: bool, seen: set<string>)
    requires Enabled(w, name, overridden, seen)
    ensures exists p :: SimpleChain(w, p, overridden, seen) && p[0] == name
    decreases w.sources.Keys - seen
  {
    var s := SourceAt(w.sources, name).value;
    if Inputs(s).None? {
      assert SimpleChain(w, [name], overridden, seen);
    } else {
      AnyEnabledMeans(w, Inputs(s).value, seen + {name});
      var n :| n in Inputs(s).value && Enabled(w, n, false, seen + {name});
      EnabledHasChain(w, n, false, seen + {name});
      var rest :| SimpleChain(w, rest, false, seen + {name}) && rest[0] == n;
      ChainExtends(w, name, rest, overridden, seen);
      assert ([name] + rest)[0] == name;
    }
  }

  lemma ChainExtends(w: World, name: string, rest: seq<string>, overridden: bool, seen: set<string>)
    requires SimpleChain(w, rest, false, seen + {name}) && name !in seen
    requires MayPass(w, name, overridden) && Inherits(w, name, rest[0])
    ensures SimpleChain(w, [name] + rest, overridden, seen)
  {
    var p := [name] + rest;
    forall i | 0 <= i < |p| ensures MayPass(w, p[i], overridden && i == 0) {
      if i > 0 { assert MayPass(w, rest[i - 1], false && i - 1 == 0); }
    }
    forall i | 0 <= i < |p| - 1 ensures Inherits(w, p[i], p[i + 1]) {
      if i > 0 { assert Inherits(w, rest[i - 1], rest[i]); }
    }
  }

  /** A simple chain outside `seen` makes its first feed enabled: the pushed
      names never block the rest of the chain. */
  lemma {:induction false} SimpleChainEnables(w: World, p: seq<string>, overridden: bool, seen: set<string>)
    requires SimpleChain(w, p, overridden, seen)
    ensures Enabled(w, p[0], overridden, seen)
    decreases |p|
  {
    assert MayPass(w, p[0], overridden && 0 == 0);
    if |p| > 1 {
      var rest := p[1..];
      assert Inherits(w, p[0], p[1]);
      forall i | 0 <= i < |rest| ensures MayPass(w, rest[i], false && i == 0) {
        assert MayPass(w, p[i + 1], overridden && i + 1 == 0);
      }
      forall i | 0 <= i < |rest| - 1 ensures Inherits(w, rest[i], rest[i + 1]) {
        assert Inherits(w, p[i + 1], p[i + 2]);
      }
      SimpleChainEnables(w, rest, false, seen + {p[0]});
      AnyEnabledMeans(w, Inputs(SourceAt(w.sources, p[0]).value).value, seen + {p[0]});
    }
  }

  /** Cutting the detour between two visits of one feed leaves a chain. */
  lemma CutDetour(w: World, p: seq<string>, i: nat, j: nat, overridden: bool)
    requires Chain(w, p, overridden) && i < j < |p| && p[i] == p[j]
    ensures Chain(w, p[..i] + p[j..], overridden) && (p[..i] + p[j..])[0] == p[0]
  {
    var q := p[..i] + p[j..];
    forall k | 0 <= k < |q| ensures MayPass(w, q[k], overridden && k == 0) {
      var k' := if k < i then k else k - i + j;
      assert q[k] == p[k'] && MayPass(w, p[k'], overridden && k' == 0);
    }
    forall k | 0 <= k < |q| - 1 ensures Inherits(w, q[k], q[k + 1]) {
      if k + 1 < i {
        assert Inherits(w, p[k], p[k + 1]);
      } else if k + 1 == i {
        assert Inherits(w, p[i - 1], p[i]);
      } else {
        assert Inherits(w, p[k - i + j], p[k - i + j + 1]);
      }
    }
  }

  /** Every chain can be cut down to a simple one. */
  lemma {:induction false} ChainSimplifies(w: World, p: seq<string>, overridden: bool)
    requires Chain(w, p, overridden)
    ensures exists q :: SimpleChain(w, q, overridden, {}) && q[0] == p[0]
    decreases |p|
  {
    if Distinct(p) {
      assert SimpleChain(w, p, overridden, {});
    } else {
      var i, j :| 0 <= i < j < |p| && p[i] == p[j];
      CutDetour(w, p, i, j, overridden);
      ChainSimplifies(w, p[..i] + p[j..], overridden);
    }
  }

  /** Enablement is reachability, on any graph, cyclic ones included. */
  lemma EnabledIsReachability(w: World, name: string, overridden: bool)
    ensures Enabled(w, name, overridden, {}) <==> exists p :: Chain(w, p, overridden) && p[0] == name
  {
    if Enabled(w, name, overridden, {}) {
      EnabledHasChain(w, name, overridden, {});
    }
    if p :| Chain(w, p, overridden) && p[0] == name {
      ChainSimplifies(w, p, overridden);
      var q :| SimpleChain(w, q, overridden, {}) && q[0] == p[0];
      SimpleChainEnables(w, q, overridden, {});
    }
  }

  // ----------------------------------------------- laws of single feeds

  /** What the resolver answers without an override: some chain starts here. */
  ghost predicate IsOn(w: World, name: string) {
    exists p :: Chain(w, p, false) && p[0] == name
  }

  lemma ChainOfOne(w: World, name: string)
    requires MayPass(w, name, false) && IsBase(w, name)
    ensures IsOn(w, name)
  {
    var p := [name];
    assert Chain(w, p, false) && p[0] == name;
  }

  lemma ChainBehind(w: World, name: string, p: seq<string>)
    requires MayPass(w, name, false) && Chain(w, p, false) && Inherits(w, name, p[0])
    ensures IsOn(w, name)
  {
    var q := [name] + p;
    forall i | 0 <= i < |q| ensures MayPass(w, q[i], false && i == 0) {
      if i > 0 { assert MayPass(w, p[i - 1], false && i - 1 == 0); }
    }
    forall i | 0 <= i < |q| - 1 ensures Inherits(w, q[i], q[i + 1]) {
      if i > 0 { assert Inherits(w, p[i - 1], p[i]); }
    }
    assert Chain(w, q, false) && q[0] == name;
  }

  lemma ChainAfter(w: World, p: seq<string>)
    requires Chain(w, p, false) && |p| > 1
    ensures IsOn(w, p[1])
  {
    var q := p[1..];
    forall i | 0 <= i < |q| ensures MayPass(w, q[i], false && i == 0) {
      assert MayPass(w, p[i + 1], false && i + 1 == 0);
    }
    forall i | 0 <= i < |q| - 1 ensures Inherits(w, q[i], q[i + 1]) { assert Inherits(w, p[i + 1], p[i + 2]); }
    assert Chain(w, q, false) && q[0] == p[1];
  }

  /** Enablement one step at a time, with no memory of the way here. */
  lemma OnStep(w: World, name: string)
    ensures IsOn(w, name) <==>
      MayPass(w, name, false) && (IsBase(w, name) || exists q :: Inherits(w, name, q) && IsOn(w, q))
  {
    if IsOn(w, name) {
      var p :| Chain(w, p, false) && p[0] == name;
      assert MayPass(w, p[0], false && 0 == 0);
      if |p| > 1 {
        assert Inherits(w, p[0], p[1]);
        ChainAfter(w, p);
      }
    }
    if MayPass(w, name, false) && IsBase(w, name) {
      ChainOfOne(w, name);
    } else if MayPass(w, name, false) && exists q :: Inherits(w, name, q) && IsOn(w, q) {
      var q :| Inherits(w, name, q) && IsOn(w, q);
      var p :| Chain(w, p, false) && p[0] == q;
      ChainBehind(w, name, p);
    }
  }

  /** A feed of an artifact follows the artifact, whatever else it is. */
  lemma ArtifactFeedOn(w: World, name: string)
    requires SourceAt(w.sources, name).Some? && SourceAt(w.sources, name).value.artifactParent != ""
    ensures
      var artifact := SourceAt(w.sources, name).value.artifactParent;
      IsOn(w, name) <==>
        (w.enableAll || name in w.markers) && artifact in w.artifacts && (w.enableAll || artifact in w.artifactMarkers)
  {
    OnStep(w, name);
  }

  /** A feed that is neither an artifact's nor derived is on when it is marked. */
  lemma PlainFeedOn(w: World, name: string)
    requires SourceAt(w.sources, name).Some? && SourceAt(w.sources, name).value.artifactParent == ""
    requires SourceAt(w.sources, name).value.provenance !in {SecondaryMerge, SecondaryRetention}
    ensures IsOn(w, name) <==> w.enableAll || name in w.markers
  {
    OnStep(w, name);
  }

  /** A window is on when it is marked and a feed it derives from is on. */
  lemma WindowFeedOn(w: World, name: string)
    requires SourceAt(w.sources, name).Some? && SourceAt(w.sources, name).value.artifactParent == ""
    requires SourceAt(w.sources, name).value.provenance == SecondaryRetention
    ensures IsOn(w, name) <==>
      (w.enableAll || name in w.markers)
        && exists q :: q in SourceAt(w.sources, name).value.derivedFrom && IsOn(w, q)
  {
    hide IsOn;
    OnStep(w, name);
    forall q ensures Inherits(w, name, q) <==> q in SourceAt(w.sources, name).value.derivedFrom {}
  }

  /** A merge is on when it is marked and an additive input of it is on; what it
      excludes never counts. Old merges list neither and add all parents. */
  lemma MergeFeedOn(w: World, name: string)
    requires SourceAt(w.sources, name).Some? && SourceAt(w.sources, name).value.artifactParent == ""
    requires SourceAt(w.sources, name).value.provenance == SecondaryMerge
    ensures
      var s := SourceAt(w.sources, name).value;
      IsOn(w, name) <==>
        && (w.enableAll || name in w.markers)
        && exists q :: (
          IsOn(w, q) && (q in s.mergeSources || (s.mergeSources == [] && s.mergeExclude == [] && q in s.derivedFrom)))
  {
    hide IsOn;
    OnStep(w, name);
    var s := SourceAt(w.sources, name).value;
    forall q
      ensures Inherits(w, name, q)
        <==> (q in s.mergeSources || (s.mergeSources == [] && s.mergeExclude == [] && q in s.derivedFrom))
    {}
  }

  lemma UnknownFeedOff(w: World, name: string)
    ensures SourceAt(w.sources, name).None? ==> !IsOn(w, name)
  {
    OnStep(w, name);
  }

  /** Overriding the root does what its marker would do, and nothing more: a
      chain that comes back to the root can be cut short. */
  lemma OverrideIsMarker(w: World, name: string)
    ensures Enabled(w, name, true, {}) <==> Enabled(w.(markers := w.markers + {name}), name, false, {})
  {
    var marked := w.(markers := w.markers + {name});
    if Enabled(w, name, true, {}) {
      EnabledHasChain(w, name, true, {});
      var p :| SimpleChain(w, p, true, {}) && p[0] == name;
      SameChain(w, marked, p, name);
      SimpleChainEnables(marked, p, false, {});
    }
    if Enabled(marked, name, false, {}) {
      EnabledHasChain(marked, name, false, {});
      var p :| SimpleChain(marked, p, false, {}) && p[0] == name;
      SameChain(w, marked, p, name);
      SimpleChainEnables(w, p, true, {});
    }
  }

  lemma SameChain(w: World, marked: World, p: seq<string>, name: string)
    requires marked == w.(markers := w.markers + {name}) && p != [] && p[0] == name && Distinct(p)
    ensures SimpleChain(w, p, true, {}) <==> SimpleChain(marked, p, false, {})
  {
    forall i | 0 <= i < |p| ensures MayPass(w, p[i], true && i == 0) <==> MayPass(marked, p[i], false && i == 0) {
      if i > 0 { assert p[0] != p[i]; }
    }
    forall i | 0 <= i < |p| - 1 ensures Inherits(w, p[i], p[i + 1]) <==> Inherits(marked, p[i], p[i + 1]) {}
  }

  // ---------------------------------------- the resolver and its seen maps

  /** `effectiveSourceEnabled` with the maps it sets and deletes in place. */
  class Resolver {
    const world: World
    var sourceSeen: set<string>
    var artifactSeen: set<string>

    constructor (w: World)
      ensures world == w && sourceSeen == {} && artifactSeen == {}
    {
      world, sourceSeen, artifactSeen := w, {}, {};
    }

    method ArtifactIsEnabled(name: string, overridden: bool) returns (r: bool)
      requires artifactSeen == {}
      modifies this`artifactSeen
      ensures artifactSeen == {}
      ensures r <==> name in world.artifacts && (overridden || ArtifactEnabled(world, name))
    {
      if name !in world.artifacts || name in artifactSeen {
        return false;
      }
      artifactSeen := artifactSeen + {name};
      r := world.enableAll || overridden || name in world.artifactMarkers;
      artifactSeen := artifactSeen - {name};
    }

    /** Both maps are back to what they were on return, on every path. */
    method SourceIsEnabled(name: string, overridden: bool) returns (r: bool)
      requires artifactSeen == {}
      modifies this
      ensures sourceSeen == old(sourceSeen) && artifactSeen == {}
      ensures r <==> Enabled(world, name, overridden, old(sourceSeen))
      decreases world.sources.Keys - sourceSeen
    {
      if SourceAt(world.sources, name).None? {
        return false;
      }
      var src := SourceAt(world.sources, name).value;
      if name in sourceSeen {
        return false;
      }
      sourceSeen := sourceSeen + {name};
      if !(world.enableAll || overridden || name in world.markers) {
        r := false;
      } else if src.artifactParent != "" {
        r := ArtifactIsEnabled(src.artifactParent, false);
      } else if src.provenance == SecondaryRetention || src.provenance == SecondaryMerge {
        var parents := if src.provenance == SecondaryRetention then src.derivedFrom else MergeSourceNames(src);
        r := false;
        var i := 0;
        while i < |parents| && !r
          invariant i <= |parents|
          invariant sourceSeen == old(sourceSeen) + {name} && artifactSeen == {}
          invariant AnyEnabled(world, parents, sourceSeen) <==> r || AnyEnabled(world, parents[i..], sourceSeen)
        {
          r := SourceIsEnabled(parents[i], false);
          assert parents[i..][1..] == parents[i + 1..];
          i := i + 1;
        }
      } else {
        r := true;
      }
      sourceSeen := sourceSeen - {name};
      assert sourceSeen == old(sourceSeen);
    }
  }

  /** `EffectiveSourceEnabledForRun`. */
  method EffectiveSourceEnabledForRun(w: World, name: string, overrideRoot: bool) returns (r: bool)
    ensures r <==> exists p :: Chain(w, p, overrideRoot) && p[0] == name
    ensures r <==> IsOn(if overrideRoot then w.(markers := w.markers + {name}) else w, name)
  {
    var resolver := new Resolver(w);
    r := resolver.SourceIsEnabled(name, overrideRoot);
    EnabledIsReachability(w, name, overrideRoot);
    OverrideIsMarker(w, name);
    EnabledIsReachability(w.(markers := w.markers + {name}), name, false);
  }
}
