/** What a successful expansion of the catalog guarantees, and exactly when the
    guarantees that need validated references hold (pkg/config/expand.go and
    the reference check of pkg/config/validate.go). */
module Expansion {
  import opened Wrappers
  import opened Catalog
  import opened Derivation
  import opened Expand
  import GoText

  // ------------------------------------------------------- validated names

  const GEO_ANONYMOUS := "anonymous"
  const GEO_SATELLITE := "satellite"

  /** `builtInSyntheticSourceDefs`: present when some source has the geo role. */
  ghost function SyntheticNames(sources: Sources): set<string> {
    if exists n :: SourceAt(sources, n).Some? && "geoip" in SourceAt(sources, n).value.use
    then {GEO_ANONYMOUS, GEO_SATELLITE} else {}
  }

  /** The names that history windows add, non-positive ones included. */
  ghost function WindowNames(sources: Sources): set<string> {
    set n, m | n in sources && SourceAt(sources, n).Some? && m in SourceAt(sources, n).value.history ::
      VariantName(n, m)
  }

  ghost function GeneratedNames(sources: Sources, merges: Merges): set<string> {
    sources.Keys + WindowNames(sources) + SyntheticNames(sources) + merges.Keys
  }

  /** What `validateMergeReferences` asks of the references. */
  ghost predicate ReferencesKnown(sources: Sources, merges: Merges) {
    forall n :: n in merges ==> MergeUsable(merges[n]) && forall r :: r in Refs(merges[n].value) ==>
      r in GeneratedNames(sources, merges)
  }

  /** The windows of one source, as the loop over its history adds them. */
  method AddWindowNames(names: set<string>, name: string, history: seq<int>) returns (all: set<string>)
    ensures all == names + set m | m in history :: VariantName(name, m)
  {
    all := names;
    for i := 0 to |history|
      invariant all == names + set m | m in history[..i] :: VariantName(name, m)
    {
      assert history[..i + 1] == history[..i] + [history[i]];
      all := all + {VariantName(name, history[i])};
    }
    assert history[..|history|] == history;
  }

  /** The sources already looked at. */
  ghost function Seen(sources: Sources, rest: set<string>): Sources {
    map n | n in sources && n !in rest :: sources[n]
  }

  /** `GeneratedNames`; the synthetic names are handed in. */
  method CollectGeneratedNames(sources: Sources, merges: Merges, synthetic: set<string>) returns (names: set<string>)
    ensures names == sources.Keys + WindowNames(sources) + synthetic + merges.Keys
  {
    hide WindowNames;
    names := {};
    var rest := sources.Keys;
    NothingSeen(sources);
    while rest != {}
      invariant rest <= sources.Keys
      invariant names == (sources.Keys - rest) + WindowNames(Seen(sources, rest))
      decreases rest
    {
      var name :| name in rest;
      OneMoreSource(sources, rest, name);
      names := names + {name};
      if sources[name].Some? {
        names := AddWindowNames(names, name, sources[name].value.history);
      }
      rest := rest - {name};
    }
    assert Seen(sources, {}) == sources;
    names := names + synthetic + merges.Keys;
  }

  lemma NothingSeen(sources: Sources)
    ensures WindowNames(Seen(sources, sources.Keys)) == {}
  {}

  lemma OneMoreSource(sources: Sources, rest: set<string>, name: string)
    requires name in rest && rest <= sources.Keys
    ensures WindowNames(Seen(sources, rest - {name})) == WindowNames(Seen(sources, rest))
      + (if sources[name].Some? then set m | m in sources[name].value.history :: VariantName(name, m) else {})
  {
    var a, b := Seen(sources, rest - {name}), Seen(sources, rest);
    forall n ensures SourceAt(a, n) == if n == name then sources[name] else SourceAt(b, n) {}
  }

  /** `validateMergeReferences`. */
  method ValidateMergeReferences(sources: Sources, merges: Merges, known: set<string>) returns (ok: bool)
    requires known == GeneratedNames(sources, merges)
    ensures ok <==> ReferencesKnown(sources, merges)
  {
    hide GeneratedNames, CleanRefs, NoRepeats;
    var rest := merges.Keys;
    while rest != {}
      invariant rest <= merges.Keys
      invariant forall n :: n in merges && n !in rest ==>
        MergeUsable(merges[n]) && forall r :: r in Refs(merges[n].value) ==> r in known
      decreases rest
    {
      var name :| name in rest;
      if merges[name].None? {
        return false;
      }
      var sources', exclude := CleanRefs(merges[name].value.sources), CleanRefs(merges[name].value.exclude);
      if |sources'| == 0 {
        return false;
      }
      var distinct := ValidateSignedMergeRefs(sources', exclude);
      if !distinct {
        return false;
      }
      var refs := sources' + exclude;
      for i := 0 to |refs|
        invariant forall j :: 0 <= j < i ==> refs[j] in known
      {
        if refs[i] !in known {
          assert refs[i] in Refs(merges[name].value);
          return false;
        }
      }
      rest := rest - {name};
    }
    ok := true;
  }

  // ---------------------------------------------------- nothing left to expand

  /** No sugar survives, so a second expansion has nothing to do. */
  lemma NoHistoryLeft(before: Sources, merges: Merges, interval: int, em1: Emission, em2: Emission, after: Sources,
                      n: string)
    requires FullyExpanded(before, merges, interval, em1, em2, after)
    ensures SourceAt(after, n).Some? ==> SourceAt(after, n).value.history == []
  {
    hide FullyExpanded, Expanded;
    ExpandedCatalog(before, merges, interval, em1, em2, after, n);
  }

  // --------------------------------------------------------------- closedness

  /** Every parent of a source the expansion added is a known name. */
  ghost predicate ParentsKnown(before: Sources, after: Sources) {
    forall n, p :: n in after && n !in before && p in ParentsOf(after[n]) ==> p in after.Keys + SyntheticNames(before)
  }

  ghost predicate RefsResolved(before: Sources, merges: Merges, after: Sources) {
    forall n, r :: MergeAt(merges, n).Some? && r in Refs(merges[n].value) ==> r in after.Keys + SyntheticNames(before)
  }

  lemma ParentsOfAdded(before: Sources, merges: Merges, interval: int, em1: Emission, em2: Emission, after: Sources,
                       n: string)
    requires FullyExpanded(before, merges, interval, em1, em2, after) && n in after && n !in before
    ensures n in merges ==> merges[n].Some? && ParentsOf(after[n]) == Refs(merges[n].value)
    ensures n !in merges ==> |ParentsOf(after[n])| == 1 && ParentsOf(after[n])[0] in after
  {
    hide FullyExpanded, Expanded;
    ExpandedCatalog(before, merges, interval, em1, em2, after, n);
    if n in em1 { ExpandedCatalog(before, merges, interval, em1, em2, after, em1[n].parent); }
    if n in em2 { ExpandedCatalog(before, merges, interval, em1, em2, after, em2[n].parent); }
  }

  /** Only references between merges can be left dangling. */
  lemma ClosedExactlyWhenResolved(before: Sources, merges: Merges, interval: int, em1: Emission, em2: Emission,
                                  after: Sources)
    requires FullyExpanded(before, merges, interval, em1, em2, after)
    ensures ParentsKnown(before, after) <==> RefsResolved(before, merges, after)
  {
    hide FullyExpanded, SyntheticNames, Refs;
    if RefsResolved(before, merges, after) {
      forall n, p | n in after && n !in before && p in ParentsOf(after[n])
        ensures p in after.Keys + SyntheticNames(before)
      {
        ParentsOfAdded(before, merges, interval, em1, em2, after, n);
      }
    }
    if ParentsKnown(before, after) {
      forall n, r | MergeAt(merges, n).Some? && r in Refs(merges[n].value)
        ensures r in after.Keys + SyntheticNames(before)
      {
        ExpandedCatalog(before, merges, interval, em1, em2, after, n);
        ParentsOfAdded(before, merges, interval, em1, em2, after, n);
      }
    }
  }

  /** Of all the names validation accepts, `r` is neither a source, a merge, a
      synthetic name nor the name of a positive window: windows that the
      expander skips are all that can bear it. */
  ghost predicate OnlySkipped(before: Sources, merges: Merges, r: string) {
    && r !in before.Keys + merges.Keys + SyntheticNames(before)
    && forall w :: w in WantedWindows(before, before.Keys) ==> NameOf(w) != r
  }

  lemma EmittedExactlyWhenWanted(before: Sources, merges: Merges, interval: int, em1: Emission, em2: Emission,
                                 after: Sources, r: string)
    requires FullyExpanded(before, merges, interval, em1, em2, after)
    ensures r in em1 <==> exists w :: w in WantedWindows(before, before.Keys) && NameOf(w) == r
  {
    hide FullyExpanded, Expanded, Fits, MergedSoFar, WantedWindows;
    Stages(before, merges, interval, em1, em2, after);
  }

  /** A validated reference dangles exactly when the catalog has its name for
      skipped windows only. */
  lemma DanglingExactlyWhenSkipped(before: Sources, merges: Merges, interval: int, em1: Emission, em2: Emission,
                                   after: Sources, r: string)
    requires FullyExpanded(before, merges, interval, em1, em2, after) && r in GeneratedNames(before, merges)
    ensures r !in after.Keys + SyntheticNames(before) <==> OnlySkipped(before, merges, r)
  {
    hide FullyExpanded, Expanded, WantedWindows, GeneratedNames;
    ExpandedCatalog(before, merges, interval, em1, em2, after, r);
    ValidatedReadsNoMergeWindow(before, merges, interval, em1, em2, after, r);
    EmittedExactlyWhenWanted(before, merges, interval, em1, em2, after, r);
  }

  /** Every parent of the result is known if and only if no merge refers to a
      name that the catalog has for skipped windows only. */
  lemma ValidatedClosedExactlyWhen(before: Sources, merges: Merges, interval: int, em1: Emission, em2: Emission,
                                   after: Sources)
    requires FullyExpanded(before, merges, interval, em1, em2, after) && ReferencesKnown(before, merges)
    ensures ParentsKnown(before, after) <==>
      forall n, r :: MergeAt(merges, n).Some? && r in Refs(merges[n].value) ==> !OnlySkipped(before, merges, r)
  {
    hide FullyExpanded, GeneratedNames, OnlySkipped, ParentsKnown, MergeUsable, Refs, SyntheticNames;
    ClosedExactlyWhenResolved(before, merges, interval, em1, em2, after);
    forall n, r | MergeAt(merges, n).Some? && r in Refs(merges[n].value)
      ensures r in after.Keys + SyntheticNames(before) <==> !OnlySkipped(before, merges, r)
    {
      DanglingExactlyWhenSkipped(before, merges, interval, em1, em2, after, r);
    }
  }

  ghost predicate PositiveWindows(sources: Sources) {
    forall n, m :: SourceAt(sources, n).Some? && m in SourceAt(sources, n).value.history ==> m > 0
  }

  /** With positive windows and validated references the result is closed. */
  lemma PositiveWindowsClose(before: Sources, merges: Merges, interval: int, em1: Emission, em2: Emission,
                             after: Sources)
    requires FullyExpanded(before, merges, interval, em1, em2, after) && ReferencesKnown(before, merges)
    requires PositiveWindows(before)
    ensures ParentsKnown(before, after)
  {
    hide FullyExpanded;
    forall r | r in GeneratedNames(before, merges) ensures !OnlySkipped(before, merges, r) {
      if r in WindowNames(before) {
        var n, m :| n in before && SourceAt(before, n).Some? && m in SourceAt(before, n).value.history
          && r == VariantName(n, m);
        assert Window(n, m) in WantedWindows(before, before.Keys) && NameOf(Window(n, m)) == r;
      }
    }
    ValidatedClosedExactlyWhen(before, merges, interval, em1, em2, after);
  }

  // ------------------------------------------------------ redistributability

  /** The merges of the expanded catalog over their sources and excludes. */
  ghost function MergeInputs(after: Sources, merges: Merges): Graph {
    map n | n in merges && SourceAt(after, n).Some? ::
      SourceAt(after, n).value.mergeSources + SourceAt(after, n).value.mergeExclude
  }

  /** The curator's own flag, and everything reachable in the result. */
  ghost predicate ReachAllows(after: Sources, merges: Merges, n: string) {
    && (MergeAt(merges, n).Some? ==> merges[n].value.redistributable != Some(false))
    && forall p :: Walk(MergeInputs(after, merges), p) && |p| >= 2 && p[0] == n && SourceAt(after, p[|p| - 1]).Some?
                   ==> Redistributable(SourceAt(after, p[|p| - 1]).value)
  }

  lemma SameInputs(before: Sources, merges: Merges, interval: int, em1: Emission, em2: Emission, after: Sources)
    requires FullyExpanded(before, merges, interval, em1, em2, after)
    ensures MergeInputs(after, merges) == MergeGraph(Expanded(before, before.Keys, em1), merges)
  {
    hide FullyExpanded, Expanded, Allowed, CleanRefs, Emits, Fits, UsableSoFar, MergedSoFar, Acyclic;
    var windowed := Expanded(before, before.Keys, em1);
    Stages(before, merges, interval, em1, em2, after);
    forall n | n in merges ensures merges[n].Some? && n !in windowed && SourceAt(after, n).Some?
      && SourceAt(after, n).value.mergeSources + SourceAt(after, n).value.mergeExclude == Refs(merges[n].value)
    {
      ExpandedCatalog(before, merges, interval, em1, em2, after, n);
    }
  }

  /** The flags of the result, by where the name comes from. */
  lemma FlagsOfResult(before: Sources, merges: Merges, interval: int, em1: Emission, em2: Emission, after: Sources,
                      n: string)
    requires FullyExpanded(before, merges, interval, em1, em2, after)
    ensures
      var windowed := Expanded(before, before.Keys, em1);
      && (n in merges ==> merges[n].Some? && SourceAt(after, n).Some?)
      && (n in merges ==> (Redistributable(SourceAt(after, n).value) <==> Allowed(windowed, merges, n)))
      && (n in windowed ==>
            (OwnFlagAllows(windowed, merges, n) <==>
               SourceAt(after, n).Some? ==> Redistributable(SourceAt(after, n).value)))
      && (n in em2 ==> em2[n].parent in merges && SourceAt(after, n).Some?)
      && (n in em2 ==> (Redistributable(SourceAt(after, n).value) <==> Allowed(windowed, merges, em2[n].parent)))
  {
    hide FullyExpanded, Allowed, Expanded;
    var windowed := Expanded(before, before.Keys, em1);
    Stages(before, merges, interval, em1, em2, after);
    ExpandedCatalog(before, merges, interval, em1, em2, after, n);
    StepContents(before, before.Keys, em1, n);
    if n in merges { FlagOfMerge(windowed, merges, n); }
    if n in em2 {
      ExpandedCatalog(before, merges, interval, em1, em2, after, em2[n].parent);
      FlagOfMerge(windowed, merges, em2[n].parent);
    }
  }

  lemma {:induction false} AllowedAlong(sources: Sources, merges: Merges, p: seq<string>)
    requires Walk(MergeGraph(sources, merges), p) && Allowed(sources, merges, p[0])
    ensures Allowed(sources, merges, p[|p| - 1]) && OwnFlagAllows(sources, merges, p[|p| - 1])
    decreases |p|
  {
    hide Allowed, MergeGraph;
    AllowedStep(sources, merges, p[0]);
    if |p| > 1 {
      assert Edge(MergeGraph(sources, merges), p[0], p[1]);
      WalkParts(MergeGraph(sources, merges), p);
      AllowedAlong(sources, merges, p[1..]);
    }
  }

  lemma LastAllows(before: Sources, merges: Merges, interval: int, em1: Emission, em2: Emission, after: Sources,
                   n: string, p: seq<string>)
    requires FullyExpanded(before, merges, interval, em1, em2, after)
    requires n in merges && ReachAllows(after, merges, n) && Walk(MergeInputs(after, merges), p) && p[0] == n
    ensures OwnFlagAllows(Expanded(before, before.Keys, em1), merges, p[|p| - 1])
  {
    hide FullyExpanded, Expanded, MergeInputs, Allowed;
    var windowed := Expanded(before, before.Keys, em1);
    var x := p[|p| - 1];
    FlagsOfResult(before, merges, interval, em1, em2, after, x);
    MergeContents(windowed, merges, interval, n) by { Stages(before, merges, interval, em1, em2, after); }
    AllowedStep(windowed, merges, x);
  }

  lemma ReachAllowsIsAllowed(before: Sources, merges: Merges, interval: int, em1: Emission, em2: Emission,
                             after: Sources, n: string)
    requires FullyExpanded(before, merges, interval, em1, em2, after)
    requires n in merges && ReachAllows(after, merges, n)
    ensures Allowed(Expanded(before, before.Keys, em1), merges, n)
  {
    hide FullyExpanded, Expanded, MergeGraph, MergeInputs, OwnFlagAllows, ReachAllows;
    SameInputs(before, merges, interval, em1, em2, after);
    forall p | Walk(MergeInputs(after, merges), p) && p != [] && p[0] == n
      ensures OwnFlagAllows(Expanded(before, before.Keys, em1), merges, p[|p| - 1])
    {
      LastAllows(before, merges, interval, em1, em2, after, n, p);
    }
  }

  /** Every allowed merge refers to emitted windows of allowed merges only. */
  ghost predicate EmittedRefsSafe(windowed: Sources, merges: Merges, em2: Emission) {
    forall y, x :: MergeAt(merges, y).Some? && x in em2 && x in Refs(merges[y].value) && Allowed(windowed, merges, y)
                   ==> Allowed(windowed, merges, em2[x].parent)
  }

  lemma AllowedReachesAllowed(before: Sources, merges: Merges, interval: int, em1: Emission, em2: Emission,
                              after: Sources, p: seq<string>)
    requires FullyExpanded(before, merges, interval, em1, em2, after)
    requires EmittedRefsSafe(Expanded(before, before.Keys, em1), merges, em2)
    requires Walk(MergeInputs(after, merges), p) && |p| >= 2 && SourceAt(after, p[|p| - 1]).Some?
    requires Allowed(Expanded(before, before.Keys, em1), merges, p[0])
    ensures Redistributable(SourceAt(after, p[|p| - 1]).value)
  {
    hide FullyExpanded, Expanded, Allowed, OwnFlagAllows;
    var windowed := Expanded(before, before.Keys, em1);
    var x, y := p[|p| - 1], p[|p| - 2];
    SameInputs(before, merges, interval, em1, em2, after);
    AllowedAlong(windowed, merges, p);
    WalkParts(MergeInputs(after, merges), p);
    AllowedAlong(windowed, merges, p[..|p| - 1]);
    FlagsOfResult(before, merges, interval, em1, em2, after, x);
    ExpandedCatalog(before, merges, interval, em1, em2, after, x);
    StepContents(before, before.Keys, em1, x) by { Stages(before, merges, interval, em1, em2, after); }
  }

  ghost predicate FlagsAreReachability(after: Sources, merges: Merges) {
    forall n :: n in merges ==>
      SourceAt(after, n).Some? && (Redistributable(SourceAt(after, n).value) <==> ReachAllows(after, merges, n))
  }

  /** The condition as the expander meets it. */
  lemma FlagsExactlyWhenEmittedSafe(before: Sources, merges: Merges, interval: int, em1: Emission, em2: Emission,
                                   after: Sources)
    requires FullyExpanded(before, merges, interval, em1, em2, after)
    ensures FlagsAreReachability(after, merges) <==> EmittedRefsSafe(Expanded(before, before.Keys, em1), merges, em2)
  {
    hide FullyExpanded, Expanded, Allowed, Walk, MergeInputs;
    var windowed := Expanded(before, before.Keys, em1);
    if EmittedRefsSafe(windowed, merges, em2) {
      forall n | n in merges
        ensures SourceAt(after, n).Some?
        ensures Redistributable(SourceAt(after, n).value) <==> ReachAllows(after, merges, n)
      {
        FlagsOfResult(before, merges, interval, em1, em2, after, n);
        if ReachAllows(after, merges, n) {
          ReachAllowsIsAllowed(before, merges, interval, em1, em2, after, n);
        }
        if Allowed(windowed, merges, n) {
          AllowedStep(windowed, merges, n);
          Stages(before, merges, interval, em1, em2, after);
          forall p | Walk(MergeInputs(after, merges), p) && |p| >= 2 && p[0] == n && SourceAt(after, p[|p| - 1]).Some?
            ensures Redistributable(SourceAt(after, p[|p| - 1]).value)
          {
            AllowedReachesAllowed(before, merges, interval, em1, em2, after, p);
          }
        }
      }
    }
    if FlagsAreReachability(after, merges) {
      forall y, x | MergeAt(merges, y).Some? && x in em2 && x in Refs(merges[y].value) && Allowed(windowed, merges, y)
        ensures Allowed(windowed, merges, em2[x].parent)
      {
        DirectReference(before, merges, interval, em1, em2, after, y, x);
      }
    }
  }

  lemma DirectReference(before: Sources, merges: Merges, interval: int, em1: Emission, em2: Emission, after: Sources,
                        y: string, x: string)
    requires FullyExpanded(before, merges, interval, em1, em2, after)
    requires SourceAt(after, y).Some? && (ReachAllows(after, merges, y) <==> Redistributable(SourceAt(after, y).value))
    requires MergeAt(merges, y).Some? && x in em2 && x in Refs(merges[y].value)
    requires Allowed(Expanded(before, before.Keys, em1), merges, y)
    ensures Allowed(Expanded(before, before.Keys, em1), merges, em2[x].parent)
  {
    hide FullyExpanded, Expanded, Allowed, MergeGraph, OwnFlagAllows, Refs;
    var windowed := Expanded(before, before.Keys, em1);
    FlagsOfResult(before, merges, interval, em1, em2, after, y);
    FlagsOfResult(before, merges, interval, em1, em2, after, x);
    ReferenceIsInput(before, merges, interval, em1, em2, after, y, x);
    assert Walk(MergeInputs(after, merges), [y, x]) && [y, x][|[y, x]| - 1] == x;
  }

  lemma ReferenceIsInput(before: Sources, merges: Merges, interval: int, em1: Emission, em2: Emission,
                         after: Sources, y: string, x: string)
    requires FullyExpanded(before, merges, interval, em1, em2, after)
    requires MergeAt(merges, y).Some? && x in Refs(merges[y].value)
    ensures Edge(MergeInputs(after, merges), y, x)
  {
    hide FullyExpanded, Expanded;
    SameInputs(before, merges, interval, em1, em2, after);
    MergeContents(Expanded(before, before.Keys, em1), merges, interval, y) by {
      Stages(before, merges, interval, em1, em2, after);
    }
  }

  // ----------------------------------- the same condition, before expanding

  ghost function MergeRefs(merges: Merges): Graph {
    map n | n in merges && merges[n].Some? :: Refs(merges[n].value)
  }

  /** The flag the catalog gives a name: a source's or a merge's own, and a
      positive window's that of its source. */
  ghost predicate CatalogFlagAllows(before: Sources, merges: Merges, r: string) {
    && (SourceAt(before, r).Some? ==> Redistributable(SourceAt(before, r).value))
    && (MergeAt(merges, r).Some? ==> merges[r].value.redistributable != Some(false))
    && forall w :: w in WantedWindows(before, before.Keys) && NameOf(w) == r ==> Redistributable(before[w.parent].value)
  }

  /** Everything reachable by references of the catalog allows redistribution. */
  ghost predicate CatalogAllows(before: Sources, merges: Merges, n: string) {
    forall p :: Walk(MergeRefs(merges), p) && p[0] == n ==> CatalogFlagAllows(before, merges, p[|p| - 1])
  }

  ghost predicate MergeWindow(merges: Merges, n: string, m: int) {
    MergeAt(merges, n).Some? && m in merges[n].value.history && m > 0
  }

  /** No allowed merge refers to the name of a forbidden merge's window. */
  ghost predicate WindowRefsSafe(before: Sources, merges: Merges) {
    forall y, n, m ::
      (MergeAt(merges, y).Some? && MergeWindow(merges, n, m) && VariantName(n, m) in Refs(merges[y].value)
        && CatalogAllows(before, merges, y)) ==> CatalogAllows(before, merges, n)
  }

  lemma FlagInCatalog(before: Sources, merges: Merges, interval: int, em1: Emission, em2: Emission, after: Sources,
                      r: string)
    requires FullyExpanded(before, merges, interval, em1, em2, after)
    ensures OwnFlagAllows(Expanded(before, before.Keys, em1), merges, r) <==> CatalogFlagAllows(before, merges, r)
  {
    hide FullyExpanded, Expanded, MovedMerge;
    ExpandedCatalog(before, merges, interval, em1, em2, after, r);
    StepContents(before, before.Keys, em1, r) by { Stages(before, merges, interval, em1, em2, after); }
    EmittedAreWanted(before, merges, interval, em1, em2, after);
  }

  lemma EmittedAreWanted(before: Sources, merges: Merges, interval: int, em1: Emission, em2: Emission, after: Sources)
    requires FullyExpanded(before, merges, interval, em1, em2, after)
    ensures forall n :: n in em1 ==> NameOf(em1[n]) == n && em1[n] in WantedWindows(before, before.Keys)
    ensures forall w :: w in WantedWindows(before, before.Keys) ==> NameOf(w) in em1 && em1[NameOf(w)] == w
  {
    hide FullyExpanded, Expanded, Fits, MergedSoFar, WantedWindows;
    Stages(before, merges, interval, em1, em2, after);
  }

  lemma AllowedInCatalog(before: Sources, merges: Merges, interval: int, em1: Emission, em2: Emission, after: Sources,
                         n: string)
    requires FullyExpanded(before, merges, interval, em1, em2, after)
    ensures Allowed(Expanded(before, before.Keys, em1), merges, n) <==> CatalogAllows(before, merges, n)
  {
    hide FullyExpanded, Expanded, OwnFlagAllows, CatalogFlagAllows, MergeGraph, MergeRefs;
    var windowed := Expanded(before, before.Keys, em1);
    SameReferences(before, merges, interval, em1, em2, after);
    forall r ensures OwnFlagAllows(windowed, merges, r) <==> CatalogFlagAllows(before, merges, r) {
      FlagInCatalog(before, merges, interval, em1, em2, after, r);
    }
    if CatalogAllows(before, merges, n) {
      forall p | Walk(MergeGraph(windowed, merges), p) && p[0] == n
        ensures OwnFlagAllows(windowed, merges, p[|p| - 1])
      {
        assert Walk(MergeRefs(merges), p);
      }
    }
    if Allowed(windowed, merges, n) {
      forall p | Walk(MergeRefs(merges), p) && p[0] == n ensures CatalogFlagAllows(before, merges, p[|p| - 1]) {
        assert Walk(MergeGraph(windowed, merges), p);
      }
    }
  }

  lemma SameReferences(before: Sources, merges: Merges, interval: int, em1: Emission, em2: Emission, after: Sources)
    requires FullyExpanded(before, merges, interval, em1, em2, after)
    ensures MergeGraph(Expanded(before, before.Keys, em1), merges) == MergeRefs(merges)
  {
    hide FullyExpanded, Expanded, Refs;
    forall n | n in merges ensures n !in Expanded(before, before.Keys, em1) {
      MergeContents(Expanded(before, before.Keys, em1), merges, interval, n) by {
        Stages(before, merges, interval, em1, em2, after);
      }
    }
  }

  /** The windows emitted for merges are those the catalog lists. */
  lemma MergeWindowsEmitted(before: Sources, merges: Merges, interval: int, em1: Emission, em2: Emission,
                            after: Sources)
    requires FullyExpanded(before, merges, interval, em1, em2, after)
    ensures forall n, m :: MergeWindow(merges, n, m) ==>
      VariantName(n, m) in em2 && em2[VariantName(n, m)] == Window(n, m)
    ensures forall x :: x in em2 ==> MergeWindow(merges, em2[x].parent, em2[x].minutes) && NameOf(em2[x]) == x
  {
    hide FullyExpanded, Expanded, Fits, HistoryLabel, MovedMerge;
    var merged := Midway(before, merges, interval, em1);
    Stages(before, merges, interval, em1, em2, after);
    forall n, m ensures MergeWindow(merges, n, m) <==> Window(n, m) in WantedWindows(merged, merges.Keys) {
      MergeContents(Expanded(before, before.Keys, em1), merges, interval, n);
      if n in merges { MovedHistory(Expanded(before, before.Keys, em1), merges, interval, n); }
    }
  }

  lemma MovedHistory(windowed: Sources, merges: Merges, interval: int, n: string)
    requires MergeAt(merges, n).Some?
    ensures MovedMerge(windowed, merges, interval, n).history == merges[n].value.history
  {}

  /** A merge comes out redistributable exactly when its own flag and everything
      it reaches in the result allow it, if and only if the catalog has no
      allowed merge that refers to a window of a forbidden one: windows of
      merges come into being after the flags. */
  lemma RedistributableExactlyWhen(before: Sources, merges: Merges, interval: int, em1: Emission, em2: Emission,
                                   after: Sources)
    requires FullyExpanded(before, merges, interval, em1, em2, after)
    ensures FlagsAreReachability(after, merges) <==> WindowRefsSafe(before, merges)
  {
    hide FullyExpanded, Expanded, Allowed, CatalogAllows, FlagsAreReachability, HistoryLabel, Refs, MergeWindow;
    var windowed := Expanded(before, before.Keys, em1);
    FlagsExactlyWhenEmittedSafe(before, merges, interval, em1, em2, after);
    MergeWindowsEmitted(before, merges, interval, em1, em2, after);
    forall n ensures Allowed(windowed, merges, n) <==> CatalogAllows(before, merges, n) {
      AllowedInCatalog(before, merges, interval, em1, em2, after, n);
    }
    if EmittedRefsSafe(windowed, merges, em2) {
      assert WindowRefsSafe(before, merges);
    }
    if WindowRefsSafe(before, merges) {
      forall y, x | MergeAt(merges, y).Some? && x in em2 && x in Refs(merges[y].value) && Allowed(windowed, merges, y)
        ensures Allowed(windowed, merges, em2[x].parent)
      {
        assert VariantName(em2[x].parent, em2[x].minutes) == x;
      }
    }
  }

  // ---------------------------------------------------- names of the windows

  lemma {:induction false} DecimalIsPlain(n: nat)
    ensures '_' !in GoText.Decimal(n)
  {
    if n >= 10 { DecimalIsPlain(n / 10); }
  }

  /** A label starts with the only underscore it has. */
  ghost predicate LabelShape(suffix: string) {
    suffix != "" && suffix[0] == '_' && '_' !in suffix[1..]
  }

  lemma LabelsHaveShape(m: int)
    ensures LabelShape(HistoryLabel(m))
  {
    var suffix := HistoryLabel(m);
    if m >= 1440 {
      DecimalIsPlain(m / 1440);
      DecimalIsPlain(m % 1440 / 60);
    } else {
      DecimalIsPlain(if m < 0 then 0 else m / 60);
      if m <= -60 { DecimalIsPlain(-m / 60); }
    }
    assert forall c :: c in suffix[1..] ==> c != '_';
  }

  lemma LastUnderscore(p: string, a: string, q: string, b: string)
    requires LabelShape(a) && LabelShape(b) && p + a == q + b
    ensures p == q
  {
    forall i | |p| <= i < |p + a| ensures (p + a)[i] == '_' <==> i == |p| {}
    forall i | |q| <= i < |q + b| ensures (q + b)[i] == '_' <==> i == |q| {}
    assert (p + a)[|p|] == '_' && (q + b)[|q|] == '_';
    assert p == (p + a)[..|p|] && q == (q + b)[..|q|];
  }

  /** The parent can be read off a window's name. */
  lemma NameTellsParent(p: string, m: int, q: string, k: int)
    requires VariantName(p, m) == VariantName(q, k)
    ensures p == q
  {
    LabelsHaveShape(m);
    LabelsHaveShape(k);
    LastUnderscore(p, HistoryLabel(m), q, HistoryLabel(k));
  }

  lemma SyntheticIsNoWindow(w: Window)
    ensures NameOf(w) != GEO_ANONYMOUS && NameOf(w) != GEO_SATELLITE
  {
    LabelsHaveShape(w.minutes);
    assert NameOf(w)[|w.parent|] == '_' && '_' in NameOf(w);
    assert '_' !in GEO_ANONYMOUS && '_' !in GEO_SATELLITE;
  }

  lemma WindowNameTellsSource(before: Sources, w: Window)
    ensures NameOf(w) in WindowNames(before) ==> w.parent in before
  {
    if NameOf(w) in WindowNames(before) {
      var n, m :| n in before && SourceAt(before, n).Some? && m in SourceAt(before, n).value.history
        && NameOf(w) == VariantName(n, m);
      NameTellsParent(n, m, w.parent, w.minutes);
    }
  }

  /** Validation keeps merges from reading the windows of merges. */
  lemma ValidatedReadsNoMergeWindow(before: Sources, merges: Merges, interval: int, em1: Emission, em2: Emission,
                                    after: Sources, r: string)
    requires FullyExpanded(before, merges, interval, em1, em2, after) && r in GeneratedNames(before, merges)
    ensures r !in em2
  {
    hide FullyExpanded, Expanded, HistoryLabel, WindowNames;
    ExpandedCatalog(before, merges, interval, em1, em2, after, r);
    if r in em2 {
      assert NameOf(em2[r]) == r by { EmittedNames(before, merges, interval, em1, em2, after, r); }
      ExpandedCatalog(before, merges, interval, em1, em2, after, em2[r].parent);
      WindowNameTellsSource(before, em2[r]);
      SyntheticIsNoWindow(em2[r]);
    }
  }

  lemma EmittedNames(before: Sources, merges: Merges, interval: int, em1: Emission, em2: Emission, after: Sources,
                     r: string)
    requires FullyExpanded(before, merges, interval, em1, em2, after)
    ensures r in em1 ==> NameOf(em1[r]) == r
    ensures r in em2 ==> NameOf(em2[r]) == r
  {
    hide FullyExpanded, Expanded, Fits, MergedSoFar, WantedWindows;
    Stages(before, merges, interval, em1, em2, after);
  }

  /** On every catalog the loader lets through, a merge is redistributable
      exactly when its own flag and everything it reaches allow it. */
  lemma ValidatedFlagsAreReachability(before: Sources, merges: Merges, interval: int, em1: Emission, em2: Emission,
                                      after: Sources)
    requires FullyExpanded(before, merges, interval, em1, em2, after) && ReferencesKnown(before, merges)
    ensures FlagsAreReachability(after, merges)
  {
    hide FullyExpanded, Expanded, Allowed, GeneratedNames, FlagsAreReachability;
    forall y, r | MergeAt(merges, y).Some? && r in Refs(merges[y].value) ensures r !in em2 {
      ValidatedReadsNoMergeWindow(before, merges, interval, em1, em2, after, r);
    }
    FlagsExactlyWhenEmittedSafe(before, merges, interval, em1, em2, after);
  }

  // ------------------------------------------------------- the two exceptions

  function PlainSource(name: string, history: seq<int>): Source {
    Source(name, Plain(""), 5, history, [], [], [], [], Primary, None, "", 0, "", false, None, "")
  }

  function PlainMerge(ref: string, history: seq<int>, flag: Option<bool>): Merge {
    Merge([ref], [], history, [], 0, flag, None, "")
  }

  lemma PlainMergeUsable(ref: string, history: seq<int>, flag: Option<bool>)
    requires ref != "" && GoText.LeadSpace(ref) == 0 && GoText.TrailSpace(ref) == 0
    ensures MergeUsable(Some(PlainMerge(ref, history, flag))) && Refs(PlainMerge(ref, history, flag)) == [ref]
  {}

  /** A step whose parents have no positive window only clears history. */
  lemma EmptyStep(base: Sources, parents: set<string>)
    requires forall p :: p in parents && SourceAt(base, p).Some? ==> NoPositiveWindow(SourceAt(base, p).value)
    ensures Fits(base, parents) && WantedWindows(base, parents) == {} && Emits(base, {}, map[])
    ensures Expanded(base, parents, map[]) == WithoutHistory(base, parents)
  {}

  predicate NoPositiveWindow(s: Source) {
    FitsParent(s) && forall m :: m in s.history ==> m <= 0
  }

  function PhantomSources(): Sources {
    map["x" := Some(PlainSource("x", [0]))]
  }

  function PhantomMerges(): Merges {
    map["m" := Some(PlainMerge("x_0h", [], None))]
  }

  lemma PhantomMidway(windowed: Sources)
    requires windowed == map["x" := Some(PlainSource("x", []))]
    ensures UsableSoFar(windowed, PhantomMerges(), {"m"})
    ensures
      var merged := MergedSoFar(windowed, PhantomMerges(), 5, {"m"});
      && merged.Keys == {"x", "m"} && merged["x"] == windowed["x"]
      && merged["m"].Some? && merged["m"].value.history == [] && merged["m"].value.derivedFrom == ["x_0h"]
  {
    hide Allowed, CleanRefs, Refs;
    PlainMergeUsable("x_0h", [], None);
    MergeContents(windowed, PhantomMerges(), 5, "m");
    MergeContents(windowed, PhantomMerges(), 5, "x");
  }

  lemma PhantomAcyclic(after: Sources)
    requires after.Keys == {"x", "m"} && ParentsOf(after["x"]) == [] && ParentsOf(after["m"]) == ["x_0h"]
    ensures Acyclic(DerivedFrom(after))
  {
    RankedIsAcyclic(DerivedFrom(after), map["x" := 0, "x_0h" := 0, "m" := 1]);
  }

  lemma PhantomValidated()
    ensures ReferencesKnown(PhantomSources(), PhantomMerges())
  {
    hide HistoryLabel, CleanRefs, Refs;
    PlainMergeUsable("x_0h", [], None);
    ZeroLabel();
    assert 0 in PhantomSources()["x"].value.history;
    assert VariantName("x", 0) in WindowNames(PhantomSources());
  }

  lemma PhantomExpands() returns (after: Sources)
    ensures FullyExpanded(PhantomSources(), PhantomMerges(), 5, map[], map[], after)
    ensures after.Keys == {"x", "m"} && ParentsOf(after["m"]) == ["x_0h"]
  {
    hide Fits, Emits, Expanded, WantedWindows, MergedSoFar, UsableSoFar, Acyclic;
    var before, merges := PhantomSources(), PhantomMerges();
    assert ListedOnce([0]);
    EmptyStep(before, {"x"});
    var windowed := Expanded(before, {"x"}, map[]);
    assert windowed == map["x" := Some(PlainSource("x", []))];
    PhantomMidway(windowed);
    var merged := MergedSoFar(windowed, merges, 5, {"m"});
    EmptyStep(merged, {"m"});
    after := Expanded(merged, {"m"}, map[]);
    PhantomAcyclic(after);
    assert before.Keys == {"x"} && merges.Keys == {"m"};
  }

  /** Validation takes the name of a zero window for granted, the expander
      skips the window: the merge is left with an unknown parent. */
  lemma PhantomReference() returns (after: Sources)
    ensures ReferencesKnown(PhantomSources(), PhantomMerges())
    ensures FullyExpanded(PhantomSources(), PhantomMerges(), 5, map[], map[], after)
    ensures !ParentsKnown(PhantomSources(), after)
  {
    hide FullyExpanded, ReferencesKnown;
    PhantomValidated();
    after := PhantomExpands();
    assert ParentsOf(after["m"])[0] == "x_0h";
    assert |"x_0h"| == 4 && |GEO_ANONYMOUS| == |GEO_SATELLITE| == 9;
    assert "m" in after && "m" !in PhantomSources() && "x_0h" !in after.Keys + SyntheticNames(PhantomSources());
  }

  lemma ZeroLabel()
    ensures VariantName("x", 0) == "x_0h" && VariantName("a", 60) == "a_1h"
  {
    assert GoText.Decimal(0) == "0" && GoText.Decimal(1) == "1";
  }

  function ForbiddenMerges(): Merges {
    map["a" := Some(PlainMerge("x", [60], Some(false))), "b" := Some(PlainMerge("a_1h", [], None))]
  }

  function ForbiddenWindow(): Emission {
    map["a_1h" := Window("a", 60)]
  }

  lemma MergedKeys(before: Sources, merges: Merges, interval: int)
    requires UsableSoFar(before, merges, merges.Keys)
    ensures MergedSoFar(before, merges, interval, merges.Keys).Keys == before.Keys + merges.Keys
  {}

  /** Only `a` is forbidden: the reference of `b` is unknown to its flag. */
  lemma ForbiddenFlags()
    ensures Allowed(map[], ForbiddenMerges(), "b") && !Allowed(map[], ForbiddenMerges(), "a")
    ensures Refs(ForbiddenMerges()["b"].value) == ["a_1h"]
  {
    hide Allowed, CleanRefs, Refs;
    var ms := ForbiddenMerges();
    PlainMergeUsable("a_1h", [], None);
    FlagOfMerge(map[], ms, "a");
    AllowedStep(map[], ms, "a_1h");
    FlagOfMerge(map[], ms, "b");
  }

  lemma ForbiddenMidway()
    ensures UsableSoFar(map[], ForbiddenMerges(), {"a", "b"})
    ensures
      var merged := MergedSoFar(map[], ForbiddenMerges(), 5, {"a", "b"});
      && merged.Keys == {"a", "b"} && merged["a"].Some? && merged["b"].Some?
      && merged["a"].value.history == [60] && merged["b"].value.history == []
      && merged["a"].value.derivedFrom == ["x"] && merged["b"].value.derivedFrom == ["a_1h"]
        && merged["a"].value.use == []
  {
    hide Allowed, CleanRefs, Refs, MergedSoFar, EffectiveFlag;
    PlainMergeUsable("x", [60], Some(false));
    PlainMergeUsable("a_1h", [], None);
    assert ForbiddenMerges().Keys == {"a", "b"};
    MergedKeys(map[], ForbiddenMerges(), 5);
    MergeContents(map[], ForbiddenMerges(), 5, "a");
    MergeContents(map[], ForbiddenMerges(), 5, "b");
  }

  lemma ForbiddenStep(merged: Sources)
    requires merged.Keys == {"a", "b"} && merged["a"].Some? && merged["b"].Some?
    requires merged["a"].value.history == [60] && merged["b"].value.history == [] && merged["a"].value.use == []
    ensures Fits(merged, {"a", "b"}) && Emits(merged, WantedWindows(merged, {"a", "b"}), ForbiddenWindow())
  {
    ZeroLabel();
    assert ListedOnce([60]);
    var w := Window("a", 60);
    assert WantedWindows(merged, {"a", "b"}) == {w} by { assert 60 in merged["a"].value.history; }
    assert |"a_1h"| == 4;
  }

  lemma ForbiddenAcyclic(after: Sources)
    requires after.Keys == {"a", "b", "a_1h"}
    requires ParentsOf(after["a"]) == ["x"] && ParentsOf(after["b"]) == ["a_1h"] && ParentsOf(after["a_1h"]) == ["a"]
    ensures Acyclic(DerivedFrom(after))
  {
    RankedIsAcyclic(DerivedFrom(after), map["x" := 0, "a" := 1, "a_1h" := 2, "b" := 3]);
  }

  /** Unvalidated, a merge may read the window of a forbidden merge and still
      come out redistributable. */
  lemma WindowOfForbiddenMerge() returns (after: Sources)
    ensures FullyExpanded(map[], ForbiddenMerges(), 5, map[], ForbiddenWindow(), after)
    ensures !FlagsAreReachability(after, ForbiddenMerges())
  {
    hide Fits, Emits, WantedWindows, MergedSoFar, UsableSoFar, Acyclic, Allowed, FlagsAreReachability, MergeGraph;
    var ms := ForbiddenMerges();
    EmptyStep(map[], {});
    ForbiddenFlags();
    ForbiddenMidway();
    var merged := MergedSoFar(map[], ms, 5, {"a", "b"});
    ForbiddenStep(merged);
    after := Expanded(merged, {"a", "b"}, ForbiddenWindow());
    ForbiddenAcyclic(after);
    var none: Sources := map[];
    assert none.Keys == {} && ms.Keys == {"a", "b"} && WithoutHistory(none, {}) == none;
    FlagsExactlyWhenEmittedSafe(none, ms, 5, map[], ForbiddenWindow(), after);
    assert "a_1h" in Refs(ms["b"].value) && MergeAt(ms, "b").Some?;
  }
}
