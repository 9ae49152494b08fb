/** Which catalogs the expander accepts, said of the catalog as the curator
    wrote it (pkg/config/expand.go:55-168): no helper of the expansion and no
    half-expanded catalog is needed to tell. */
module Expandability {
  import opened Wrappers
  import opened Catalog
  import opened Derivation
  import opened Expand
  import opened CatalogMeaning
  import GoText

  // ------------------------------------------------------------- the condition

  /** Windows are for feeds with a body, and no positive window comes twice. */
  ghost predicate HistoryFits(use: seq<string>, history: seq<int>) {
    history != [] ==>
      && (use == [] || exists r :: r in use && r in {"bogons", "critical_infrastructure", "provider_context"})
      && forall i, j :: 0 <= i < j < |history| && history[i] == history[j] ==> history[i] <= 0
  }

  /** Some additive reference is not blank, and no reference comes twice. */
  ghost predicate ReferencesFit(m: Merge) {
    && (exists k :: 0 <= k < |m.sources| && GoText.TrimSpace(m.sources[k]) != "")
    && DistinctRefs(m.sources + m.exclude)
  }

  ghost predicate DistinctRefs(refs: seq<string>) {
    forall i, j :: 0 <= i < j < |refs| && GoText.TrimSpace(refs[i]) == GoText.TrimSpace(refs[j]) ==>
      GoText.TrimSpace(refs[i]) == ""
  }

  /** What a name is made from: the parents of a source, the parent of a window,
      the references of a merge. */
  ghost predicate MadeFrom(before: Sources, merges: Merges, a: string, b: string) {
    || (SourceAt(before, a).Some? && b in before[a].value.derivedFrom)
    || (exists m :: Asked(before, merges, b, m) && a == VariantName(b, m))
    || (MergeAt(merges, a).Some? && IsRef(merges[a].value.sources + merges[a].value.exclude, b))
  }

  ghost predicate IsRef(refs: seq<string>, b: string) {
    b != "" && exists k :: 0 <= k < |refs| && GoText.TrimSpace(refs[k]) == b
  }

  ghost predicate Circular(before: Sources, merges: Merges, p: seq<string>) {
    |p| >= 2 && p[0] == p[|p| - 1] && forall i :: 0 <= i < |p| - 1 ==> MadeFrom(before, merges, p[i], p[i + 1])
  }

  ghost predicate WindowsNamed(before: Sources, merges: Merges) {
    && (forall p, m :: Asked(before, merges, p, m) ==> VariantName(p, m) !in before.Keys + merges.Keys)
    && (forall p, m, q, k ::
          Asked(before, merges, p, m) && Asked(before, merges, q, k) && VariantName(p, m) == VariantName(q, k)
          ==> p == q && m == k)
  }

  ghost predicate SourceFits(s: Option<Source>) {
    s.Some? ==> HistoryFits(s.value.use, s.value.history)
  }

  ghost predicate MergeFits(before: Sources, n: string, m: Option<Merge>) {
    m.Some? && n !in before && ReferencesFit(m.value) && HistoryFits(m.value.use, m.value.history)
  }

  /** Everything but the cycles. */
  ghost predicate WellWritten(before: Sources, merges: Merges) {
    && (forall n :: n in before ==> SourceFits(before[n]))
    && (forall n :: n in merges ==> MergeFits(before, n, merges[n]))
    && WindowsNamed(before, merges)
  }

  ghost predicate Expandable(before: Sources, merges: Merges) {
    WellWritten(before, merges) && forall p :: !Circular(before, merges, p)
  }

  // --------------------------------------------------------------- the pieces

  lemma {:induction false} TwiceListed(h: seq<int>, x: int)
    ensures multiset(h)[x] >= 2 <==> exists i, j :: 0 <= i < j < |h| && h[i] == h[j] == x
  {
    if h != [] {
      var n := |h| - 1;
      var init := h[..n];
      assert h == init + [h[n]];
      TwiceListed(init, x);
      if multiset(h)[x] >= 2 && multiset(init)[x] < 2 {
        assert h[n] == x && x in multiset(init);
        var i :| 0 <= i < |init| && init[i] == x;
        assert h[i] == x;
      }
      if i, j :| 0 <= i < j < |h| && h[i] == h[j] == x {
        if j == n { assert init[i] == x && x in multiset(init); } else { assert init[i] == init[j] == x; }
      }
      if i, j :| 0 <= i < j < |init| && init[i] == init[j] == x {
        assert h[i] == h[j] == x;
      }
    }
  }

  lemma ListedOnceMeans(h: seq<int>)
    ensures ListedOnce(h) <==> forall i, j :: 0 <= i < j < |h| && h[i] == h[j] ==> h[i] <= 0
  {
    if ListedOnce(h) {
      forall i, j | 0 <= i < j < |h| && h[i] == h[j] ensures h[i] <= 0 {
        TwiceListed(h, h[i]);
        assert h[i] in multiset(h);
      }
    }
    if forall i, j :: 0 <= i < j < |h| && h[i] == h[j] ==> h[i] <= 0 {
      forall m | m in multiset(h) ensures m > 0 ==> multiset(h)[m] == 1 { TwiceListed(h, m); }
    }
  }

  lemma FitsParentMeans(s: Source)
    ensures FitsParent(s) <==> HistoryFits(s.use, s.history)
  {
    ListedOnceMeans(s.history);
    hide ListedOnce;
  }

  lemma RepeatsMean(refs: seq<string>, out: seq<string>, picks: seq<nat>)
    requires PicksOf(refs, out, picks)
    ensures NoRepeats(out) <==> DistinctRefs(refs)
  {
    hide GoText.TrimSpace;
    if !DistinctRefs(refs) {
      var i, j :| 0 <= i < j < |refs| && GoText.TrimSpace(refs[i]) == GoText.TrimSpace(refs[j]) != "";
      assert i in picks && j in picks;
      var a, b :| 0 <= a < |picks| && 0 <= b < |picks| && picks[a] == i && picks[b] == j;
      assert out[a] == out[b] && a < b;
    }
    if DistinctRefs(refs) {
      forall a, b | 0 <= a < b < |out| ensures out[a] != out[b] {
        assert picks[a] in picks && picks[b] in picks && picks[a] < picks[b];
      }
    }
  }

  lemma {:induction false} CleanRefsConcat(a: seq<string>, b: seq<string>)
    ensures CleanRefs(a + b) == CleanRefs(a) + CleanRefs(b)
  {
    hide GoText.TrimSpace;
    if b == [] {
      assert a + b == a && CleanRefs(a) + [] == CleanRefs(a);
    } else {
      var init, last := b[..|b| - 1], b[|b| - 1];
      assert (a + b)[..|a + b| - 1] == a + init;
      CleanRefsConcat(a, init);
      var t := GoText.TrimSpace(last);
      var more := if t != "" then [t] else [];
      assert CleanRefs(a) + CleanRefs(init) + more == CleanRefs(a) + (CleanRefs(init) + more);
    }
  }

  lemma UsableMeans(m: Merge)
    ensures MergeUsable(Some(m)) <==> ReferencesFit(m)
    ensures forall b :: b in Refs(m) <==> IsRef(m.sources + m.exclude, b)
  {
    hide GoText.TrimSpace, CleanRefs;
    CleanRefsConcat(m.sources, m.exclude);
    var picks := CleanRefsCleans(m.sources + m.exclude);
    var own := CleanRefsCleans(m.sources);
    RepeatsMean(m.sources + m.exclude, Refs(m), picks);
    assert Cleaned(m.sources, CleanRefs(m.sources)) && Cleaned(m.sources + m.exclude, Refs(m));
    hide PicksOf, Cleaned, NoRepeats, DistinctRefs;
    SomeRef(m.sources);
    forall b ensures b in Refs(m) <==> IsRef(m.sources + m.exclude, b) {
      CleanedMembers(m.sources + m.exclude, Refs(m), b);
    }
  }

  lemma SomeRef(refs: seq<string>)
    requires Cleaned(refs, CleanRefs(refs))
    ensures CleanRefs(refs) != [] <==> exists k :: 0 <= k < |refs| && GoText.TrimSpace(refs[k]) != ""
  {
    hide GoText.TrimSpace, Cleaned;
    var out := CleanRefs(refs);
    if out != [] {
      CleanedMembers(refs, out, out[0]);
    }
    if k :| 0 <= k < |refs| && GoText.TrimSpace(refs[k]) != "" {
      CleanedMembers(refs, out, GoText.TrimSpace(refs[k]));
    }
  }

  // -------------------------------------------------------- the two emissions

  ghost function WindowNamed(wanted: set<Window>, n: string): Window
    requires n in (set w | w in wanted :: NameOf(w))
  {
    var w :| w in wanted && NameOf(w) == n; w
  }

  ghost function EmissionFor(wanted: set<Window>): Emission {
    var names := set w | w in wanted :: NameOf(w);
    map n | n in names :: WindowNamed(wanted, n)
  }

  lemma EmissionExists(base: Sources, wanted: set<Window>)
    requires NamesFree(base, wanted)
    ensures Emits(base, wanted, EmissionFor(wanted))
  {}

  lemma SourceWindows(before: Sources, merges: Merges, w: Window)
    ensures w in WantedWindows(before, before.Keys)
      <==> Asked(before, merges, w.parent, w.minutes) && SourceAt(before, w.parent).Some?
  {}

  /** The merges as they stand when their own windows are emitted. */
  lemma MergeWindowsWanted(before: Sources, merges: Merges, interval: int, em1: Emission, w: Window)
    requires Emits(before, WantedWindows(before, before.Keys), em1)
    requires UsableSoFar(Expanded(before, before.Keys, em1), merges, merges.Keys)
    ensures w in WantedWindows(Midway(before, merges, interval, em1), merges.Keys)
      <==> Asked(before, merges, w.parent, w.minutes) && MergeAt(merges, w.parent).Some?
    ensures w.parent in merges ==> SourceAt(before, w.parent).None?
  {
    hide Expanded, MergedSoFar, CleanRefs, MergeUsable, Allowed;
    var windowed := Expanded(before, before.Keys, em1);
    MergeContents(windowed, merges, interval, w.parent);
    StepContents(before, before.Keys, em1, w.parent);
  }

  // ------------------------------------------------------------- both directions

  /** All stages of an expansion but the check for cycles. */
  ghost predicate Built(before: Sources, merges: Merges, interval: int, em1: Emission, em2: Emission) {
    var merged := Midway(before, merges, interval, em1);
    && Fits(before, before.Keys) && Emits(before, WantedWindows(before, before.Keys), em1)
    && UsableSoFar(Expanded(before, before.Keys, em1), merges, merges.Keys)
    && Fits(merged, merges.Keys) && Emits(merged, WantedWindows(merged, merges.Keys), em2)
  }

  ghost function Result(before: Sources, merges: Merges, interval: int, em1: Emission, em2: Emission): Sources {
    Expanded(Midway(before, merges, interval, em1), merges.Keys, em2)
  }

  lemma BuiltAndAcyclic(before: Sources, merges: Merges, interval: int, em1: Emission, em2: Emission, after: Sources)
    ensures FullyExpanded(before, merges, interval, em1, em2, after) <==>
      && Built(before, merges, interval, em1, em2)
      && after == Result(before, merges, interval, em1, em2) && Acyclic(DerivedFrom(after))
  {
    hide Fits, Emits, Expanded, UsableSoFar, MergedSoFar, WantedWindows, Acyclic;
  }

  lemma FitsMeans(sources: Sources, parents: set<string>)
    ensures Fits(sources, parents) <==>
      && NamesFree(sources, WantedWindows(sources, parents))
      && forall p :: p in parents ==> SourceFits(SourceAt(sources, p))
  {
    hide NamesFree, WantedWindows, HistoryFits, FitsParent;
    forall p | p in parents && SourceAt(sources, p).Some?
      ensures FitsParent(sources[p].value)
        <==> HistoryFits(sources[p].value.use, sources[p].value.history)
    {
      FitsParentMeans(sources[p].value);
    }
  }

  /** The first stage accepts the sources and their windows. */
  lemma SourcesStage(before: Sources, merges: Merges)
    requires WellWritten(before, merges)
    ensures Fits(before, before.Keys)
    ensures Emits(before, WantedWindows(before, before.Keys), EmissionFor(WantedWindows(before, before.Keys)))
  {
    hide SourceFits, MergeFits, Asked;
    var wanted := WantedWindows(before, before.Keys);
    forall w ensures w in wanted <==> Asked(before, merges, w.parent, w.minutes) && SourceAt(before, w.parent).Some? {
      SourceWindows(before, merges, w);
    }
    hide WantedWindows, VariantName;
    forall w | w in wanted ensures NameOf(w) !in before {
      assert VariantName(w.parent, w.minutes) !in before.Keys + merges.Keys;
    }
    EmissionExists(before, wanted);
    FitsMeans(before, before.Keys);
  }

  /** The second one the merges. */
  lemma MergesStage(before: Sources, merges: Merges, em1: Emission)
    requires WellWritten(before, merges) && Emits(before, WantedWindows(before, before.Keys), em1)
    ensures UsableSoFar(Expanded(before, before.Keys, em1), merges, merges.Keys)
  {
    hide SourceFits, Asked, HistoryFits, WantedWindows, MergeUsable, ReferencesFit, VariantName, Expanded;
    forall n | n in merges ensures n !in Expanded(before, before.Keys, em1) && MergeUsable(merges[n]) {
      assert MergeFits(before, n, merges[n]);
      UsableMeans(merges[n].value);
      StepContents(before, before.Keys, em1, n);
      EmittedForSource(before, merges, em1, n);
    }
  }

  lemma EmittedForSource(before: Sources, merges: Merges, em1: Emission, n: string)
    requires WellWritten(before, merges) && Emits(before, WantedWindows(before, before.Keys), em1)
    ensures n in em1 ==>
      && Asked(before, merges, em1[n].parent, em1[n].minutes) && SourceAt(before, em1[n].parent).Some?
      && n == VariantName(em1[n].parent, em1[n].minutes) && n !in before.Keys + merges.Keys
  {
    hide SourceFits, MergeFits, VariantName, Asked;
    if n in em1 { SourceWindows(before, merges, em1[n]); }
  }

  /** And the third one their windows. */
  lemma MergeWindowsStage(before: Sources, merges: Merges, interval: int, em1: Emission)
    requires WellWritten(before, merges) && Emits(before, WantedWindows(before, before.Keys), em1)
    requires UsableSoFar(Expanded(before, before.Keys, em1), merges, merges.Keys)
    ensures Fits(Midway(before, merges, interval, em1), merges.Keys)
  {
    var merged := Midway(before, merges, interval, em1);
    var wanted := WantedWindows(merged, merges.Keys);
    hide SourceFits, Asked, HistoryFits, MergeUsable, ReferencesFit, VariantName, WantedWindows, UsableSoFar, Midway,
         Expanded;
    forall w | w in wanted
      ensures Asked(before, merges, w.parent, w.minutes) && SourceAt(before, w.parent).None? && NameOf(w) !in merged
    {
      MergeWindowsWanted(before, merges, interval, em1, w);
      assert VariantName(w.parent, w.minutes) !in before.Keys + merges.Keys;
      MergedNames(before, merges, interval, em1, NameOf(w));
      EmittedForSource(before, merges, em1, NameOf(w));
    }
    forall p | p in merges ensures SourceFits(SourceAt(merged, p)) {
      assert MergeFits(before, p, merges[p]);
      MergedKeepsHistory(before, merges, interval, em1, p);
    }
    FitsMeans(merged, merges.Keys);
  }

  lemma MergedNames(before: Sources, merges: Merges, interval: int, em1: Emission, n: string)
    requires Emits(before, WantedWindows(before, before.Keys), em1)
    requires UsableSoFar(Expanded(before, before.Keys, em1), merges, merges.Keys)
    ensures n in Midway(before, merges, interval, em1) <==> n in before || n in em1 || n in merges
    ensures n in merges ==> n !in before && n !in em1
  {
    hide MovedMerge, MergeUsable;
    MergeContents(Expanded(before, before.Keys, em1), merges, interval, n);
    StepContents(before, before.Keys, em1, n);
    hide Expanded, MergedSoFar;
  }

  lemma MergedKeepsHistory(before: Sources, merges: Merges, interval: int, em1: Emission, n: string)
    requires UsableSoFar(Expanded(before, before.Keys, em1), merges, merges.Keys) && n in merges
    requires MergeAt(merges, n).Some? && HistoryFits(merges[n].value.use, merges[n].value.history)
    ensures SourceFits(SourceAt(Midway(before, merges, interval, em1), n))
  {
    hide Expanded, MergeUsable, HistoryFits, Allowed, CleanRefs, MergedSoFar;
    MergeContents(Expanded(before, before.Keys, em1), merges, interval, n);
  }

  /** Conversely, what gets through all stages is well written. */
  lemma BuiltIsWellWritten(before: Sources, merges: Merges, interval: int, em1: Emission, em2: Emission)
    requires Built(before, merges, interval, em1, em2)
    ensures WellWritten(before, merges)
  {
    hide Fits, Emits, Expanded, UsableSoFar, Midway, WantedWindows, SourceFits, MergeFits, Asked, VariantName;
    FitsMeans(before, before.Keys);
    forall n | n in before ensures SourceFits(before[n]) { assert SourceFits(SourceAt(before, n)); }
    forall n | n in merges ensures MergeFits(before, n, merges[n]) {
      BuiltMerge(before, merges, interval, em1, em2, n);
    }
    forall p, m | Asked(before, merges, p, m)
      ensures VariantName(p, m) !in before.Keys + merges.Keys
    {
      BuiltWindow(before, merges, interval, em1, em2, p, m);
    }
    forall p, m, q, k |
      Asked(before, merges, p, m) && Asked(before, merges, q, k) && VariantName(p, m) == VariantName(q, k)
      ensures p == q && m == k
    {
      BuiltWindow(before, merges, interval, em1, em2, p, m);
      BuiltWindow(before, merges, interval, em1, em2, q, k);
    }
  }

  lemma BuiltMerge(before: Sources, merges: Merges, interval: int, em1: Emission, em2: Emission, n: string)
    requires Built(before, merges, interval, em1, em2) && n in merges
    ensures MergeFits(before, n, merges[n])
  {
    var merged := Midway(before, merges, interval, em1);
    hide Emits, WantedWindows, HistoryFits, ReferencesFit, Allowed, CleanRefs, NoRepeats, MergedSoFar;
    UsableMeans(merges[n].value);
    FitsMeans(merged, merges.Keys);
    assert SourceFits(SourceAt(merged, n));
    StepContents(before, before.Keys, em1, n);
    MergeContents(Expanded(before, before.Keys, em1), merges, interval, n);
    hide Expanded, NamesFree, Fits;
  }

  /** An asked window is emitted in one of the two steps, under a name of its
      own. */
  lemma BuiltWindow(before: Sources, merges: Merges, interval: int, em1: Emission, em2: Emission, p: string, m: int)
    requires Built(before, merges, interval, em1, em2) && Asked(before, merges, p, m)
    ensures
      var n, w := VariantName(p, m), Window(p, m);
      && n !in before.Keys + merges.Keys
      && (SourceAt(before, p).Some? ==> n in em1 && em1[n] == w && n !in em2)
      && (SourceAt(before, p).None? ==> n in em2 && em2[n] == w && n !in em1)
  {
    var n, w := VariantName(p, m), Window(p, m);
    SourceWindows(before, merges, w);
    MergeWindowsWanted(before, merges, interval, em1, w);
    MergedNames(before, merges, interval, em1, n);
    assert NameOf(w) == n;
    hide Fits, Expanded, UsableSoFar, Midway, WantedWindows, VariantName;
  }

  /** The derivations of the result are those the catalog asks for. */
  lemma DerivationsMatch(before: Sources, merges: Merges, interval: int, em1: Emission, em2: Emission, a: string,
                         b: string)
    requires Built(before, merges, interval, em1, em2)
    ensures Edge(DerivedFrom(Result(before, merges, interval, em1, em2)), a, b) <==> MadeFrom(before, merges, a, b)
  {
    hide Built, Result, Asked, VariantName, Refs, IsRef, DerivedFrom;
    ResultContents(before, merges, interval, em1, em2, a);
    WindowOf(before, merges, interval, em1, em2, a, b);
    if MergeAt(merges, a).Some? { UsableMeans(merges[a].value); }
  }

  /** The name of a window tells its parent. */
  lemma WindowOf(before: Sources, merges: Merges, interval: int, em1: Emission, em2: Emission, a: string, b: string)
    requires Built(before, merges, interval, em1, em2)
    ensures (exists m :: Asked(before, merges, b, m) && a == VariantName(b, m))
      <==> (a in em1 && em1[a].parent == b) || (a in em2 && em2[a].parent == b)
  {
    hide Built, VariantName, Asked;
    AskedEmission(before, merges, interval, em1, em2, a);
    if m :| Asked(before, merges, b, m) && a == VariantName(b, m) {
      BuiltWindow(before, merges, interval, em1, em2, b, m);
    }
  }

  lemma AskedEmission(before: Sources, merges: Merges, interval: int, em1: Emission, em2: Emission, a: string)
    requires Built(before, merges, interval, em1, em2)
    ensures a in em1 ==>
      Asked(before, merges, em1[a].parent, em1[a].minutes) && a == VariantName(em1[a].parent, em1[a].minutes)
    ensures a in em2 ==>
      Asked(before, merges, em2[a].parent, em2[a].minutes) && a == VariantName(em2[a].parent, em2[a].minutes)
  {
    if a in em1 { SourceWindows(before, merges, em1[a]); }
    if a in em2 { MergeWindowsWanted(before, merges, interval, em1, em2[a]); }
    hide Fits, Expanded, UsableSoFar, Midway, WantedWindows, VariantName, Asked;
  }

  /** What a name of the result is derived from. */
  lemma ResultContents(before: Sources, merges: Merges, interval: int, em1: Emission, em2: Emission, a: string)
    requires Built(before, merges, interval, em1, em2)
    ensures
      var g := DerivedFrom(Result(before, merges, interval, em1, em2));
      && (a in g <==> a in before || a in em1 || a in merges || a in em2)
      && (a in before ==> a !in em1 && a !in merges && a !in em2 && g[a] == ParentsOf(before[a]))
      && (a in em1 ==> a !in merges && a !in em2 && g[a] == [em1[a].parent])
      && (a in merges ==> merges[a].Some? && a !in em2 && g[a] == Refs(merges[a].value))
      && (a in em2 ==> g[a] == [em2[a].parent])
  {
    hide Fits, Emits, Expanded, MergedSoFar, WantedWindows, CleanRefs, Allowed, UsableSoFar, VariantName;
    var windowed, merged := Expanded(before, before.Keys, em1), Midway(before, merges, interval, em1);
    StepContents(before, before.Keys, em1, a);
    MergeContents(windowed, merges, interval, a);
    StepContents(merged, merges.Keys, em2, a);
  }

  lemma SameCircles(before: Sources, merges: Merges, interval: int, em1: Emission, em2: Emission)
    requires Built(before, merges, interval, em1, em2)
    ensures Acyclic(DerivedFrom(Result(before, merges, interval, em1, em2)))
      <==> forall p :: !Circular(before, merges, p)
  {
    hide Built, Result, MadeFrom, Edge, DerivedFrom;
    var g := DerivedFrom(Result(before, merges, interval, em1, em2));
    forall a, b ensures Edge(g, a, b) <==> MadeFrom(before, merges, a, b) {
      DerivationsMatch(before, merges, interval, em1, em2, a, b);
    }
    forall p ensures ClosedWalk(g, p) <==> Circular(before, merges, p) {}
  }

  // ------------------------------------------------------------- main result

  /** A catalog can be expanded if and only if windows are asked of feeds with a
      body and never twice, every merge has something to add, repeats nothing and
      takes no feed's name, every window gets a name of its own, and nothing is
      made from itself. */
  lemma ExpandsExactlyWhen(before: Sources, merges: Merges, interval: int)
    ensures Expandable(before, merges)
      <==> exists e1, e2, after :: FullyExpanded(before, merges, interval, e1, e2, after)
  {
    hide WellWritten, Built, Circular, Acyclic, FullyExpanded, Result;
    if Expandable(before, merges) {
      SourcesStage(before, merges);
      var em1 := EmissionFor(WantedWindows(before, before.Keys));
      MergesStage(before, merges, em1);
      MergeWindowsStage(before, merges, interval, em1);
      var em2 := SecondEmission(before, merges, interval, em1);
      SameCircles(before, merges, interval, em1, em2);
      BuiltAndAcyclic(before, merges, interval, em1, em2, Result(before, merges, interval, em1, em2));
    }
    if e1, e2, after :| FullyExpanded(before, merges, interval, e1, e2, after) {
      BuiltAndAcyclic(before, merges, interval, e1, e2, after);
      BuiltIsWellWritten(before, merges, interval, e1, e2);
      SameCircles(before, merges, interval, e1, e2);
    }
  }

  lemma SecondEmission(before: Sources, merges: Merges, interval: int, em1: Emission) returns (em2: Emission)
    requires Fits(before, before.Keys) && Emits(before, WantedWindows(before, before.Keys), em1)
    requires UsableSoFar(Expanded(before, before.Keys, em1), merges, merges.Keys)
    requires Fits(Midway(before, merges, interval, em1), merges.Keys)
    ensures Built(before, merges, interval, em1, em2)
  {
    hide Emits, Expanded, UsableSoFar, WantedWindows, NamesFree;
    var merged := Midway(before, merges, interval, em1);
    EmissionExists(merged, WantedWindows(merged, merges.Keys));
    em2 := EmissionFor(WantedWindows(merged, merges.Keys));
  }

  /** The expander succeeds on exactly these catalogs. */
  method ExpandCatalog(sources: Sources, merges: Merges, interval: int) returns (c: Config, err: Option<ExpandError>)
    ensures err.None? <==> Expandable(sources, merges)
    ensures err.None? ==> exists e1, e2 :: FullyExpanded(sources, merges, interval, e1, e2, c.sources)
  {
    hide FullyExpanded, Expandable;
    c := new Config(sources, merges, interval);
    ghost var em1, em2;
    err, em1, em2 := c.Expand();
    ExpandsExactlyWhen(sources, merges, interval);
  }
}
