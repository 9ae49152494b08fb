/** Expansion of curator sugar into plain sources (pkg/config/expand.go):
    retention windows, merges, effective redistributability, cycle check. */
module Expand {
  import opened Wrappers
  import opened Names
  import opened Catalog
  import opened Derivation
  import GoText

  datatype ExpandError =
    | NoFeedBody(feed: string)
    | VariantCollision(name: string)
    | NilMerge(name: string)
    | MergeCollision(name: string)
    | NoSources(name: string)
    | BadReferences(name: string)
    | RedistributionCycle(name: string)
    | DerivedCycle(cycles: seq<seq<string>>)

  // ------------------------------------------------------------------ labels

  /** Go's truncating division by 60, printed with %d. */
  function Hours(minutes: int): string {
    if minutes > -60 then GoText.Decimal(if minutes < 0 then 0 else minutes / 60)
    else "-" + GoText.Decimal((-minutes) / 60)
  }

  /** `HistoryLabel`, and its twin in the expander. */
  function HistoryLabel(minutes: int): string {
    if minutes >= 1440 then
      var days, rem := minutes / 1440, minutes % 1440;
      if rem == 0 then "_" + GoText.Decimal(days) + "d"
      else "_" + GoText.Decimal(days) + "d" + GoText.Decimal(rem / 60) + "h"
    else "_" + Hours(minutes) + "h"
  }

  function VariantName(parent: string, minutes: int): string {
    parent + HistoryLabel(minutes)
  }

  function WindowDays(minutes: int): int {
    if minutes <= 0 then 0 else if minutes >= 1440 && minutes % 1440 == 0 then minutes / 1440 else minutes
  }

  /** `sourceProducesIPSet`. */
  predicate ProducesIPSet(s: Source) {
    s.use == [] || "bogons" in s.use || "critical_infrastructure" in s.use || "provider_context" in s.use
  }

  // --------------------------------------------------------- what is emitted

  /** One retention window of one parent. */
  datatype Window = Window(parent: string, minutes: int)

  function Variant(w: Window, parent: Source): Source {
    parent.(name := VariantName(w.parent, w.minutes), url := RetentionWindow(w.parent, w.minutes), frequency := 0,
            history := [], derivedFrom := [w.parent], mergeSources := [], mergeExclude := [],
            provenance := SecondaryRetention, historyWindowDays := WindowDays(w.minutes), use := [],
            processor := "cat", acceptEmpty := true, critical := None, artifactParent := "")
  }

  /** `cleanMergeRefs`. */
  function CleanRefs(refs: seq<string>): seq<string> {
    if refs == [] then []
    else
      var ref := GoText.TrimSpace(refs[|refs| - 1]);
      CleanRefs(refs[..|refs| - 1]) + if ref != "" then [ref] else []
  }

  /** Every dependency of a merge, additive ones first. */
  function Refs(m: Merge): seq<string> {
    CleanRefs(m.sources) + CleanRefs(m.exclude)
  }

  predicate NoRepeats(refs: seq<string>) {
    forall i, j :: 0 <= i < j < |refs| ==> refs[i] != refs[j]
  }

  function ExpandedMerge(name: string, m: Merge, interval: int, flag: Option<bool>): Source {
    Source(name, Merged(CleanRefs(m.sources), CleanRefs(m.exclude)), if m.frequency <= 0 then interval else m.frequency,
           m.history, m.use, Refs(m), CleanRefs(m.sources), CleanRefs(m.exclude), SecondaryMerge, flag, "", 0,
           "cat", true, m.critical, m.rest)
  }

  // ------------------------------------------------ the result of each step

  function NameOf(w: Window): string {
    VariantName(w.parent, w.minutes)
  }

  /** The windows that expanding the given parents has to emit. */
  ghost function WantedWindows(sources: Sources, parents: set<string>): set<Window> {
    set p, m | p in parents && SourceAt(sources, p).Some? && m in SourceAt(sources, p).value.history && m > 0 ::
      Window(p, m)
  }

  type Emission = map<string, Window>

  /** Every wanted window has its own name, taken by no source. */
  ghost predicate Emits(sources: Sources, wanted: set<Window>, em: Emission) {
    && (forall n :: n in em ==> NameOf(em[n]) == n && em[n] in wanted && n !in sources)
    && (forall w :: w in wanted ==> NameOf(w) in em && em[NameOf(w)] == w)
  }

  /** No wanted window takes a source's name or another window's. */
  ghost predicate NamesFree(sources: Sources, wanted: set<Window>) {
    && (forall w :: w in wanted ==> NameOf(w) !in sources)
    && (forall w, v :: w in wanted && v in wanted && NameOf(w) == NameOf(v) ==> w == v)
  }

  predicate ListedOnce(history: seq<int>) {
    forall m | m in multiset(history) :: m > 0 ==> multiset(history)[m] == 1
  }

  /** What a retention step demands of its parents. */
  ghost predicate Fits(sources: Sources, parents: set<string>) {
    && NamesFree(sources, WantedWindows(sources, parents))
    && forall p :: p in parents && SourceAt(sources, p).Some? ==> FitsParent(SourceAt(sources, p).value)
  }

  predicate FitsParent(parent: Source) {
    parent.history == [] || (ProducesIPSet(parent) && ListedOnce(parent.history))
  }

  function Cleared(s: Option<Source>): Option<Source> {
    if s.Some? then Some(s.value.(history := [])) else None
  }

  function WithoutHistory(sources: Sources, parents: set<string>): Sources {
    map n | n in sources :: if n in parents then Cleared(sources[n]) else sources[n]
  }

  /** The variants of the emitted windows, cloned from their parents. */
  function VariantsOf(sources: Sources, em: Emission): Sources {
    map n | n in em && SourceAt(sources, em[n].parent).Some? ::
      Some(Variant(em[n], SourceAt(sources, em[n].parent).value))
  }

  function Expanded(sources: Sources, parents: set<string>, em: Emission): Sources {
    WithoutHistory(sources, parents) + VariantsOf(sources, em)
  }

  // ------------------------------------------------------ redistributability

  /** The merges as a graph over everything they refer to; a source shadows a
      merge of the same name. */
  ghost function MergeGraph(sources: Sources, merges: Merges): Graph {
    map n | n in merges && merges[n].Some? && SourceAt(sources, n).None? :: Refs(merges[n].value)
  }

  ghost predicate OwnFlagAllows(sources: Sources, merges: Merges, name: string) {
    if SourceAt(sources, name).Some? then Redistributable(SourceAt(sources, name).value)
    else MergeAt(merges, name).Some? ==> MergeAt(merges, name).value.redistributable != Some(false)
  }

  /** Everything reachable through sources and excludes allows redistribution. */
  ghost predicate Allowed(sources: Sources, merges: Merges, name: string) {
    forall p :: Walk(MergeGraph(sources, merges), p) && p[0] == name ==> OwnFlagAllows(sources, merges, p[|p| - 1])
  }

  /** Reachability, one reference at a time. */
  lemma AllowedStep(sources: Sources, merges: Merges, name: string)
    ensures Allowed(sources, merges, name) <==>
      OwnFlagAllows(sources, merges, name) &&
      forall ref :: Edge(MergeGraph(sources, merges), name, ref) ==> Allowed(sources, merges, ref)
  {
    hide OwnFlagAllows, MergeGraph, Edge;
    var g := MergeGraph(sources, merges);
    if Allowed(sources, merges, name) {
      assert Walk(g, [name]) && [name][|[name]| - 1] == name;
      forall ref, p | Edge(g, name, ref) && Walk(g, p) && p[0] == ref
        ensures OwnFlagAllows(sources, merges, p[|p| - 1])
      {
        PrependWalk(g, name, p);
        assert ([name] + p)[|[name] + p| - 1] == p[|p| - 1];
      }
    }
    if OwnFlagAllows(sources, merges, name) && forall ref :: Edge(g, name, ref) ==> Allowed(sources, merges, ref) {
      forall p | Walk(g, p) && p[0] == name ensures OwnFlagAllows(sources, merges, p[|p| - 1]) {
        if |p| > 1 {
          WalkParts(g, p);
          assert Allowed(sources, merges, p[1]) && p[1..][0] == p[1];
        }
      }
    }
  }

  /** `mergeRefRedistributable`; `None` is the cycle error. `visiting` is the
      map it pushes to and pops from. */
  function RefAllowed(sources: Sources, merges: Merges, ref: string, visiting: set<string>): Option<bool>
    decreases merges.Keys - visiting, 1, 0
  {
    if SourceAt(sources, ref).Some? then Some(Redistributable(SourceAt(sources, ref).value))
    else if MergeAt(merges, ref).None? then Some(true)
    else if ref in visiting then None
    else
      var m := MergeAt(merges, ref).value;
      if m.redistributable == Some(false) then Some(false)
      else RefsAllowed(sources, merges, Refs(m), visiting + {ref})
  }

  function RefsAllowed(sources: Sources, merges: Merges, refs: seq<string>, visiting: set<string>): Option<bool>
    decreases merges.Keys - visiting, 2, |refs|
  {
    if refs == [] then Some(true)
    else
      var first := RefAllowed(sources, merges, refs[0], visiting);
      if first != Some(true) then first else RefsAllowed(sources, merges, refs[1..], visiting)
  }

  /** Midway through merge expansion: the merges in `done` are sources already,
      with their effective flag, and nothing else has moved. */
  ghost predicate PartlyMoved(before: Sources, merges: Merges, now: Sources, done: set<string>) {
    && (forall n :: n !in done ==> SourceAt(now, n) == SourceAt(before, n))
    && (forall n :: n in done ==> n in merges && n !in before && SourceAt(now, n).Some?)
    && (forall n :: n in done ==> (Redistributable(SourceAt(now, n).value) <==> Allowed(before, merges, n)))
  }

  /** Whichever merges were already rewritten, a decided reference is decided
      as reachability in the original catalog says. */
  lemma {:induction false} RefAllowedMeans(before: Sources, merges: Merges, now: Sources, done: set<string>,
                                           ref: string, visiting: set<string>)
    requires PartlyMoved(before, merges, now, done)
    ensures
      var r := RefAllowed(now, merges, ref, visiting);
      r.Some? ==> (r.value <==> Allowed(before, merges, ref))
    decreases merges.Keys - visiting, 1, 0
  {
    AllowedStep(before, merges, ref);
    if ref !in done && SourceAt(before, ref).None? && MergeAt(merges, ref).Some? && ref !in visiting {
      RefsAllowedMeans(before, merges, now, done, Refs(MergeAt(merges, ref).value), visiting + {ref});
    }
  }

  lemma {:induction false} RefsAllowedMeans(before: Sources, merges: Merges, now: Sources, done: set<string>,
                                            refs: seq<string>, visiting: set<string>)
    requires PartlyMoved(before, merges, now, done)
    ensures
      var r := RefsAllowed(now, merges, refs, visiting);
      r.Some? ==> (r.value <==> forall ref :: ref in refs ==> Allowed(before, merges, ref))
    decreases merges.Keys - visiting, 2, |refs|
  {
    if refs != [] {
      RefAllowedMeans(before, merges, now, done, refs[0], visiting);
      RefsAllowedMeans(before, merges, now, done, refs[1..], visiting);
      assert forall ref :: ref in refs <==> ref == refs[0] || ref in refs[1..];
    }
  }

  /** The flag a merge leaves with. */
  function EffectiveFlag(allowed: bool, own: Option<bool>): Option<bool> {
    if !allowed then Some(false) else own
  }

  /** The source a merge turns into. */
  ghost function MovedMerge(before: Sources, merges: Merges, interval: int, n: string): Source
    requires MergeAt(merges, n).Some?
  {
    var m := merges[n].value;
    ExpandedMerge(n, m, interval, EffectiveFlag(Allowed(before, merges, n), m.redistributable))
  }

  /** The sources that merge expansion adds. */
  ghost function MergeSourcesOf(before: Sources, merges: Merges, interval: int, done: set<string>): Sources {
    map n | n in merges && n in done && merges[n].Some? :: Some(MovedMerge(before, merges, interval, n))
  }

  /** Everything a successful expansion does. */
  ghost predicate FullyExpanded(before: Sources, merges: Merges, interval: int, em1: Emission, em2: Emission,
                                after: Sources) {
    var windowed := Expanded(before, before.Keys, em1);
    var merged := MergedSoFar(windowed, merges, interval, merges.Keys);
    && Fits(before, before.Keys) && Emits(before, WantedWindows(before, before.Keys), em1)
    && UsableSoFar(windowed, merges, merges.Keys)
    && Fits(merged, merges.Keys) && Emits(merged, WantedWindows(merged, merges.Keys), em2)
    && after == Expanded(merged, merges.Keys, em2)
    && Acyclic(DerivedFrom(after))
  }

  // ---------------------------------------------------------- the expander

  ghost predicate SortedInts(s: seq<int>) {
    forall i, j :: 0 <= i < j < |s| ==> s[i] <= s[j]
  }

  lemma InsertKeepsOrder(s: seq<int>, i: nat, x: int)
    requires SortedInts(s) && i <= |s| && (i < |s| ==> x < s[i]) && (i > 0 ==> s[i - 1] <= x)
    ensures SortedInts(s[..i] + [x] + s[i..])
  {}

  method InsertInt(s: seq<int>, x: int) returns (t: seq<int>)
    requires SortedInts(s)
    ensures multiset(t) == multiset(s) + multiset{x} && SortedInts(t)
  {
    hide SortedInts;
    var i := 0;
    while i < |s| && s[i] <= x
      invariant i <= |s| && (i > 0 ==> s[i - 1] <= x)
    {
      i := i + 1;
    }
    InsertKeepsOrder(s, i, x);
    assert s == s[..i] + s[i..];
    t := s[..i] + [x] + s[i..];
  }

  /** `slices.Sort` on the windows. */
  method SortInts(h: seq<int>) returns (s: seq<int>)
    ensures multiset(s) == multiset(h) && SortedInts(s)
  {
    s := [];
    for k := 0 to |h|
      invariant multiset(s) == multiset(h[..k]) && SortedInts(s)
    {
      assert h[..k + 1] == h[..k] + [h[k]];
      s := InsertInt(s, h[k]);
    }
    assert h[..|h|] == h;
  }

  /** A retention step under way: `now` is the catalog after the windows in
      `got` were emitted, `cleared` the one without any of them. */
  ghost predicate Emitting(base: Sources, cleared: Sources, got: set<Window>, em: Emission, now: Sources) {
    && cleared.Keys == base.Keys
    && Emits(base, got, em)
    && (forall n :: n in em ==> SourceAt(base, em[n].parent).Some?)
    && now == cleared + VariantsOf(base, em)
  }

  lemma EmitsOneMore(base: Sources, got: set<Window>, em: Emission, w: Window)
    requires Emits(base, got, em) && NameOf(w) !in base && NameOf(w) !in em
    ensures Emits(base, got + {w}, em[NameOf(w) := w])
  {}

  lemma VariantsOneMore(base: Sources, em: Emission, w: Window, parent: Source)
    requires SourceAt(base, w.parent) == Some(parent)
    ensures VariantsOf(base, em[NameOf(w) := w]) == VariantsOf(base, em)[NameOf(w) := Some(Variant(w, parent))]
  {}

  lemma VariantNames(base: Sources, em: Emission)
    requires forall n :: n in em ==> SourceAt(base, em[n].parent).Some?
    ensures VariantsOf(base, em).Keys == em.Keys
  {
    hide Variant;
  }

  lemma EmittingOneMore(base: Sources, cleared: Sources, got: set<Window>, em: Emission, now: Sources, w: Window,
                        parent: Source)
    requires Emitting(base, cleared, got, em, now) && NameOf(w) !in now && SourceAt(base, w.parent) == Some(parent)
    ensures Emitting(base, cleared, got + {w}, em[NameOf(w) := w], now[NameOf(w) := Some(Variant(w, parent))])
  {
    hide Emits, VariantsOf, Variant, NameOf;
    VariantNames(base, em);
    EmitsOneMore(base, got, em, w);
    VariantsOneMore(base, em, w, parent);
  }

  /** Clearing the history of one more parent leaves the variants alone. */
  lemma EmittingCleared(base: Sources, done: set<string>, name: string, got: set<Window>, em: Emission, now: Sources)
    requires Emitting(base, WithoutHistory(base, done), got, em, now) && SourceAt(base, name).Some?
    ensures Emitting(base, WithoutHistory(base, done + {name}), got, em, now[name := Cleared(base[name])])
  {
    hide Cleared, WithoutHistory, VariantsOf;
    VariantNames(base, em);
    assert name !in em;
    ClearedOneMore(base, done, name);
  }

  lemma ClearedOneMore(base: Sources, done: set<string>, name: string)
    requires name in base
    ensures WithoutHistory(base, done + {name}) == WithoutHistory(base, done)[name := Cleared(base[name])]
    ensures WithoutHistory(base, done).Keys == base.Keys
  {}

  ghost predicate WindowsSoFar(name: string, minutes: seq<int>, got: set<Window>) {
    forall w :: w in got <==> w.parent == name && w.minutes in minutes && w.minutes > 0
  }

  lemma NoWindowYet(name: string)
    ensures WindowsSoFar(name, [], {}) && ListedOnce([])
  {}

  lemma OneMoreWindow(name: string, minutes: seq<int>, m: int, got: set<Window>)
    requires WindowsSoFar(name, minutes, got)
    ensures WindowsSoFar(name, minutes + [m], if m > 0 then got + {Window(name, m)} else got)
  {}

  /** Reading the sorted windows one further. */
  lemma PrefixHistory(base: Sources, name: string, parent: Source, windows: seq<int>, i: nat, got: set<Window>)
    requires SourceAt(base, name) == Some(parent) && multiset(windows) == multiset(parent.history)
    requires i < |windows| && WindowsSoFar(name, windows[..i], got) && ListedOnce(windows[..i])
    ensures windows[..i + 1] == windows[..i] + [windows[i]]
    ensures windows[i] > 0 ==>
      Window(name, windows[i]) in WantedWindows(base, {name}) && got <= WantedWindows(base, {name})
    ensures windows[i] > 0 && Window(name, windows[i]) in got ==> !ListedOnce(parent.history)
    ensures windows[i] > 0 && Window(name, windows[i]) !in got ==> ListedOnce(windows[..i + 1])
    ensures windows[i] <= 0 ==> ListedOnce(windows[..i + 1])
  {
    assert windows[..i + 1] == windows[..i] + [windows[i]];
    assert windows == windows[..i + 1] + windows[i + 1..];
    forall m ensures m in windows <==> m in parent.history {
      assert m in windows <==> m in multiset(windows);
      assert m in parent.history <==> m in multiset(parent.history);
    }
    assert multiset(windows)[windows[i]] >= multiset(windows[..i])[windows[i]] + 1;
    assert windows[i] in windows[..i] <==> windows[i] in multiset(windows[..i]);
  }

  lemma AllWindows(sources: Sources, name: string, parent: Source, sorted: seq<int>, got: set<Window>)
    requires SourceAt(sources, name) == Some(parent) && multiset(sorted) == multiset(parent.history)
    requires WindowsSoFar(name, sorted, got)
    ensures got == WantedWindows(sources, {name})
    ensures ListedOnce(sorted) ==> ListedOnce(parent.history)
  {
    forall m ensures m in sorted <==> m in parent.history {
      assert m in sorted <==> m in multiset(sorted);
      assert m in parent.history <==> m in multiset(parent.history);
    }
  }

  lemma OneMoreParent(base: Sources, done: set<string>, name: string)
    ensures WantedWindows(base, done + {name}) == WantedWindows(base, done) + WantedWindows(base, {name})
    ensures SourceAt(base, name).None? || SourceAt(base, name).value.history == [] ==>
      WantedWindows(base, {name}) == {} && WithoutHistory(base, done + {name}) == WithoutHistory(base, done)
  {}

  // ------------------------------------------------------------ merge step

  /** The cycle error is never a false alarm: every name being visited reaches
      the reference at hand, so meeting one again closes a walk. */
  lemma {:induction false} CycleErrorIsGenuine(before: Sources, merges: Merges, now: Sources, done: set<string>,
                                               ref: string, visiting: set<string>)
    requires PartlyMoved(before, merges, now, done)
    requires forall v :: v in visiting ==> Reaches(MergeGraph(before, merges), v, ref)
    requires RefAllowed(now, merges, ref, visiting).None?
    ensures !Acyclic(MergeGraph(before, merges))
    decreases merges.Keys - visiting, 1, 0
  {
    var g := MergeGraph(before, merges);
    assert ref !in done;
    if ref in visiting {
      var p :| Walk(g, p) && |p| >= 2 && p[0] == ref && p[|p| - 1] == ref;
      assert ClosedWalk(g, p);
    } else {
      var refs := Refs(MergeAt(merges, ref).value);
      forall v, r | v in visiting + {ref} && r in refs ensures Reaches(g, v, r) {
        if v == ref { EdgeReaches(g, ref, r); } else { ReachesOneMore(g, v, ref, r); }
      }
      CycleErrorsAreGenuine(before, merges, now, done, refs, visiting + {ref});
    }
  }

  lemma {:induction false} CycleErrorsAreGenuine(before: Sources, merges: Merges, now: Sources, done: set<string>,
      refs: seq<string>, visiting: set<string>)
    requires PartlyMoved(before, merges, now, done)
    requires forall v, r :: v in visiting && r in refs ==> Reaches(MergeGraph(before, merges), v, r)
    requires RefsAllowed(now, merges, refs, visiting).None?
    ensures !Acyclic(MergeGraph(before, merges))
    decreases merges.Keys - visiting, 2, |refs|
  {
    if RefAllowed(now, merges, refs[0], visiting).None? {
      CycleErrorIsGenuine(before, merges, now, done, refs[0], visiting);
    } else {
      CycleErrorsAreGenuine(before, merges, now, done, refs[1..], visiting);
    }
  }

  /** The flag of a merge, and the references it depends on. */
  lemma FlagOfMerge(before: Sources, merges: Merges, name: string)
    requires MergeAt(merges, name).Some? && SourceAt(before, name).None?
    ensures forall ref :: ref in Refs(merges[name].value) ==> Edge(MergeGraph(before, merges), name, ref)
    ensures Allowed(before, merges, name) <==>
      merges[name].value.redistributable != Some(false) &&
      forall ref :: ref in Refs(merges[name].value) ==> Allowed(before, merges, ref)
  {
    AllowedStep(before, merges, name);
    assert forall ref :: Edge(MergeGraph(before, merges), name, ref) <==> ref in Refs(merges[name].value);
  }

  ghost predicate UsableSoFar(before: Sources, merges: Merges, done: set<string>) {
    forall n :: n in done ==> n in merges && n !in before && MergeUsable(merges[n])
  }

  predicate MergeUsable(m: Option<Merge>) {
    m.Some? && CleanRefs(m.value.sources) != [] && NoRepeats(Refs(m.value))
  }

  /** The catalog after the merges in `done` were turned into sources. */
  ghost function MergedSoFar(before: Sources, merges: Merges, interval: int, done: set<string>): Sources {
    before + MergeSourcesOf(before, merges, interval, done)
  }

  lemma MovedOneMore(before: Sources, merges: Merges, interval: int, done: set<string>, name: string)
    requires MergeAt(merges, name).Some?
    ensures MergedSoFar(before, merges, interval, done + {name})
      == MergedSoFar(before, merges, interval, done)[name := Some(MovedMerge(before, merges, interval, name))]
  {
    hide MovedMerge;
    assert MergeSourcesOf(before, merges, interval, done + {name})
        == MergeSourcesOf(before, merges, interval, done)[name := Some(MovedMerge(before, merges, interval, name))];
  }

  lemma MovedSoFar(before: Sources, merges: Merges, interval: int, done: set<string>)
    requires UsableSoFar(before, merges, done)
    ensures PartlyMoved(before, merges, MergedSoFar(before, merges, interval, done), done)
  {
    var now := MergedSoFar(before, merges, interval, done);
    forall n | n in done
      ensures SourceAt(now, n).Some? && (Redistributable(SourceAt(now, n).value) <==> Allowed(before, merges, n))
    {
      FlagOfMerge(before, merges, n);
    }
  }

  // ------------------------------------------------- the whole expansion

  lemma EmitsUnique(sources: Sources, wanted: set<Window>, a: Emission, b: Emission)
    requires Emits(sources, wanted, a) && Emits(sources, wanted, b)
    ensures a == b
  {
    forall n ensures n in a <==> n in b {}
  }

  /** One retention step, name by name: nothing is overwritten, only the
      history of the parents is gone, and each window has its variant. */
  lemma StepContents(base: Sources, parents: set<string>, em: Emission, n: string)
    requires Emits(base, WantedWindows(base, parents), em)
    ensures
      var now := Expanded(base, parents, em);
      && (n in now <==> n in base || n in em)
      && !(n in base && n in em)
      && (n in base ==> now[n] == if n in parents then Cleared(base[n]) else base[n])
      && (n in em ==> em[n].parent in parents && SourceAt(base, em[n].parent).Some?)
      && (n in em ==> now[n] == Some(Variant(em[n], SourceAt(base, em[n].parent).value)))
  {}

  lemma MergeContents(before: Sources, merges: Merges, interval: int, n: string)
    requires UsableSoFar(before, merges, merges.Keys)
    ensures
      var now := MergedSoFar(before, merges, interval, merges.Keys);
      && (n in now <==> n in before || n in merges)
      && !(n in before && n in merges)
      && (n in before ==> now[n] == before[n])
      && (n in merges ==> merges[n].Some? && now[n] == Some(MovedMerge(before, merges, interval, n)))
  {}

  /** Lossless and exact: what every name of the expanded catalog holds, with
      no name claimed twice. */
  lemma ExpandedCatalog(before: Sources, merges: Merges, interval: int, em1: Emission, em2: Emission, after: Sources,
                        n: string)
    requires FullyExpanded(before, merges, interval, em1, em2, after)
    ensures n in after <==> n in before || n in em1 || n in merges || n in em2
    ensures n in before ==> n !in em1 && n !in merges && n !in em2
    ensures n in em1 ==> n !in merges && n !in em2
    ensures n in merges ==> n !in em2
    ensures n in before ==> after[n] == Cleared(before[n])
    ensures n in em1 ==> SourceAt(before, em1[n].parent).Some?
    ensures n in em1 ==> after[n] == Some(Variant(em1[n], before[em1[n].parent].value))
    ensures n in merges ==> merges[n].Some?
    ensures n in em2 ==> MergeAt(merges, em2[n].parent).Some?
    ensures
      var windowed := Expanded(before, before.Keys, em1);
      && (n in merges ==> after[n] == Some(MovedMerge(windowed, merges, interval, n).(history := [])))
      && (n in em2 ==> after[n] == Some(Variant(em2[n], MovedMerge(windowed, merges, interval, em2[n].parent))))
  {
    hide FullyExpanded, Emits, Expanded, MergedSoFar, WantedWindows, MovedMerge;
    var windowed := Expanded(before, before.Keys, em1);
    var merged := MergedSoFar(windowed, merges, interval, merges.Keys);
    Stages(before, merges, interval, em1, em2, after);
    StepContents(before, before.Keys, em1, n);
    MergeContents(windowed, merges, interval, n);
    StepContents(merged, merges.Keys, em2, n);
    if n in em2 { MergeContents(windowed, merges, interval, em2[n].parent); }
  }

  lemma Stages(before: Sources, merges: Merges, interval: int, em1: Emission, em2: Emission, after: Sources)
    requires FullyExpanded(before, merges, interval, em1, em2, after)
    ensures
      var windowed := Expanded(before, before.Keys, em1);
      var merged := MergedSoFar(windowed, merges, interval, merges.Keys);
      && Emits(before, WantedWindows(before, before.Keys), em1)
      && UsableSoFar(windowed, merges, merges.Keys)
      && Emits(merged, WantedWindows(merged, merges.Keys), em2)
      && after == Expanded(merged, merges.Keys, em2)
    ensures Fits(Midway(before, merges, interval, em1), merges.Keys) && Acyclic(DerivedFrom(after))
  {}

  /** Every reference between merges is a derivation in the expanded catalog. */
  lemma MergeGraphSurvives(before: Sources, merges: Merges, interval: int, em1: Emission, em2: Emission, after: Sources)
    requires FullyExpanded(before, merges, interval, em1, em2, after)
    ensures Acyclic(MergeGraph(Expanded(before, before.Keys, em1), merges))
  {
    hide FullyExpanded, Expanded, Allowed, Fits;
    var g, h := MergeGraph(Expanded(before, before.Keys, em1), merges), DerivedFrom(after);
    assert Acyclic(h) by { Stages(before, merges, interval, em1, em2, after); }
    forall n | n in g ensures n in h && h[n] == g[n] {
      ExpandedCatalog(before, merges, interval, em1, em2, after, n);
    }
    SubgraphAcyclic(g, h);
  }

  lemma ClosedWalkSurvives(g: Graph, h: Graph, p: seq<string>)
    requires (forall n :: n in g ==> n in h && h[n] == g[n]) && ClosedWalk(g, p)
    ensures ClosedWalk(h, p)
  {
    forall i | 0 <= i < |p| - 1 ensures Edge(h, p[i], p[i + 1]) { assert Edge(g, p[i], p[i + 1]); }
  }

  lemma SubgraphAcyclic(g: Graph, h: Graph)
    requires Acyclic(h) && forall n :: n in g ==> n in h && h[n] == g[n]
    ensures Acyclic(g)
  {
    forall p ensures !ClosedWalk(g, p) {
      if ClosedWalk(g, p) { ClosedWalkSurvives(g, h, p); }
    }
  }

  lemma SameEmission(before: Sources, merges: Merges, interval: int, em1: Emission, e1: Emission, e2: Emission,
                     after: Sources)
    requires Emits(before, WantedWindows(before, before.Keys), em1)
    requires FullyExpanded(before, merges, interval, e1, e2, after)
    ensures e1 == em1
  {
    hide Expanded, UsableSoFar, MergedSoFar, Acyclic, Fits;
    EmitsUnique(before, WantedWindows(before, before.Keys), em1, e1);
  }

  /** The catalog after both expansions, before the last retention step. */
  ghost function Midway(before: Sources, merges: Merges, interval: int, em1: Emission): Sources {
    MergedSoFar(Expanded(before, before.Keys, em1), merges, interval, merges.Keys)
  }

  /** A failure is never a false alarm: no other way through exists either. */
  lemma FailsAtMerges(before: Sources, merges: Merges, interval: int, em1: Emission)
    requires Emits(before, WantedWindows(before, before.Keys), em1)
    requires
      var windowed := Expanded(before, before.Keys, em1);
      !UsableSoFar(windowed, merges, merges.Keys) || !Acyclic(MergeGraph(windowed, merges))
    ensures forall e1, e2, after :: !FullyExpanded(before, merges, interval, e1, e2, after)
  {
    hide FullyExpanded, Emits, Expanded, UsableSoFar, Acyclic, MergeGraph;
    forall e1, e2, after ensures !FullyExpanded(before, merges, interval, e1, e2, after) {
      if FullyExpanded(before, merges, interval, e1, e2, after) {
        SameEmission(before, merges, interval, em1, e1, e2, after);
        Stages(before, merges, interval, e1, e2, after);
        MergeGraphSurvives(before, merges, interval, e1, e2, after);
      }
    }
  }

  lemma FailsAtMergeWindows(before: Sources, merges: Merges, interval: int, em1: Emission)
    requires Emits(before, WantedWindows(before, before.Keys), em1)
    requires !Fits(Midway(before, merges, interval, em1), merges.Keys)
    ensures forall e1, e2, after :: !FullyExpanded(before, merges, interval, e1, e2, after)
  {
    hide FullyExpanded, Emits, Expanded, MergedSoFar, Fits;
    forall e1, e2, after ensures !FullyExpanded(before, merges, interval, e1, e2, after) {
      if FullyExpanded(before, merges, interval, e1, e2, after) {
        SameEmission(before, merges, interval, em1, e1, e2, after);
        Stages(before, merges, interval, e1, e2, after);
      }
    }
  }

  lemma FailsAtCycles(before: Sources, merges: Merges, interval: int, em1: Emission, em2: Emission)
    requires Emits(before, WantedWindows(before, before.Keys), em1)
    requires Emits(Midway(before, merges, interval, em1),
      WantedWindows(Midway(before, merges, interval, em1), merges.Keys), em2)
    requires !Acyclic(DerivedFrom(Expanded(Midway(before, merges, interval, em1), merges.Keys, em2)))
    ensures forall e1, e2, after :: !FullyExpanded(before, merges, interval, e1, e2, after)
  {
    hide FullyExpanded, Emits, Expanded, MergedSoFar, Fits, Acyclic, DerivedFrom;
    forall e1, e2, after ensures !FullyExpanded(before, merges, interval, e1, e2, after) {
      if FullyExpanded(before, merges, interval, e1, e2, after) {
        SameEmission(before, merges, interval, em1, e1, e2, after);
        Stages(before, merges, interval, e1, e2, after);
        EmitsUnique(Midway(before, merges, interval, em1),
          WantedWindows(Midway(before, merges, interval, em1), merges.Keys), em2, e2);
      }
    }
  }

  /** The catalog being expanded in place. */
  class Config {
    var sources: Sources
    var merges: Merges
    const interval: int

    constructor (s: Sources, m: Merges, processingInterval: int)
      ensures sources == s && merges == m && interval == processingInterval
    {
      sources, merges, interval := s, m, processingInterval;
    }

    /** One positive window of a parent, unless its name is taken. */
    method EmitWindow(w: Window, parent: Source, ghost base: Sources, ghost cleared: Sources,
                      ghost before: set<Window>, ghost em0: Emission)
      returns (err: Option<ExpandError>, ghost em: Emission)
      requires Emitting(base, cleared, before, em0, sources) && SourceAt(base, w.parent) == Some(parent)
      modifies this`sources
      ensures err.None? ==> Emitting(base, cleared, before + {w}, em, sources) && w !in before
      ensures err.Some? ==> w in before || forall wanted :: before <= wanted && w in wanted ==> !NamesFree(base, wanted)
    {
      em, err := em0, None;
      assert VariantsOf(base, em).Keys == em.Keys;
      if NameOf(w) in sources {
        forall wanted | before <= wanted && w in wanted ensures !NamesFree(base, wanted) || w in before {}
        return Some(VariantCollision(NameOf(w))), em;
      }
      EmittingOneMore(base, cleared, before, em, sources, w, parent);
      em := em[NameOf(w) := w];
      sources := sources[NameOf(w) := Some(Variant(w, parent))];
    }

    /** The windows of one parent, sorted; the first taken name stops it. */
    method EmitWindows(name: string, parent: Source, ghost base: Sources, ghost cleared: Sources,
                       ghost before: set<Window>, ghost em0: Emission)
      returns (err: Option<ExpandError>, ghost em: Emission)
      requires Emitting(base, cleared, before, em0, sources) && SourceAt(base, name) == Some(parent)
      requires forall w :: w in before ==> w.parent != name
      modifies this`sources
      ensures err.None? ==> Emitting(base, cleared, before + WantedWindows(base, {name}), em, sources)
      ensures err.None? ==> ListedOnce(parent.history)
      ensures err.Some? && ListedOnce(parent.history) ==> !NamesFree(base, before + WantedWindows(base, {name}))
    {
      hide *;
      em := em0;
      var windows := SortInts(parent.history);
      ghost var got: set<Window> := {};
      assert before + got == before;
      NoWindowYet(name);
      assert windows[..0] == [];
      for i := 0 to |windows|
        invariant WindowsSoFar(name, windows[..i], got) && ListedOnce(windows[..i])
        invariant Emitting(base, cleared, before + got, em, sources)
      {
        OneMoreWindow(name, windows[..i], windows[i], got);
        PrefixHistory(base, name, parent, windows, i, got);
        if windows[i] > 0 {
          ghost var w := Window(name, windows[i]);
          assert before + got + {w} == before + (got + {w});
          err, em := EmitWindow(Window(name, windows[i]), parent, base, cleared, before + got, em);
          if err.Some? {
            return;
          }
          got := got + {w};
        }
      }
      assert windows[..|windows|] == windows;
      AllWindows(base, name, parent, windows, got);
      err := None;
    }

    /** One parent: emit its windows, then consume its history. */
    method ExpandParent(name: string, ghost base: Sources, ghost done: set<string>, ghost em0: Emission)
      returns (err: Option<ExpandError>, ghost em: Emission)
      requires Emitting(base, WithoutHistory(base, done), WantedWindows(base, done), em0, sources)
      requires name in base && name !in done
      modifies this`sources
      ensures err.None? ==>
        Emitting(base, WithoutHistory(base, done + {name}), WantedWindows(base, done + {name}), em, sources)
      ensures err.None? && base[name].Some? ==> FitsParent(base[name].value)
      ensures err.Some? ==> !Fits(base, done + {name})
    {
      em, err := em0, None;
      var parent := SourceAt(sources, name);
      assert parent == SourceAt(base, name) by { assert name !in em0; }
      OneMoreParent(base, done, name);
      if parent.None? || |parent.value.history| == 0 {
        assert WantedWindows(base, done) + {} == WantedWindows(base, done);
        return;
      }
      if !ProducesIPSet(parent.value) {
        return Some(NoFeedBody(name)), em;
      }
      err, em := EmitWindows(name, parent.value, base, WithoutHistory(base, done), WantedWindows(base, done), em);
      if err.None? {
        EmittingCleared(base, done, name, WantedWindows(base, done + {name}), em, sources);
        sources := sources[name := Some(parent.value.(history := []))];
      }
    }

    /** `expandRetentionWindows`. */
    method ExpandRetentionWindows(names: seq<string>, ghost parents: set<string>)
      returns (err: Option<ExpandError>, ghost em: Emission)
      requires Increasing(names) && (forall n :: n in names <==> n in parents) && parents <= sources.Keys
      modifies this`sources
      ensures err.None? <==> Fits(old(sources), parents)
      ensures err.None? ==> Emits(old(sources), WantedWindows(old(sources), parents), em)
      ensures err.None? ==> sources == Expanded(old(sources), parents, em)
    {
      ghost var base := sources;
      ghost var done: set<string> := {};
      em := map[];
      assert WithoutHistory(base, {}) == base && VariantsOf(base, map[]) == map[];
      for i := 0 to |names|
        invariant forall n :: n in done <==> n in names[..i]
        invariant Emitting(base, WithoutHistory(base, done), WantedWindows(base, done), em, sources)
        invariant forall p :: p in done && SourceAt(base, p).Some? ==> FitsParent(SourceAt(base, p).value)
      {
        assert names[..i + 1] == names[..i] + [names[i]];
        assert names[i] in names && names[i] !in done;
        assert done + {names[i]} <= parents;
        err, em := ExpandParent(names[i], base, done, em);
        if err.Some? {
          return;
        }
        done := done + {names[i]};
      }
      assert names[..|names|] == names && done == parents;
      err := None;
    }

    /** `effectiveMergeRedistributable`; `None` is its cycle error. */
    method EffectiveMergeRedistributable(name: string, m: Merge, ghost before: Sources, ghost done: set<string>)
      returns (flag: Option<Option<bool>>)
      requires PartlyMoved(before, merges, sources, done) && name !in done
      requires MergeAt(merges, name) == Some(m) && SourceAt(before, name).None?
      ensures flag.Some? ==> flag.value == EffectiveFlag(Allowed(before, merges, name), m.redistributable)
      ensures flag.None? ==> !Acyclic(MergeGraph(before, merges))
    {
      hide Allowed, PartlyMoved, MergeGraph, RefAllowed, Acyclic, Reaches, Edge;
      var allowed := m.redistributable != Some(false);
      var refs := CleanRefs(m.sources) + CleanRefs(m.exclude);
      FlagOfMerge(before, merges, name);
      for i := 0 to |refs|
        invariant allowed <==> m.redistributable != Some(false) && forall j :: 0 <= j < i ==>
          Allowed(before, merges, refs[j])
      {
        var ref := RefAllowed(sources, merges, refs[i], {name});
        RefAllowedMeans(before, merges, sources, done, refs[i], {name});
        if ref.None? {
          EdgeReaches(MergeGraph(before, merges), name, refs[i]);
          CycleErrorIsGenuine(before, merges, sources, done, refs[i], {name});
          return None;
        }
        if !ref.value {
          allowed := false;
        }
      }
      assert allowed <==> Allowed(before, merges, name);
      flag := Some(if !allowed then Some(false) else m.redistributable);
    }

    /** One merge becomes a source. */
    method ExpandMerge(name: string, ghost before: Sources, ghost done: set<string>) returns (err: Option<ExpandError>)
      requires UsableSoFar(before, merges, done) && sources == MergedSoFar(before, merges, interval, done)
      requires name in merges && name !in done
      modifies this`sources
      ensures err.None? ==> UsableSoFar(before, merges, done + {name})
      ensures err.None? ==> sources == MergedSoFar(before, merges, interval, done + {name})
      ensures err.Some? ==> name in before || !MergeUsable(merges[name]) || !Acyclic(MergeGraph(before, merges))
    {
      if merges[name].None? {
        return Some(NilMerge(name));
      }
      var m := merges[name].value;
      if name in sources {
        return Some(MergeCollision(name));
      }
      if |CleanRefs(m.sources)| == 0 {
        return Some(NoSources(name));
      }
      var distinct := ValidateSignedMergeRefs(CleanRefs(m.sources), CleanRefs(m.exclude));
      if !distinct {
        return Some(BadReferences(name));
      }
      MovedSoFar(before, merges, interval, done);
      var flag := EffectiveMergeRedistributable(name, m, before, done);
      if flag.None? {
        return Some(RedistributionCycle(name));
      }
      MovedOneMore(before, merges, interval, done, name);
      sources := sources[name := Some(ExpandedMerge(name, m, interval, flag.value))];
      err := None;
    }

    method ExpandMerges(names: seq<string>) returns (err: Option<ExpandError>)
      requires Increasing(names) && forall n :: n in names <==> n in merges.Keys
      modifies this`sources
      ensures err.None? ==> UsableSoFar(old(sources), merges, merges.Keys)
      ensures err.None? ==> sources == MergedSoFar(old(sources), merges, interval, merges.Keys)
      ensures err.Some? ==>
        !UsableSoFar(old(sources), merges, merges.Keys) || !Acyclic(MergeGraph(old(sources), merges))
    {
      ghost var before := sources;
      ghost var done: set<string> := {};
      assert MergeSourcesOf(before, merges, interval, {}) == map[];
      for i := 0 to |names|
        invariant forall n :: n in done <==> n in names[..i]
        invariant UsableSoFar(before, merges, done)
        invariant sources == MergedSoFar(before, merges, interval, done)
      {
        assert names[..i + 1] == names[..i] + [names[i]];
        assert names[i] in names && names[i] !in done;
        err := ExpandMerge(names[i], before, done);
        if err.Some? {
          return;
        }
        done := done + {names[i]};
      }
      assert names[..|names|] == names && done == merges.Keys;
      err := None;
    }

    /** `ExpandDerivatives`: it succeeds exactly when the catalog has an
        expansion, and leaves it. */
    method Expand() returns (err: Option<ExpandError>, ghost em1: Emission, ghost em2: Emission)
      modifies this
      ensures err.None? ==> merges == map[] && FullyExpanded(old(sources), old(merges), interval, em1, em2, sources)
      ensures err.Some? ==> forall e1, e2, after :: !FullyExpanded(old(sources), old(merges), interval, e1, e2, after)
    {
      hide Expanded, MergedSoFar, Fits, Emits, UsableSoFar, Acyclic, DerivedFrom, WantedWindows, MergeGraph;
      ghost var before, ms := sources, merges;
      em1, em2 := map[], map[];
      var sourceNames := SortedKeys(sources.Keys);
      err, em1 := ExpandRetentionWindows(sourceNames, sources.Keys);
      if err.Some? {
        return;
      }
      ghost var windowed := sources;
      var mergeNames := SortedKeys(merges.Keys);
      err := ExpandMerges(mergeNames);
      if err.Some? {
        FailsAtMerges(before, ms, interval, em1);
        return;
      }
      merges := map[];
      MergesAreSources(windowed, ms, interval);
      err, em2 := ExpandRetentionWindows(mergeNames, ms.Keys);
      if err.Some? {
        FailsAtMergeWindows(before, ms, interval, em1);
        return;
      }
      var cycles, rank := DetectCycles(DerivedFrom(sources));
      if cycles != [] {
        FailsAtCycles(before, ms, interval, em1, em2);
        return Some(DerivedCycle(cycles)), em1, em2;
      }
      err := None;
    }
  }

  lemma MergesAreSources(windowed: Sources, merges: Merges, interval: int)
    requires UsableSoFar(windowed, merges, merges.Keys)
    ensures merges.Keys <= MergedSoFar(windowed, merges, interval, merges.Keys).Keys
  {}

  ghost predicate SeenAll(seen: set<string>, refs: seq<string>) {
    NoRepeats(refs) && forall r :: r in seen <==> r in refs
  }

  /** One more reference: new, or the repetition of an earlier one. */
  lemma SeeOneMore(seen: set<string>, all: seq<string>, i: nat)
    requires i < |all| && SeenAll(seen, all[..i])
    ensures all[i] !in seen ==> SeenAll(seen + {all[i]}, all[..i + 1])
    ensures all[i] in seen ==> !NoRepeats(all)
  {
    assert all[..i + 1] == all[..i] + [all[i]];
    if all[i] in seen {
      var j :| 0 <= j < i && all[..i][j] == all[i];
      assert all[j] == all[i];
    }
  }

  /** `validateSignedMergeRefs`: no reference twice, within or across the lists. */
  method ValidateSignedMergeRefs(sources: seq<string>, exclude: seq<string>) returns (ok: bool)
    ensures ok <==> NoRepeats(sources + exclude)
  {
    ghost var all := sources + exclude;
    var seenSources: set<string> := {};
    assert SeenAll(seenSources, all[..0]);
    hide SeenAll, NoRepeats;
    for i := 0 to |sources|
      invariant SeenAll(seenSources, all[..i])
    {
      SeeOneMore(seenSources, all, i);
      if sources[i] in seenSources {
        return false;
      }
      seenSources := seenSources + {sources[i]};
    }
    var seenExclude: set<string> := {};
    assert seenSources + seenExclude == seenSources;
    for i := 0 to |exclude|
      invariant SeenAll(seenSources + seenExclude, all[..|sources| + i])
    {
      SeeOneMore(seenSources + seenExclude, all, |sources| + i);
      assert all[|sources| + i] == exclude[i];
      if exclude[i] in seenExclude || exclude[i] in seenSources {
        return false;
      }
      assert seenSources + seenExclude + {exclude[i]} == seenSources + (seenExclude + {exclude[i]});
      seenExclude := seenExclude + {exclude[i]};
    }
    assert all[..|all|] == all;
    ok := true;
  }

}
