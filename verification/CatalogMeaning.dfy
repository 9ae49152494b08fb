/** What the expanded catalog means to those who read it: signed merges, their
    retention windows, window names, who is enabled in the end, and
    who is asked for a change (pkg/config/expand.go; enabled_state.go and
    effective_entry.go of pkg/engine). */
module CatalogMeaning {
  import opened Wrappers
  import opened Catalog
  import opened Expand
  import opened Expansion
  import GoText
  import E = Enablement
  import L = LastChange
  import D = Derivation
  import UpstreamTime

  // -------------------------------------------------------- cleaned references

  /** `out` is what is left of `refs` after trimming, in order: `picks` are the
      positions of the references that are not blank. */
  ghost predicate PicksOf(refs: seq<string>, out: seq<string>, picks: seq<nat>) {
    && |picks| == |out|
    && (forall i, j :: 0 <= i < j < |picks| ==> picks[i] < picks[j])
    && (forall i :: 0 <= i < |picks| ==> picks[i] < |refs| && out[i] == GoText.TrimSpace(refs[picks[i]]))
    && (forall k :: 0 <= k < |refs| ==> (GoText.TrimSpace(refs[k]) != "" <==> k in picks))
  }

  ghost predicate Cleaned(refs: seq<string>, out: seq<string>) {
    exists picks :: PicksOf(refs, out, picks)
  }

  lemma {:induction false} CleanRefsCleans(refs: seq<string>) returns (picks: seq<nat>)
    ensures PicksOf(refs, CleanRefs(refs), picks)
  {
    hide GoText.TrimSpace, PicksOf;
    if refs == [] {
      picks := [];
      NothingPicked();
    } else {
      var n := |refs| - 1;
      picks := CleanRefsCleans(refs[..n]);
      PickOneMore(refs[..n], CleanRefs(refs[..n]), picks, refs[n]);
      assert refs[..n] + [refs[n]] == refs && CleanRefs(refs[..n]) + [] == CleanRefs(refs[..n]);
      picks := picks + if GoText.TrimSpace(refs[n]) != "" then [n] else [];
    }
  }

  lemma NothingPicked()
    ensures PicksOf([], [], [])
  {}

  lemma PickOneMore(refs: seq<string>, out: seq<string>, picks: seq<nat>, ref: string)
    requires PicksOf(refs, out, picks)
    ensures
      var t := GoText.TrimSpace(ref);
      PicksOf(refs + [ref], out + (if t != "" then [t] else []), picks + if t != "" then [|refs|] else [])
  {
    hide GoText.TrimSpace;
    var all := refs + [ref];
    assert forall k :: 0 <= k < |refs| ==> all[k] == refs[k];
    forall i | 0 <= i < |picks| ensures picks[i] < |refs| { assert picks[i] in picks; }
    if GoText.TrimSpace(ref) == "" {
      assert out + [] == out && picks + [] == picks && |refs| !in picks;
    }
  }

  /** Cleaning loses no reference and makes none up. */
  lemma CleanedMembers(refs: seq<string>, out: seq<string>, r: string)
    requires Cleaned(refs, out)
    ensures r in out <==> r != "" && exists k :: 0 <= k < |refs| && GoText.TrimSpace(refs[k]) == r
  {
    hide GoText.TrimSpace;
    var picks :| PicksOf(refs, out, picks);
    if r in out {
      var i :| 0 <= i < |out| && out[i] == r;
      assert picks[i] in picks;
    }
    if r != "" && exists k :: 0 <= k < |refs| && GoText.TrimSpace(refs[k]) == r {
      var k :| 0 <= k < |refs| && GoText.TrimSpace(refs[k]) == r;
      var i :| 0 <= i < |picks| && picks[i] == k;
      assert out[i] == r;
    }
  }

  // ---------------------------------------------------------------- the merges

  /** Adding and subtracting stay apart: the additive references are the
      curator's sources, the subtracted ones the excludes, each trimmed and in
      order, and no reference is both, or twice the same. */
  ghost predicate SignsKept(m: Merge, s: Source) {
    && Cleaned(m.sources, s.mergeSources) && s.mergeSources != []
    && Cleaned(m.exclude, s.mergeExclude)
    && s.url == Merged(s.mergeSources, s.mergeExclude)
    && s.derivedFrom == s.mergeSources + s.mergeExclude
    && forall i, j :: 0 <= i < j < |s.derivedFrom| ==> s.derivedFrom[i] != s.derivedFrom[j]
  }

  ghost predicate MergeBody(n: string, m: Merge, interval: int, s: Source) {
    && s.name == n && s.provenance == SecondaryMerge && s.artifactParent == ""
    && s.frequency == (if m.frequency > 0 then m.frequency else interval)
    && s.history == [] && s.historyWindowDays == 0 && s.processor == "cat" && s.acceptEmpty
    && s.use == m.use && s.critical == m.critical && s.rest == m.rest
    && (s.redistributable == m.redistributable || s.redistributable == Some(false))
  }

  lemma MergeMeaning(before: Sources, merges: Merges, interval: int, em1: Emission, em2: Emission, after: Sources,
                     n: string)
    requires FullyExpanded(before, merges, interval, em1, em2, after) && n in merges
    ensures MergeAt(merges, n).Some? && SourceAt(after, n).Some?
    ensures SignsKept(merges[n].value, after[n].value) && MergeBody(n, merges[n].value, interval, after[n].value)
  {
    hide FullyExpanded, Expanded, Allowed, GoText.TrimSpace, CleanRefs;
    ExpandedCatalog(before, merges, interval, em1, em2, after, n);
    var m := merges[n].value;
    var p := CleanRefsCleans(m.sources);
    var q := CleanRefsCleans(m.exclude);
    MergeIsUsable(before, merges, interval, em1, em2, after, n);
    assert Cleaned(m.sources, CleanRefs(m.sources)) && Cleaned(m.exclude, CleanRefs(m.exclude));
    hide PicksOf, Cleaned;
  }

  lemma MergeIsUsable(before: Sources, merges: Merges, interval: int, em1: Emission, em2: Emission, after: Sources,
                      n: string)
    requires FullyExpanded(before, merges, interval, em1, em2, after) && n in merges
    ensures MergeUsable(merges[n])
  {
    hide FullyExpanded, Expanded, MergeUsable, Fits, MergedSoFar, WantedWindows;
    Stages(before, merges, interval, em1, em2, after);
  }

  // --------------------------------------------------------------- the windows

  /** A window the curator asked for, of a source or of a merge. */
  ghost predicate Asked(before: Sources, merges: Merges, p: string, m: int) {
    m > 0 && (if SourceAt(before, p).Some? then m in before[p].value.history
              else MergeAt(merges, p).Some? && m in merges[p].value.history)
  }

  /** A window is derived from its parent alone, and keeps what it does not set. */
  ghost predicate WindowBody(p: string, m: int, parent: Source, s: Source) {
    && s.name == VariantName(p, m) && s.url == RetentionWindow(p, m) && s.derivedFrom == [p]
    && s.mergeSources == [] && s.mergeExclude == [] && s.provenance == SecondaryRetention && s.artifactParent == ""
    && s.frequency == 0 && s.history == [] && s.use == [] && s.processor == "cat" && s.acceptEmpty
    && s.critical.None? && s.redistributable == parent.redistributable && s.rest == parent.rest
    && (m % 1440 == 0 ==> s.historyWindowDays * 1440 == m) && (m % 1440 != 0 ==> s.historyWindowDays == m)
  }

  lemma WindowMeaning(before: Sources, merges: Merges, interval: int, em1: Emission, em2: Emission, after: Sources,
                      p: string, m: int)
    requires FullyExpanded(before, merges, interval, em1, em2, after) && Asked(before, merges, p, m)
    ensures SourceAt(after, p).Some? && SourceAt(after, VariantName(p, m)).Some?
    ensures WindowBody(p, m, after[p].value, after[VariantName(p, m)].value)
  {
    hide FullyExpanded, Expanded, Allowed, HistoryLabel;
    var n := VariantName(p, m);
    ExpandedCatalog(before, merges, interval, em1, em2, after, p);
    ExpandedCatalog(before, merges, interval, em1, em2, after, n);
    EmittedAreWanted(before, merges, interval, em1, em2, after);
    MergeWindowsEmitted(before, merges, interval, em1, em2, after);
    if SourceAt(before, p).Some? {
      assert Window(p, m) in WantedWindows(before, before.Keys) && NameOf(Window(p, m)) == n;
      assert em1[n] == Window(p, m);
    } else {
      assert MergeWindow(merges, p, m);
      assert em2[n] == Window(p, m);
    }
    DaysOfWindow(m);
  }

  lemma DaysOfWindow(m: int)
    requires m > 0
    ensures m % 1440 == 0 ==> WindowDays(m) * 1440 == m
    ensures m % 1440 != 0 ==> WindowDays(m) == m
  {}

  // ----------------------------------------------------------- window names

  /** The whole days and hours a label shows; a whole number of days shows no
      hours, which sets it apart from the rest of its first hour. */
  ghost predicate SameHour(m: int, k: int) {
    m / 60 == k / 60 && (m >= 1440 && m % 1440 == 0 <==> k >= 1440 && k % 1440 == 0)
  }

  lemma UnitEndsNumber(a: nat, x: string, b: nat, y: string)
    requires x != "" && y != "" && !GoText.IsDigit(x[0]) && !GoText.IsDigit(y[0])
    requires GoText.Decimal(a) + x == GoText.Decimal(b) + y
    ensures a == b && x == y
  {
    var s := GoText.Decimal(a) + x;
    GoText.DecimalDigits(a);
    GoText.DecimalDigits(b);
    var i, j := |GoText.Decimal(a)|, |GoText.Decimal(b)|;
    hide GoText.Decimal, GoText.DigitsValue;
    assert s[i] == x[0] && s[j] == y[0];
    assert forall k :: 0 <= k < i ==> s[k] == GoText.Decimal(a)[k];
    assert forall k :: 0 <= k < j ==> s[k] == GoText.Decimal(b)[k];
    assert i == j;
    assert GoText.Decimal(a) == s[..i] == GoText.Decimal(b) && x == s[i..] == y;
  }

  /** What follows the first number of a label. */
  function Unit(m: nat): string {
    if m < 1440 then "h" else if m % 1440 == 0 then "d" else "d" + GoText.Decimal(m % 1440 / 60) + "h"
  }

  function FirstNumber(m: nat): nat {
    if m < 1440 then m / 60 else m / 1440
  }

  lemma LabelParts(m: nat)
    ensures HistoryLabel(m) == "_" + (GoText.Decimal(FirstNumber(m)) + Unit(m))
    ensures Unit(m) != "" && !GoText.IsDigit(Unit(m)[0])
  {
    hide GoText.Decimal;
  }

  /** Two windows of a feed get the same name if and only if they show the same
      days and hours: minutes are dropped. */
  lemma LabelsTellHours(m: nat, k: nat)
    ensures HistoryLabel(m) == HistoryLabel(k) <==> SameHour(m, k)
  {
    hide HistoryLabel, GoText.Decimal;
    LabelParts(m);
    LabelParts(k);
    if HistoryLabel(m) == HistoryLabel(k) {
      assert HistoryLabel(m)[1..] == HistoryLabel(k)[1..];
      UnitEndsNumber(FirstNumber(m), Unit(m), FirstNumber(k), Unit(k));
      UnitsTell(m, k);
    }
    if SameHour(m, k) { SameHourSameUnit(m, k); }
  }

  lemma UnitsTell(m: nat, k: nat)
    requires Unit(m) == Unit(k) && FirstNumber(m) == FirstNumber(k)
    ensures SameHour(m, k)
  {
    SameKind(m, k);
    hide Unit;
    HoursAdd(m);
    HoursAdd(k);
  }

  lemma SameKind(m: nat, k: nat)
    requires Unit(m) == Unit(k)
    ensures m < 1440 <==> k < 1440
    ensures m >= 1440 ==> (m % 1440 == 0 <==> k % 1440 == 0) && m % 1440 / 60 == k % 1440 / 60
  {
    UnitKind(m);
    UnitKind(k);
    if m >= 1440 && m % 1440 != 0 {
      var x, y := m % 1440 / 60, k % 1440 / 60;
      hide GoText.Decimal, Unit;
      assert GoText.Decimal(x) + "h" == Unit(m)[1..] == Unit(k)[1..] == GoText.Decimal(y) + "h";
      UnitEndsNumber(x, "h", y, "h");
    }
  }

  lemma UnitKind(m: nat)
    ensures m < 1440 ==> Unit(m) == "h"
    ensures m >= 1440 ==> Unit(m)[0] == 'd' && (|Unit(m)| == 1 <==> m % 1440 == 0)
    ensures m >= 1440 && m % 1440 != 0 ==> Unit(m)[1..] == GoText.Decimal(m % 1440 / 60) + "h"
  {
    hide GoText.Decimal;
  }

  lemma HoursAdd(m: nat)
    ensures m / 60 == 24 * (m / 1440) + m % 1440 / 60
  {}

  lemma SameHourSameUnit(m: nat, k: nat)
    requires SameHour(m, k)
    ensures Unit(m) == Unit(k) && FirstNumber(m) == FirstNumber(k)
  {
    hide GoText.Decimal;
    HoursAdd(m);
    HoursAdd(k);
    assert m / 1440 == k / 1440 && m % 1440 / 60 == k % 1440 / 60;
  }

  /** A feed that lists two windows within the same hour cannot be expanded. */
  lemma SameHourCollides(before: Sources, merges: Merges, interval: int, em1: Emission, em2: Emission, after: Sources,
                         p: string, m: int, k: int)
    requires Asked(before, merges, p, m) && Asked(before, merges, p, k) && m != k && SameHour(m, k)
    ensures !FullyExpanded(before, merges, interval, em1, em2, after)
  {
    if FullyExpanded(before, merges, interval, em1, em2, after) {
      hide FullyExpanded, HistoryLabel;
      LabelsTellHours(m, k);
      WindowMeaning(before, merges, interval, em1, em2, after, p, m);
      WindowMeaning(before, merges, interval, em1, em2, after, p, k);
    }
  }

  /** The names of windows in use. */
  lemma UsualLabels()
    ensures HistoryLabel(360) == "_6h" && HistoryLabel(1440) == "_1d" && HistoryLabel(2160) == "_1d12h"
    ensures HistoryLabel(10080) == "_7d" && HistoryLabel(43200) == "_30d"
  {
    assert GoText.Decimal(3) == "3" && GoText.Decimal(1) == "1";
    assert GoText.Decimal(30) == "30" && GoText.Decimal(12) == "12";
  }

  // -------------------------------------------------------------- enablement

  ghost predicate MarkedOn(w: E.World, n: string) {
    w.enableAll || n in w.markers
  }

  /** An expanded merge is on exactly when it is marked and one of the curator's
      additive references is on. What it subtracts never counts. */
  lemma MergeOnWhen(before: Sources, merges: Merges, interval: int, em1: Emission, em2: Emission, w: E.World,
                    n: string)
    requires FullyExpanded(before, merges, interval, em1, em2, w.sources) && n in merges
    ensures MergeAt(merges, n).Some?
    ensures E.IsOn(w, n) <==>
      MarkedOn(w, n) && exists k :: (
        && 0 <= k < |merges[n].value.sources|
        && GoText.TrimSpace(merges[n].value.sources[k]) != ""
        && E.IsOn(w, GoText.TrimSpace(merges[n].value.sources[k])))
  {
    MergeMeaning(before, merges, interval, em1, em2, w.sources, n);
    hide FullyExpanded, Cleaned, GoText.TrimSpace, E.IsOn;
    var s := w.sources[n].value;
    E.MergeFeedOn(w, n);
    forall q
      ensures q in s.mergeSources <==>
        q != "" && exists k :: 0 <= k < |merges[n].value.sources| && GoText.TrimSpace(merges[n].value.sources[k]) == q
    {
      CleanedMembers(merges[n].value.sources, s.mergeSources, q);
    }
  }

  /** A retention window is on exactly when it is marked and its parent is on. */
  lemma WindowOnWhen(before: Sources, merges: Merges, interval: int, em1: Emission, em2: Emission, w: E.World,
                     p: string, m: int)
    requires FullyExpanded(before, merges, interval, em1, em2, w.sources) && Asked(before, merges, p, m)
    ensures E.IsOn(w, VariantName(p, m)) <==> MarkedOn(w, VariantName(p, m)) && E.IsOn(w, p)
  {
    hide FullyExpanded, HistoryLabel, E.IsOn;
    WindowMeaning(before, merges, interval, em1, em2, w.sources, p, m);
    E.WindowFeedOn(w, VariantName(p, m));
  }

  // -------------------------------------------------------------- last change

  /** A merge answers for all its references: what it subtracts can change it as
      much as what it adds, although it cannot enable it. */
  lemma MergeAsksAll(before: Sources, merges: Merges, interval: int, em1: Emission, em2: Emission, w: L.World,
                     n: string, r: string)
    requires FullyExpanded(before, merges, interval, em1, em2, w.sources) && n in merges
    ensures MergeAt(merges, n).Some?
    ensures D.Edge(L.Edges(w), n, r) <==>
      && n != "" && r != ""
      && ((exists k :: 0 <= k < |merges[n].value.sources| && GoText.TrimSpace(merges[n].value.sources[k]) == r)
          || exists k :: 0 <= k < |merges[n].value.exclude| && GoText.TrimSpace(merges[n].value.exclude[k]) == r)
  {
    MergeMeaning(before, merges, interval, em1, em2, w.sources, n);
    UpstreamTime.WhoIsAsked(w, n, r);
    hide FullyExpanded, Cleaned, GoText.TrimSpace, L.Edges, D.Edge;
    var s := w.sources[n].value;
    CleanedMembers(merges[n].value.sources, s.mergeSources, r);
    CleanedMembers(merges[n].value.exclude, s.mergeExclude, r);
  }

  lemma WindowAsksParent(before: Sources, merges: Merges, interval: int, em1: Emission, em2: Emission, w: L.World,
                         p: string, m: int, r: string)
    requires FullyExpanded(before, merges, interval, em1, em2, w.sources) && Asked(before, merges, p, m)
    ensures D.Edge(L.Edges(w), VariantName(p, m), r) <==> r == p
  {
    hide FullyExpanded;
    LabelParts(m);
    UpstreamTime.WhoIsAsked(w, VariantName(p, m), r);
    hide HistoryLabel, L.Edges, D.Edge;
    WindowMeaning(before, merges, interval, em1, em2, w.sources, p, m);
  }
}
