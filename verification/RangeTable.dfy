/** The in-memory ASN range table (pkg/asnloc/backend_rangetable.go):
    sorting and merging the loaded rows in place, and the binary search
    that answers with a maximal region of constant attribution. */
module RangeTable {
  import opened Wrappers
  import opened Names

  const MAX_IP := 0xFFFF_FFFF

  /** A Go uint32. */
  type U32 = x: int | 0 <= x <= 0xFFFF_FFFF

  /** uint32 addition of one, which wraps at 2^32-1. */
  function Next(x: U32): U32 {
    if x == MAX_IP then 0 else x + 1
  }

  datatype AsnRange = AsnRange(lo: U32, hi: U32, asn: U32, name: string)

  /** What both loaders establish for every row they keep. */
  predicate Loaded(r: AsnRange) {
    r.lo <= r.hi && r.asn != 0
  }

  ghost predicate AllLoaded(rs: seq<AsnRange>) {
    forall i :: 0 <= i < |rs| ==> Loaded(rs[i])
  }

  predicate Contains(r: AsnRange, ip: int) {
    r.lo <= ip <= r.hi
  }

  /** The reference reading of a list of rows: an address belongs to the
      first row that contains it, and to ASN 0 when there is none. */
  ghost function Attribution(rs: seq<AsnRange>, ip: int): U32 {
    if rs == [] then 0
    else if Contains(rs[0], ip) then rs[0].asn
    else Attribution(rs[1..], ip)
  }

  lemma {:induction false} AttributionConcat(a: seq<AsnRange>, b: seq<AsnRange>, ip: int)
    requires AllLoaded(a)
    ensures Attribution(a + b, ip) == if Attribution(a, ip) != 0 then Attribution(a, ip) else Attribution(b, ip)
  {
    if a == [] {
      assert a + b == b;
    } else {
      assert (a + b)[0] == a[0] && (a + b)[1..] == a[1..] + b;
      if !Contains(a[0], ip) { AttributionConcat(a[1..], b, ip); }
    }
  }

  lemma {:induction false} AttributionCovered(rs: seq<AsnRange>, ip: int)
    requires AllLoaded(rs)
    ensures Attribution(rs, ip) != 0 <==> exists i :: 0 <= i < |rs| && Contains(rs[i], ip)
  {
    if rs != [] {
      if Contains(rs[0], ip) {
      } else {
        AttributionCovered(rs[1..], ip);
        if Attribution(rs, ip) != 0 {
          var i :| 0 <= i < |rs[1..]| && Contains(rs[1..][i], ip);
          assert Contains(rs[i + 1], ip);
        } else {
          forall i | 0 <= i < |rs| ensures !Contains(rs[i], ip) {
            if i > 0 { assert !Contains(rs[1..][i - 1], ip); }
          }
        }
      }
    }
  }

  /** The order of the `sort.Slice` comparator. */
  predicate Ordered(a: AsnRange, b: AsnRange) {
    a.lo < b.lo || (a.lo == b.lo && a.hi <= b.hi)
  }

  ghost predicate SortedRows(rs: seq<AsnRange>) {
    forall i, j :: 0 <= i < j < |rs| ==> Ordered(rs[i], rs[j])
  }

  /** `a` lies below `b`, and the two differ in ASN when they touch. */
  predicate Apart(a: AsnRange, b: AsnRange) {
    a.hi < b.lo && (a.hi + 1 == b.lo ==> a.asn != b.asn)
  }

  /** What the table promises: ascending, disjoint rows, and touching
      neighbours with different ASNs. */
  ghost predicate WellFormed(rs: seq<AsnRange>) {
    && AllLoaded(rs)
    && forall i, j :: 0 <= i < j < |rs| ==> Apart(rs[i], rs[j])
  }

  lemma {:induction false} AttributionAt(rs: seq<AsnRange>, k: nat, ip: int)
    requires WellFormed(rs) && k < |rs| && Contains(rs[k], ip)
    ensures Attribution(rs, ip) == rs[k].asn
  {
    if k > 0 {
      assert Apart(rs[0], rs[k]);
      AttributionAt(rs[1..], k - 1, ip);
    }
  }

  // ---------------------------------------------------------------- merging

  /** One round of the merge loop: `out` is the merged prefix, never empty. */
  function MergeStep(out: seq<AsnRange>, cur: AsnRange): seq<AsnRange>
    requires out != []
  {
    var n := |out| - 1;
    var last := out[n];
    if cur.lo <= Next(last.hi) && cur.asn == last.asn then
      out[..n] + [last.(
        hi := if cur.hi > last.hi then cur.hi else last.hi,
        name := if last.name == "" && cur.name != "" then cur.name else last.name)]
    else if cur.lo <= last.hi then
      if cur.hi <= last.hi then out
      else out + [cur.(lo := Next(last.hi))]
    else out + [cur]
  }

  function MergeAll(rs: seq<AsnRange>): seq<AsnRange>
    ensures rs != [] ==> MergeAll(rs) != []
  {
    if |rs| <= 1 then rs
    else MergeStep(MergeAll(rs[..|rs| - 1]), rs[|rs| - 1])
  }

  /** The merged prefix covers everything from the latest row's own start up
      to its last address, which is what makes dropping and shifting sound. */
  ghost predicate Merged(rs: seq<AsnRange>, out: seq<AsnRange>) {
    && out != [] && rs != []
    && WellFormed(out)
    && (forall ip :: Attribution(out, ip) == Attribution(rs, ip))
    && rs[|rs| - 1].lo <= out[|out| - 1].hi
    && (forall ip :: rs[|rs| - 1].lo <= ip <= out[|out| - 1].hi ==> Attribution(out, ip) != 0)
  }

  lemma AttributionBeyond(out: seq<AsnRange>, ip: int)
    requires WellFormed(out) && out != [] && ip > out[|out| - 1].hi
    ensures Attribution(out, ip) == 0
  {
    AttributionCovered(out, ip);
    forall i | 0 <= i < |out| ensures !Contains(out[i], ip) {
      if i < |out| - 1 { assert Apart(out[i], out[|out| - 1]); }
    }
  }

  lemma StepAppends(rs: seq<AsnRange>, out: seq<AsnRange>, cur: AsnRange, row: AsnRange)
    requires Merged(rs, out) && AllLoaded(rs) && Loaded(cur)
    requires row.asn == cur.asn && row.hi == cur.hi && Loaded(row)
    requires row.lo > out[|out| - 1].hi && cur.lo >= rs[|rs| - 1].lo
    requires row.lo == cur.lo || (cur.lo < row.lo && row.lo == out[|out| - 1].hi + 1)
    requires row.lo == out[|out| - 1].hi + 1 ==> row.asn != out[|out| - 1].asn
    ensures Merged(rs + [cur], out + [row])
  {
    var grown := out + [row];
    forall i, j | 0 <= i < j < |grown| ensures Apart(grown[i], grown[j]) {
      if j == |out| && i < |out| - 1 { assert Apart(out[i], out[|out| - 1]); }
    }
    forall ip ensures Attribution(grown, ip) == Attribution(rs + [cur], ip)
      ensures cur.lo <= ip <= row.hi ==> Attribution(grown, ip) != 0
    {
      AttributionConcat(out, [row], ip);
      AttributionConcat(rs, [cur], ip);
    }
  }

  /** Raising the last row's upper end adds just the addresses above it. */
  lemma RaisedRow(out: seq<AsnRange>, row: AsnRange, ip: int)
    requires WellFormed(out) && out != [] && Loaded(row)
    requires row.lo == out[|out| - 1].lo && row.asn == out[|out| - 1].asn && row.hi >= out[|out| - 1].hi
    ensures
      var raised := out[..|out| - 1] + [row];
      Attribution(raised, ip) == if out[|out| - 1].hi < ip <= row.hi then row.asn else Attribution(out, ip)
  {
    var n := |out| - 1;
    assert out == out[..n] + [out[n]];
    AttributionConcat(out[..n], [row], ip);
    AttributionConcat(out[..n], [out[n]], ip);
    if ip > out[n].hi { AttributionBeyond(out, ip); }
  }

  lemma StepExtends(rs: seq<AsnRange>, out: seq<AsnRange>, cur: AsnRange, name: string)
    requires Merged(rs, out) && AllLoaded(rs) && Loaded(cur) && cur.lo >= rs[|rs| - 1].lo
    requires cur.asn == out[|out| - 1].asn && cur.lo <= out[|out| - 1].hi + 1
    ensures
      var last := out[|out| - 1];
      var hi := if cur.hi > last.hi then cur.hi else last.hi;
      Merged(rs + [cur], out[..|out| - 1] + [last.(hi := hi, name := name)])
  {
    var last := out[|out| - 1];
    var row := last.(hi := if cur.hi > last.hi then cur.hi else last.hi, name := name);
    var grown := out[..|out| - 1] + [row];
    forall ip ensures Attribution(grown, ip) == Attribution(rs + [cur], ip)
      ensures cur.lo <= ip <= row.hi ==> Attribution(grown, ip) != 0
    {
      RaisedRow(out, row, ip);
      AttributionConcat(rs, [cur], ip);
      assert Attribution([cur], ip) == if Contains(cur, ip) then cur.asn else 0;
      if ip > last.hi { AttributionBeyond(out, ip); }
    }
  }

  /** The wrapped `last.hi+1` only disables the extension of a row that already
      reaches 2^32-1, where the row at hand is swallowed anyway. */
  lemma StepRefines(rs: seq<AsnRange>, out: seq<AsnRange>, cur: AsnRange)
    requires Merged(rs, out) && AllLoaded(rs) && Loaded(cur) && Ordered(rs[|rs| - 1], cur)
    ensures Merged(rs + [cur], MergeStep(out, cur))
  {
    var n := |out| - 1;
    var last := out[n];
    if cur.lo <= Next(last.hi) && cur.asn == last.asn {
      StepExtends(rs, out, cur, if last.name == "" && cur.name != "" then cur.name else last.name);
    } else if cur.lo <= last.hi {
      if cur.hi <= last.hi {
        forall ip ensures Attribution(out, ip) == Attribution(rs + [cur], ip) {
          AttributionConcat(rs, [cur], ip);
        }
      } else {
        StepAppends(rs, out, cur, cur.(lo := Next(last.hi)));
      }
    } else {
      StepAppends(rs, out, cur, cur);
    }
  }

  /** Merging sorted rows keeps, for every address, the ASN of the first row
      that contains it, and leaves a well-formed table. */
  lemma {:induction false} MergeRefines(rs: seq<AsnRange>)
    requires AllLoaded(rs) && SortedRows(rs)
    ensures WellFormed(MergeAll(rs))
    ensures forall ip :: Attribution(MergeAll(rs), ip) == Attribution(rs, ip)
    ensures rs != [] ==> Merged(rs, MergeAll(rs))
  {
    var n := |rs| - 1;
    if n == 0 {
      AttributionCovered(rs, rs[0].lo);
      forall ip | rs[0].lo <= ip <= rs[0].hi ensures Attribution(rs, ip) != 0 {}
    } else if n > 0 {
      MergeRefines(rs[..n]);
      assert Ordered(rs[n - 1], rs[n]);
      StepRefines(rs[..n], MergeAll(rs[..n]), rs[n]);
      assert rs[..n] + [rs[n]] == rs;
    }
  }

  // ---------------------------------------------------- the names of the rows

  /** The names of the rows that end up in row `k` of the table. */
  ghost function NamesAt(rs: seq<AsnRange>, home: seq<Option<nat>>, k: nat): seq<string>
    requires |home| == |rs|
  {
    if rs == [] then []
    else
      var n := |rs| - 1;
      NamesAt(rs[..n], home[..n], k) + if home[n] == Some(k) then [rs[n].name] else []
  }

  /** Row `i` goes into a row of its own ASN that reaches at least as far. */
  ghost predicate Housed(rs: seq<AsnRange>, out: seq<AsnRange>, home: seq<Option<nat>>, i: nat)
    requires |home| == |rs| && i < |rs|
  {
    home[i].Some? ==>
      && home[i].value < |out| && out[home[i].value].asn == rs[i].asn && rs[i].hi <= out[home[i].value].hi
      && forall h :: 0 <= h < i && home[h].Some? ==> home[h].value <= home[i].value
  }

  /** Row `h`, in the latest table row, reaches as far as row `i`, and is of
      another ASN or reaches the last address there is. */
  ghost predicate Swallows(rs: seq<AsnRange>, home: seq<Option<nat>>, h: nat, i: nat)
    requires |home| == |rs| && h < i < |rs|
  {
    && home[h].Some? && rs[i].hi <= rs[h].hi
    && (rs[h].asn != rs[i].asn || (rs[h].hi == MAX_IP && rs[i].lo > 0))
    && forall j :: 0 <= j < i && home[j].Some? ==> home[j].value <= home[h].value
  }

  ghost predicate Swallowed(rs: seq<AsnRange>, home: seq<Option<nat>>, i: nat)
    requires |home| == |rs| && i < |rs|
  {
    exists h :: 0 <= h < i && Swallows(rs, home, h, i)
  }

  /** A row of the table reaches as far as the farthest of its rows, and has the
      first of their names that is not empty. */
  ghost predicate NamedAfter(rs: seq<AsnRange>, out: seq<AsnRange>, home: seq<Option<nat>>, k: nat)
    requires |home| == |rs| && k < |out|
  {
    && FirstNonEmpty(out[k].name, NamesAt(rs, home, k))
    && exists i :: 0 <= i < |rs| && home[i] == Some(k) && rs[i].hi == out[k].hi
  }

  /** Where every sorted row ends up: in one row of the table, unless it is
      swallowed, by a row of another ASN or at the top of the address space. */
  ghost predicate Grouped(rs: seq<AsnRange>, out: seq<AsnRange>, home: seq<Option<nat>>) {
    && |home| == |rs|
    && (forall i :: 0 <= i < |rs| ==> Housed(rs, out, home, i) && (home[i].None? ==> Swallowed(rs, home, i)))
    && (forall k :: 0 <= k < |out| ==> NamedAfter(rs, out, home, k))
  }

  lemma NamesOneMore(rs: seq<AsnRange>, home: seq<Option<nat>>, cur: AsnRange, x: Option<nat>, k: nat)
    requires |home| == |rs|
    ensures NamesAt(rs + [cur], home + [x], k) == NamesAt(rs, home, k) + if x == Some(k) then [cur.name] else []
  {
    assert (rs + [cur])[..|rs|] == rs && (home + [x])[..|rs|] == home;
  }

  lemma {:induction false} NobodyThere(rs: seq<AsnRange>, home: seq<Option<nat>>, k: nat)
    requires |home| == |rs| && forall i :: 0 <= i < |rs| ==> home[i] != Some(k)
    ensures NamesAt(rs, home, k) == []
  {
    if rs != [] { NobodyThere(rs[..|rs| - 1], home[..|rs| - 1], k); }
  }

  /** The rows placed before stay placed when the table only grows at its end. */
  lemma StillPlaced(rs: seq<AsnRange>, out: seq<AsnRange>, home: seq<Option<nat>>, cur: AsnRange, x: Option<nat>,
                    grown: seq<AsnRange>)
    requires Grouped(rs, out, home) && |out| <= |grown|
    requires forall k :: 0 <= k < |out| ==> out[k].asn == grown[k].asn && out[k].hi <= grown[k].hi
    ensures forall i :: 0 <= i < |rs| ==>
      Housed(rs + [cur], grown, home + [x], i) && (home[i].None? ==> Swallowed(rs + [cur], home + [x], i))
  {
    var all, home' := rs + [cur], home + [x];
    forall i | 0 <= i < |rs|
      ensures Housed(all, grown, home', i) && (home[i].None? ==> Swallowed(all, home', i))
    {
      assert Housed(rs, out, home, i);
      if home[i].None? {
        var h :| 0 <= h < i && Swallows(rs, home, h, i);
        assert Swallows(all, home', h, i);
      }
    }
  }

  /** A row of the table that nothing is added to keeps its name and reach. */
  lemma StillNamed(rs: seq<AsnRange>, out: seq<AsnRange>, home: seq<Option<nat>>, cur: AsnRange, x: Option<nat>,
                   grown: seq<AsnRange>, k: nat)
    requires Grouped(rs, out, home) && k < |out| && k < |grown| && grown[k] == out[k] && x != Some(k)
    ensures NamedAfter(rs + [cur], grown, home + [x], k)
  {
    assert NamedAfter(rs, out, home, k);
    NamesOneMore(rs, home, cur, x, k);
    var i :| 0 <= i < |rs| && home[i] == Some(k) && rs[i].hi == out[k].hi;
    assert (rs + [cur])[i] == rs[i] && (home + [x])[i] == home[i];
    assert NamesAt(rs, home, k) + [] == NamesAt(rs, home, k);
  }

  function Joined(last: AsnRange, cur: AsnRange): AsnRange {
    last.(hi := if cur.hi > last.hi then cur.hi else last.hi, name := if last.name == "" then cur.name else last.name)
  }

  lemma JoinedNamed(rs: seq<AsnRange>, out: seq<AsnRange>, home: seq<Option<nat>>, cur: AsnRange)
    requires Grouped(rs, out, home) && out != []
    ensures
      var n := |out| - 1;
      NamedAfter(rs + [cur], out[..n] + [Joined(out[n], cur)], home + [Some(n)], n)
  {
    hide Housed, Swallowed;
    var n := |out| - 1;
    var all, home' := rs + [cur], home + [Some(n)];
    assert NamedAfter(rs, out, home, n);
    OneMoreName(out[n].name, NamesAt(rs, home, n), cur.name);
    NamesOneMore(rs, home, cur, Some(n), n);
    hide FirstNonEmpty, NamesAt;
    var i :| 0 <= i < |rs| && home[i] == Some(n) && rs[i].hi == out[n].hi;
    assert all[i] == rs[i] && home'[i] == home[i] && all[|rs|] == cur && home'[|rs|] == Some(n);
  }

  lemma GroupJoins(rs: seq<AsnRange>, out: seq<AsnRange>, home: seq<Option<nat>>, cur: AsnRange)
    requires Grouped(rs, out, home) && out != [] && cur.asn == out[|out| - 1].asn
    ensures
      var n := |out| - 1;
      Grouped(rs + [cur], out[..n] + [Joined(out[n], cur)], home + [Some(n)])
  {
    var n := |out| - 1;
    var all, grown, home' := rs + [cur], out[..n] + [Joined(out[n], cur)], home + [Some(n)];
    JoinedNamed(rs, out, home, cur);
    StillPlaced(rs, out, home, cur, Some(n), grown);
    HomesBelow(rs, out, home);
    assert Housed(all, grown, home', |rs|);
    forall k | 0 <= k < n ensures NamedAfter(all, grown, home', k) {
      StillNamed(rs, out, home, cur, Some(n), grown, k);
    }
    hide NamedAfter, Housed, Swallowed;
  }

  lemma HomesBelow(rs: seq<AsnRange>, out: seq<AsnRange>, home: seq<Option<nat>>)
    requires Grouped(rs, out, home)
    ensures forall h :: 0 <= h < |rs| && home[h].Some? ==> home[h].value < |out|
  {
    hide NamedAfter, Swallowed;
    forall h | 0 <= h < |rs| && home[h].Some? ensures home[h].value < |out| { assert Housed(rs, out, home, h); }
  }

  lemma OpenedNamed(rs: seq<AsnRange>, out: seq<AsnRange>, home: seq<Option<nat>>, cur: AsnRange, row: AsnRange)
    requires Grouped(rs, out, home) && row.hi == cur.hi && row.name == cur.name
    ensures NamedAfter(rs + [cur], out + [row], home + [Some(|out|)], |out|)
  {
    hide NamedAfter, Swallowed;
    var n := |out|;
    var all, home' := rs + [cur], home + [Some(n)];
    forall h | 0 <= h < |rs| ensures home[h] != Some(n) { assert Housed(rs, out, home, h); }
    NobodyThere(rs, home, n);
    NamesOneMore(rs, home, cur, Some(n), n);
    OneMoreName("", [], cur.name);
    hide Housed, NamesAt, Grouped;
    assert [] + [cur.name] == [cur.name];
    assert all[|rs|] == cur && home'[|rs|] == Some(n) && (out + [row])[n] == row;
    NamedBy(all, out + [row], home', n, |rs|);
  }

  lemma NamedBy(rs: seq<AsnRange>, out: seq<AsnRange>, home: seq<Option<nat>>, k: nat, i: nat)
    requires |home| == |rs| && k < |out| && i < |rs| && FirstNonEmpty(out[k].name, NamesAt(rs, home, k))
    requires home[i] == Some(k) && rs[i].hi == out[k].hi
    ensures NamedAfter(rs, out, home, k)
  {
    hide FirstNonEmpty, NamesAt;
  }

  lemma GroupOpens(rs: seq<AsnRange>, out: seq<AsnRange>, home: seq<Option<nat>>, cur: AsnRange, row: AsnRange)
    requires Grouped(rs, out, home) && row.asn == cur.asn && row.hi == cur.hi && row.name == cur.name
    ensures Grouped(rs + [cur], out + [row], home + [Some(|out|)])
  {
    var n := |out|;
    var all, grown, home' := rs + [cur], out + [row], home + [Some(n)];
    StillPlaced(rs, out, home, cur, Some(n), grown);
    HomesBelow(rs, out, home);
    assert Housed(all, grown, home', |rs|);
    OpenedNamed(rs, out, home, cur, row);
    hide NamedAfter, Housed, Swallowed;
    forall k | 0 <= k < n ensures NamedAfter(all, grown, home', k) {
      StillNamed(rs, out, home, cur, Some(n), grown, k);
    }
  }

  lemma GroupSwallows(rs: seq<AsnRange>, out: seq<AsnRange>, home: seq<Option<nat>>, cur: AsnRange)
    requires Grouped(rs, out, home) && out != [] && cur.lo <= cur.hi <= out[|out| - 1].hi
    requires cur.asn != out[|out| - 1].asn || (out[|out| - 1].hi == MAX_IP && cur.lo > 0)
    ensures Grouped(rs + [cur], out, home + [None])
  {
    var n := |out| - 1;
    var all, home' := rs + [cur], home + [None];
    StillPlaced(rs, out, home, cur, None, out);
    assert NamedAfter(rs, out, home, n);
    var h :| 0 <= h < |rs| && home[h] == Some(n) && rs[h].hi == out[n].hi;
    assert Housed(rs, out, home, h);
    forall j | 0 <= j < |rs| && home[j].Some? ensures home[j].value <= n { assert Housed(rs, out, home, j); }
    assert Swallows(all, home', h, |rs|);
    forall k | 0 <= k < |out| ensures NamedAfter(all, out, home', k) {
      StillNamed(rs, out, home, cur, None, out, k);
    }
  }

  /** Merging groups the sorted rows: no row but a swallowed one is passed over
      when the table's rows are named. */
  lemma {:induction false} MergeGroups(rs: seq<AsnRange>) returns (home: seq<Option<nat>>)
    requires AllLoaded(rs)
    ensures Grouped(rs, MergeAll(rs), home)
  {
    if rs == [] {
      home := [];
    } else if |rs| == 1 {
      assert Grouped([], [], []);
      GroupOpens([], [], [], rs[0], rs[0]);
      assert [] + [rs[0]] == rs && [] + [Some(0)] == [Some(0)];
      home := [Some(0)];
    } else {
      hide Grouped;
      var n := |rs| - 1;
      home := MergeGroups(rs[..n]);
      assert rs[..n] + [rs[n]] == rs;
      home := GroupStep(rs[..n], MergeAll(rs[..n]), home, rs[n]);
    }
  }

  lemma GroupStep(rs: seq<AsnRange>, out: seq<AsnRange>, home: seq<Option<nat>>, cur: AsnRange)
    returns (home': seq<Option<nat>>)
    requires Grouped(rs, out, home) && out != [] && Loaded(cur)
    ensures Grouped(rs + [cur], MergeStep(out, cur), home')
  {
    hide Grouped;
    var n := |out| - 1;
    var last := out[n];
    if cur.lo <= Next(last.hi) && cur.asn == last.asn {
      GroupJoins(rs, out, home, cur);
      home' := home + [Some(n)];
    } else if cur.lo <= last.hi && cur.hi <= last.hi {
      GroupSwallows(rs, out, home, cur);
      home' := home + [None];
    } else {
      GroupOpens(rs, out, home, cur, if cur.lo <= last.hi then cur.(lo := Next(last.hi)) else cur);
      home' := home + [Some(n + 1)];
    }
  }

  /** A row that reaches the last address takes no names from later rows of its
      own ASN: the address after it wraps around to 0. */
  lemma TopRowStaysUnnamed()
    ensures
      var rows := [AsnRange(0, MAX_IP, 7, ""), AsnRange(1, 1, 7, "SEVEN")];
      AllLoaded(rows) && SortedRows(rows) && MergeAll(rows) == [AsnRange(0, MAX_IP, 7, "")]
  {
    var rows := [AsnRange(0, MAX_IP, 7, ""), AsnRange(1, 1, 7, "SEVEN")];
    assert rows[..1] == [rows[0]];
    assert MergeStep([rows[0]], rows[1]) == [rows[0]];
  }

  // ------------------------------------------------------- size of the union

  /** The number of addresses below `n` that some row contains. */
  ghost function CoveredBelow(rs: seq<AsnRange>, n: nat): nat {
    if n == 0 then 0
    else CoveredBelow(rs, n - 1) + (if Attribution(rs, n - 1) != 0 then 1 else 0)
  }

  function TotalIPs(rs: seq<AsnRange>): int {
    if rs == [] then 0
    else TotalIPs(rs[..|rs| - 1]) + (rs[|rs| - 1].hi - rs[|rs| - 1].lo + 1)
  }

  lemma {:induction false} CoveredRun(rs: seq<AsnRange>, a: nat, b: nat, hit: bool)
    requires a <= b
    requires forall ip :: a <= ip < b ==> (Attribution(rs, ip) != 0 <==> hit)
    ensures CoveredBelow(rs, b) == CoveredBelow(rs, a) + if hit then b - a else 0
    decreases b
  {
    if a < b { CoveredRun(rs, a, b - 1, hit); }
  }

  lemma {:induction false} CoveredSame(a: seq<AsnRange>, b: seq<AsnRange>, n: nat)
    requires forall ip :: 0 <= ip < n ==> (Attribution(a, ip) != 0 <==> Attribution(b, ip) != 0)
    ensures CoveredBelow(a, n) == CoveredBelow(b, n)
  {
    if n > 0 { CoveredSame(a, b, n - 1); }
  }

  /** The precomputed total of a well-formed table is the size of the union
      of its rows, so it never exceeds 2^32 and its uint64 sum is exact. */
  lemma {:induction false} TotalIsUnion(rs: seq<AsnRange>, n: nat)
    requires WellFormed(rs)
    requires rs != [] ==> rs[|rs| - 1].hi < n
    ensures TotalIPs(rs) == CoveredBelow(rs, n) <= n
  {
    hide CoveredBelow, Attribution, WellFormed;
    if rs == [] {
      NothingCovered(n);
    } else {
      var k := |rs| - 1;
      DropLastRow(rs, k);
      TotalIsUnion(rs[..k], rs[k].lo);
      CoveredLastRow(rs[..k], rs[k], n);
    }
  }

  lemma DropLastRow(rs: seq<AsnRange>, k: nat)
    requires WellFormed(rs) && k == |rs| - 1
    ensures WellFormed(rs[..k]) && rs == rs[..k] + [rs[k]] && (k > 0 ==> rs[k - 1].hi < rs[k].lo)
  {
    assert k > 0 ==> Apart(rs[k - 1], rs[k]);
  }

  lemma NothingCovered(n: nat)
    ensures CoveredBelow([], n) == 0
  {
    CoveredRun([], 0, n, false);
  }

  lemma CoveredLastRow(rest: seq<AsnRange>, last: AsnRange, n: nat)
    requires WellFormed(rest + [last]) && last.hi < n
    ensures CoveredBelow(rest + [last], n) == CoveredBelow(rest, last.lo) + (last.hi - last.lo + 1)
  {
    var rs := rest + [last];
    assert rs[|rs| - 1] == last && rs[..|rs| - 1] == rest;
    assert AllLoaded(rest) && Loaded(last);
    forall ip
      ensures ip < last.lo ==> Attribution(rs, ip) == Attribution(rest, ip)
      ensures last.lo <= ip <= last.hi ==> Attribution(rs, ip) != 0
      ensures last.hi < ip ==> Attribution(rs, ip) == 0
    {
      AttributionConcat(rest, [last], ip);
      if last.hi < ip { AttributionBeyond(rs, ip); }
    }
    CoveredSame(rest, rs, last.lo);
    CoveredRun(rs, last.lo, last.hi + 1, true);
    CoveredRun(rs, last.hi + 1, n, false);
  }

  // ------------------------------------------------- the in-place algorithms

  method Swap(a: array<AsnRange>, j: nat)
    requires 0 < j < a.Length
    modifies a
    ensures a[..] == old(a[..])[j - 1 := old(a[j])][j := old(a[j - 1])]
    ensures multiset(a[..]) == multiset(old(a[..]))
  {
    a[j - 1], a[j] := a[j], a[j - 1];
  }

  /** Sinks row `i` into the sorted rows before it. */
  method Insert(a: array<AsnRange>, i: nat)
    requires i < a.Length && SortedRows(a[..i])
    modifies a
    ensures SortedRows(a[..i + 1])
    ensures multiset(a[..]) == multiset(old(a[..]))
  {
    var j := i;
    while j > 0 && !Ordered(a[j - 1], a[j])
      invariant 0 <= j <= i
      invariant forall p, q :: 0 <= p < q <= i && q != j ==> Ordered(a[p], a[q])
      invariant multiset(a[..]) == multiset(old(a[..]))
    {
      Swap(a, j);
      j := j - 1;
    }
    forall p, q | 0 <= p < q < i + 1 ensures Ordered(a[p], a[q]) {
      if q == j && p < j - 1 { assert Ordered(a[p], a[j - 1]); }
    }
  }

  /** `sort.Slice`, as an insertion sort; rows equal in `lo` and `hi` may end
      up in either order in the original, and nothing below depends on it. */
  method SortRows(a: array<AsnRange>)
    modifies a
    ensures SortedRows(a[..]) && multiset(a[..]) == multiset(old(a[..]))
  {
    for i := 0 to a.Length
      invariant SortedRows(a[..i])
      invariant multiset(a[..]) == multiset(old(a[..]))
    {
      Insert(a, i);
    }
    assert a[..a.Length] == a[..];
  }

  /** The body of the merge loop, on the slice `out` of length `n` that shares
      its array with the rows still to be read. */
  method MergeRow(a: array<AsnRange>, n: nat, i: nat) returns (m: nat)
    requires 1 <= n <= i < a.Length
    modifies a
    ensures n <= m <= i + 1
    ensures a[..m] == MergeStep(old(a[..n]), old(a[i]))
    ensures a[i + 1..] == old(a[i + 1..])
  {
    var cur, last := a[i], a[n - 1];
    if cur.lo <= Next(last.hi) && cur.asn == last.asn {
      if cur.hi > last.hi {
        a[n - 1] := a[n - 1].(hi := cur.hi);
      }
      if last.name == "" && cur.name != "" {
        a[n - 1] := a[n - 1].(name := cur.name);
      }
      assert a[..n] == old(a[..n])[..n - 1] + [a[n - 1]];
      return n;
    }
    if cur.lo <= last.hi {
      if cur.hi <= last.hi {
        return n;
      }
      cur := cur.(lo := Next(last.hi));
    }
    a[n] := cur;
    assert a[..n + 1] == old(a[..n]) + [cur];
    return n + 1;
  }

  /** `sortMergeRanges`: sorts, then merges into the front of the same array.
      The first `n` cells are the returned slice. */
  method SortMergeRanges(a: array<AsnRange>)
    returns (n: nat, ghost sorted: seq<AsnRange>, ghost home: seq<Option<nat>>)
    requires AllLoaded(a[..])
    modifies a
    ensures n <= a.Length
    ensures SortedRows(sorted) && multiset(sorted) == multiset(old(a[..]))
    ensures forall i, j :: 0 <= i < j < |sorted| ==>
      sorted[i].lo <= sorted[j].lo && (sorted[i].lo == sorted[j].lo ==> sorted[i].hi <= sorted[j].hi)
    ensures a[..n] == MergeAll(sorted)
    ensures WellFormed(a[..n])
    ensures forall ip :: Attribution(a[..n], ip) == Attribution(sorted, ip)
    ensures Grouped(sorted, a[..n], home)
  {
    if a.Length == 0 {
      sorted := a[..];
      return 0, sorted, [];
    }
    SortRows(a);
    sorted := a[..];
    n := MergeSorted(a);
    PermutedLoaded(old(a[..]), sorted);
    MergeRefines(sorted);
    home := MergeGroups(sorted);
  }

  /** The merge loop over sorted rows. */
  method MergeSorted(a: array<AsnRange>) returns (n: nat)
    requires a.Length > 0
    modifies a
    ensures n <= a.Length && a[..n] == MergeAll(old(a[..]))
  {
    ghost var sorted := a[..];
    n := 1;
    for i := 1 to a.Length
      invariant 1 <= n <= i
      invariant a[i..] == sorted[i..]
      invariant a[..n] == MergeAll(sorted[..i])
    {
      assert a[i] == a[i..][0] == sorted[i];
      assert a[i + 1..] == a[i..][1..] == sorted[i..][1..] == sorted[i + 1..];
      assert sorted[..i + 1][..i] == sorted[..i];
      n := MergeRow(a, n, i);
    }
    assert sorted[..a.Length] == sorted;
  }

  lemma PermutedLoaded(a: seq<AsnRange>, b: seq<AsnRange>)
    requires AllLoaded(a) && multiset(a) == multiset(b)
    ensures AllLoaded(b)
  {
    forall i | 0 <= i < |b| ensures Loaded(b[i]) {
      assert b[i] in multiset(b);
      assert b[i] in multiset(a);
    }
  }

  datatype Backend = Backend(ranges: seq<AsnRange>, totalIPs: nat)

  /** `newRangeTableBackend`. */
  method NewBackend(a: array<AsnRange>)
    returns (b: Backend, ghost sorted: seq<AsnRange>, ghost home: seq<Option<nat>>)
    requires AllLoaded(a[..])
    modifies a
    ensures WellFormed(b.ranges)
    ensures SortedRows(sorted) && multiset(sorted) == multiset(old(a[..]))
    ensures forall ip :: Attribution(b.ranges, ip) == Attribution(sorted, ip)
    ensures b.totalIPs == CoveredBelow(sorted, MAX_IP + 1) <= MAX_IP + 1
    ensures Grouped(sorted, b.ranges, home)
  {
    hide Grouped;
    var n;
    n, sorted, home := SortMergeRanges(a);
    var total := 0;
    for i := 0 to n
      invariant 0 <= total == TotalIPs(a[..i])
    {
      assert a[..i + 1][..i] == a[..i];
      assert Loaded(a[..n][i]);
      total := total + (a[i].hi - a[i].lo) + 1;
    }
    TotalIsUnion(a[..n], MAX_IP + 1);
    CoveredSame(a[..n], sorted, MAX_IP + 1);
    b := Backend(a[..n], total);
  }

  // ----------------------------------------------------------------- lookup

  datatype Record = Record(asn: U32, name: string)
  datatype Network = Network(lo: U32, hi: U32)

  /** `sort.Search` for the first row starting above `ip`. */
  method FirstAbove(rs: seq<AsnRange>, ip: U32) returns (idx: nat)
    requires WellFormed(rs)
    ensures idx <= |rs|
    ensures forall i :: 0 <= i < idx ==> rs[i].lo <= ip
    ensures forall i :: idx <= i < |rs| ==> rs[i].lo > ip
  {
    var i, j := 0, |rs|;
    while i < j
      invariant 0 <= i <= j <= |rs|
      invariant forall k :: 0 <= k < i ==> rs[k].lo <= ip
      invariant forall k :: j <= k < |rs| ==> rs[k].lo > ip
    {
      var h := (i + j) / 2;
      if !(rs[h].lo > ip) {
        forall k | 0 <= k < h + 1 ensures rs[k].lo <= ip {
          if k < h { assert Loaded(rs[k]) && Apart(rs[k], rs[h]); }
        }
        i := h + 1;
      } else {
        forall k | h <= k < |rs| ensures rs[k].lo > ip {
          if h < k { assert Loaded(rs[h]) && Apart(rs[h], rs[k]); }
        }
        j := h;
      }
    }
    idx := i;
  }

  /** The region around `ip` on which the attribution is constant. */
  ghost predicate ConstantRegion(rs: seq<AsnRange>, ip: U32, net: Network) {
    && net.lo <= ip <= net.hi
    && forall x :: net.lo <= x <= net.hi ==> Attribution(rs, x) == Attribution(rs, ip)
  }

  ghost predicate MaximalAbove(rs: seq<AsnRange>, ip: U32, net: Network) {
    net.hi == MAX_IP || Attribution(rs, net.hi + 1) != Attribution(rs, ip)
  }

  ghost predicate MaximalBelow(rs: seq<AsnRange>, ip: U32, net: Network) {
    net.lo == 0 || Attribution(rs, net.lo - 1) != Attribution(rs, ip)
  }

  datatype Response = Response(rec: Record, net: Network)

  /** The index of the first row above `ip` in an ascending table. */
  function Above(rs: seq<AsnRange>, ip: U32): (idx: nat)
    ensures idx <= |rs| && forall i :: idx <= i < |rs| ==> rs[i].lo > ip
    ensures idx > 0 ==> rs[idx - 1].lo <= ip
  {
    if rs == [] || rs[|rs| - 1].lo <= ip then |rs| else Above(rs[..|rs| - 1], ip)
  }

  /** The answer of `rangeTableBackend.lookup`, its defensive branch included. */
  function Respond(rs: seq<AsnRange>, ip: U32): Response {
    if rs == [] then Response(Record(0, ""), Network(ip, MAX_IP))
    else
      var idx := Above(rs, ip);
      if idx > 0 && Contains(rs[idx - 1], ip) then
        Response(Record(rs[idx - 1].asn, rs[idx - 1].name), Network(rs[idx - 1].lo, rs[idx - 1].hi))
      else
        var gapLo := if idx > 0 then Next(rs[idx - 1].hi) else 0;
        var gapHi := if idx < |rs| && rs[idx].lo > 0 then rs[idx].lo - 1 else MAX_IP;
        if gapHi < gapLo || ip < gapLo || ip > gapHi then Response(Record(0, ""), Network(ip, ip))
        else Response(Record(0, ""), Network(gapLo, gapHi))
  }

  /** The attribution of the address with the largest region around it that
      shares it. Only the empty table gives up the part below the address. */
  ghost predicate Right(rs: seq<AsnRange>, ip: U32, r: Response) {
    && r.rec.asn == Attribution(rs, ip)
    && (r.rec.asn == 0 ==> r.rec.name == "")
    && (r.rec.asn != 0 ==> AsnRange(r.net.lo, r.net.hi, r.rec.asn, r.rec.name) in rs)
    && ConstantRegion(rs, ip, r.net) && MaximalAbove(rs, ip, r.net)
    && (if rs == [] then r.net.lo == ip else MaximalBelow(rs, ip, r.net))
  }

  lemma RespondsRight(rs: seq<AsnRange>)
    requires WellFormed(rs)
    ensures forall ip: U32 :: Right(rs, ip, Respond(rs, ip))
  {
    hide Attribution, WellFormed, Right;
    forall ip: U32 ensures Right(rs, ip, Respond(rs, ip)) {
      if rs == [] {
        NothingAttributed(ip);
      } else {
        var idx := Above(rs, ip);
        RowsBelow(rs, idx, ip);
        if idx > 0 && Contains(rs[idx - 1], ip) {
          HitIsRight(rs, idx - 1);
        } else {
          GapIsRight(rs, idx, ip,
            if idx > 0 then Next(rs[idx - 1].hi) else 0, if idx < |rs| then rs[idx].lo - 1 else MAX_IP);
        }
      }
    }
  }

  lemma NothingAttributed(ip: U32)
    ensures Right([], ip, Response(Record(0, ""), Network(ip, MAX_IP)))
  {}

  lemma HitIsRight(rs: seq<AsnRange>, k: nat)
    requires WellFormed(rs) && k < |rs|
    ensures forall ip: U32 :: Contains(rs[k], ip) ==>
      Right(rs, ip, Response(Record(rs[k].asn, rs[k].name), Network(rs[k].lo, rs[k].hi)))
  {
    hide Attribution;
    forall ip: U32 | Contains(rs[k], ip)
      ensures Right(rs, ip, Response(Record(rs[k].asn, rs[k].name), Network(rs[k].lo, rs[k].hi)))
    {
      HitRegion(rs, k, ip);
      assert rs[k] == AsnRange(rs[k].lo, rs[k].hi, rs[k].asn, rs[k].name);
    }
  }

  lemma GapIsRight(rs: seq<AsnRange>, idx: nat, ip: U32, gapLo: U32, gapHi: U32)
    requires WellFormed(rs) && idx <= |rs| && rs != []
    requires forall i :: 0 <= i < idx ==> rs[i].lo <= ip
    requires forall i :: idx <= i < |rs| ==> rs[i].lo > ip
    requires idx > 0 ==> !Contains(rs[idx - 1], ip) && gapLo == Next(rs[idx - 1].hi)
    requires idx == 0 ==> gapLo == 0
    requires gapHi == if idx < |rs| then rs[idx].lo - 1 else MAX_IP
    ensures gapLo <= ip <= gapHi && Right(rs, ip, Response(Record(0, ""), Network(gapLo, gapHi)))
  {
    hide Attribution;
    GapRegion(rs, idx, ip, gapLo, gapHi);
  }

  lemma RowsBelow(rs: seq<AsnRange>, idx: nat, ip: U32)
    requires WellFormed(rs) && idx <= |rs| && (idx > 0 ==> rs[idx - 1].lo <= ip)
    ensures forall i :: 0 <= i < idx ==> rs[i].lo <= ip
  {
    forall i | 0 <= i < idx ensures rs[i].lo <= ip {
      if i < idx - 1 { assert Loaded(rs[i]) && Apart(rs[i], rs[idx - 1]); }
    }
  }

  lemma AboveIsFirst(rs: seq<AsnRange>, ip: U32, idx: nat)
    requires idx <= |rs| && forall i :: 0 <= i < idx ==> rs[i].lo <= ip
    requires forall i :: idx <= i < |rs| ==> rs[i].lo > ip
    ensures idx == Above(rs, ip)
  {
    var k := Above(rs, ip);
    assert k > 0 ==> rs[k - 1].lo <= ip;
    assert k < |rs| ==> rs[k].lo > ip;
  }

  /** `rangeTableBackend.lookup`, by binary search. */
  method Lookup(rs: seq<AsnRange>, ip: U32) returns (rec: Record, net: Network)
    requires WellFormed(rs)
    ensures Response(rec, net) == Respond(rs, ip) && Right(rs, ip, Response(rec, net))
  {
    hide WellFormed, Right;
    RespondsRight(rs);
    if |rs| == 0 {
      return Record(0, ""), Network(ip, MAX_IP);
    }
    var idx := FirstAbove(rs, ip);
    AboveIsFirst(rs, ip, idx);
    if idx > 0 {
      var candidate := rs[idx - 1];
      if candidate.lo <= ip <= candidate.hi {
        return Record(candidate.asn, candidate.name), Network(candidate.lo, candidate.hi);
      }
    }
    var gapLo: U32 := 0;
    if idx > 0 {
      gapLo := Next(rs[idx - 1].hi);
    }
    var gapHi: U32 := MAX_IP;
    if idx < |rs| {
      if rs[idx].lo > 0 {
        gapHi := rs[idx].lo - 1;
      }
    }
    if gapHi < gapLo || ip < gapLo || ip > gapHi {
      return Record(0, ""), Network(ip, ip);
    }
    return Record(0, ""), Network(gapLo, gapHi);
  }

  lemma HitRegion(rs: seq<AsnRange>, k: nat, ip: U32)
    requires WellFormed(rs) && k < |rs| && Contains(rs[k], ip)
    ensures Attribution(rs, ip) == rs[k].asn != 0
    ensures forall x :: rs[k].lo <= x <= rs[k].hi ==> Attribution(rs, x) == rs[k].asn
    ensures rs[k].hi == MAX_IP || Attribution(rs, rs[k].hi + 1) != rs[k].asn
    ensures rs[k].lo == 0 || Attribution(rs, rs[k].lo - 1) != rs[k].asn
  {
    forall x | rs[k].lo <= x <= rs[k].hi ensures Attribution(rs, x) == rs[k].asn { AttributionAt(rs, k, x); }
    OutsideRow(rs, k, rs[k].hi + 1);
    OutsideRow(rs, k, rs[k].lo - 1);
  }

  lemma OutsideRow(rs: seq<AsnRange>, k: nat, x: int)
    requires WellFormed(rs) && k < |rs| && (x == rs[k].hi + 1 || x == rs[k].lo - 1)
    ensures Attribution(rs, x) != rs[k].asn
  {
    AttributionCovered(rs, x);
    if Attribution(rs, x) != 0 {
      var i :| 0 <= i < |rs| && Contains(rs[i], x);
      AttributionAt(rs, i, x);
      assert Loaded(rs[k]) && Loaded(rs[i]);
      if i < k { assert Apart(rs[i], rs[k]); }
      if k < i { assert Apart(rs[k], rs[i]); }
    }
  }

  lemma GapRegion(rs: seq<AsnRange>, idx: nat, ip: U32, gapLo: U32, gapHi: U32)
    requires WellFormed(rs) && idx <= |rs| && rs != []
    requires forall i :: 0 <= i < idx ==> rs[i].lo <= ip
    requires forall i :: idx <= i < |rs| ==> rs[i].lo > ip
    requires idx > 0 ==> !Contains(rs[idx - 1], ip) && gapLo == Next(rs[idx - 1].hi)
    requires idx == 0 ==> gapLo == 0
    requires gapHi == if idx < |rs| then rs[idx].lo - 1 else MAX_IP
    ensures gapLo <= ip <= gapHi
    ensures forall x :: gapLo <= x <= gapHi ==> Attribution(rs, x) == 0
    ensures gapHi == MAX_IP || Attribution(rs, gapHi + 1) != 0
    ensures gapLo == 0 || Attribution(rs, gapLo - 1) != 0
  {
    forall x | gapLo <= x <= gapHi ensures Attribution(rs, x) == 0 {
      AttributionCovered(rs, x);
      forall i | 0 <= i < |rs| ensures !Contains(rs[i], x) {
        if i < idx - 1 { assert Apart(rs[i], rs[idx - 1]) && Loaded(rs[idx - 1]); }
        if i > idx { assert Apart(rs[idx], rs[i]) && Loaded(rs[idx]); }
      }
    }
    if idx < |rs| { assert Loaded(rs[idx]); AttributionAt(rs, idx, gapHi + 1); }
    if idx > 0 { assert Loaded(rs[idx - 1]); AttributionAt(rs, idx - 1, gapLo - 1); }
  }
}
