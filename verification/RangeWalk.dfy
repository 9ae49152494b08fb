/** Counting a feed against an ASN provider by whole regions
    (pkg/asnloc/asnloc.go), and the bogon split on top of it
    (pkg/engine/asn.go). */
module RangeWalk {
  import opened Wrappers
  import opened RangeTable
  import opened Names

  const IP_COUNT := MAX_IP + 1

  /** What a provider answers for one address; a backend is any such function. */
  datatype Answer = Found(rec: Record, net: Network) | Failed

  type Lookups = int -> Answer

  datatype Range = Range(lo: U32, hi: U32)

  function Max(a: int, b: int): int { if a >= b then a else b }

  function Min(a: int, b: int): int { if a <= b then a else b }

  // ------------------------------------------------ counting one IP at a time

  ghost function Count(p: int -> bool, lo: int, hi: int): nat
    decreases hi - lo
  {
    if lo >= hi then 0 else (if p(hi - 1) then 1 else 0) + Count(p, lo, hi - 1)
  }

  lemma {:induction false} CountSplit(p: int -> bool, lo: int, mid: int, hi: int)
    requires lo <= mid <= hi
    ensures Count(p, lo, hi) == Count(p, lo, mid) + Count(p, mid, hi)
    decreases hi - mid
  {
    if mid < hi { CountSplit(p, lo, mid, hi - 1); }
  }

  lemma {:induction false} CountConstant(p: int -> bool, lo: int, hi: int, hit: bool)
    requires lo <= hi && forall x :: lo <= x < hi ==> p(x) == hit
    ensures Count(p, lo, hi) == if hit then hi - lo else 0
    decreases hi - lo
  {
    if lo < hi { CountConstant(p, lo, hi - 1, hit); }
  }

  lemma {:induction false} CountCongruent(p: int -> bool, q: int -> bool, lo: int, hi: int)
    requires forall x :: lo <= x < hi ==> p(x) == q(x)
    ensures Count(p, lo, hi) == Count(q, lo, hi)
    decreases hi - lo
  {
    if lo < hi { CountCongruent(p, q, lo, hi - 1); }
  }

  lemma {:induction false} CountDisjointSum(p: int -> bool, q: int -> bool, both: int -> bool, lo: int, hi: int)
    requires forall x :: lo <= x < hi ==> !(p(x) && q(x)) && (both(x) <==> p(x) || q(x))
    ensures Count(both, lo, hi) == Count(p, lo, hi) + Count(q, lo, hi)
    decreases hi - lo
  {
    if lo < hi { CountDisjointSum(p, q, both, lo, hi - 1); }
  }

  lemma CountSkip(p: int -> bool, lo: int, mid: int, hi: int)
    requires lo <= mid < hi && p(mid) && forall x :: lo <= x < mid ==> !p(x)
    ensures Count(p, lo, hi) == 1 + Count(p, mid + 1, hi)
  {
    CountConstant(p, lo, mid, false);
    CountConstant(p, mid, mid + 1, true);
    CountSplit(p, lo, mid, hi);
    CountSplit(p, mid, mid + 1, hi);
  }

  /** The reference: the addresses of [lo, hi] whose own lookup gives `asn`. */
  ghost function AttributedTo(be: Lookups, asn: U32): int -> bool {
    x => 0 <= x <= MAX_IP && be(x).Found? && be(x).rec.asn == asn
  }

  /** The region answered for `ip`, from `ip` up, has one attribution. */
  ghost predicate SoundAt(be: Lookups, ip: U32) {
    && be(ip).Found? && ip <= be(ip).net.hi
    && forall x: U32 :: ip <= x <= be(ip).net.hi ==> be(x).Found? && be(x).rec.asn == be(ip).rec.asn
  }

  ghost predicate Sound(be: Lookups) {
    forall ip: U32 :: SoundAt(be, ip)
  }

  /** The region is not cut short of the next change of attribution. */
  ghost predicate MaximalAt(be: Lookups, ip: U32) {
    be(ip).Found? && be(ip).net.hi < MAX_IP ==>
      be(be(ip).net.hi + 1).Found? && be(be(ip).net.hi + 1).rec.asn != be(ip).rec.asn
  }

  ghost predicate MaximalRegions(be: Lookups) {
    forall ip: U32 :: MaximalAt(be, ip)
  }

  /** The range table as a provider, answering with `RangeTable.Lookup`. */
  function TableBackend(rs: seq<AsnRange>): Lookups {
    ip => if 0 <= ip <= MAX_IP then Found(Respond(rs, ip).rec, Respond(rs, ip).net) else Failed
  }

  /** It attributes every address as the table does, in maximal regions. */
  lemma TableIsSound(rs: seq<AsnRange>)
    requires WellFormed(rs)
    ensures Sound(TableBackend(rs)) && MaximalRegions(TableBackend(rs))
    ensures forall asn: U32, x :: AttributedTo(TableBackend(rs), asn)(x) <==>
      0 <= x <= MAX_IP && Attribution(rs, x) == asn
  {
    hide SoundAt, MaximalAt, TableBackend, AttributedTo;
    forall ip: U32 ensures SoundAt(TableBackend(rs), ip) && MaximalAt(TableBackend(rs), ip) { AnswersTable(rs, ip); }
    forall asn: U32, x { AttributesAsTable(rs, asn, x); }
  }

  lemma AttributesAsTable(rs: seq<AsnRange>, asn: U32, x: int)
    requires WellFormed(rs)
    ensures AttributedTo(TableBackend(rs), asn)(x) <==> 0 <= x <= MAX_IP && Attribution(rs, x) == asn
  {
    if 0 <= x <= MAX_IP { AnswersTable(rs, x); }
  }

  lemma RespondsAttribution(rs: seq<AsnRange>)
    requires WellFormed(rs)
    ensures forall ip: U32 :: Respond(rs, ip).rec.asn == Attribution(rs, ip)
  {
    hide Respond, Attribution, WellFormed;
    RespondsRight(rs);
  }

  lemma RegionOf(rs: seq<AsnRange>, ip: U32)
    requires WellFormed(rs)
    ensures ConstantRegion(rs, ip, Respond(rs, ip).net) && MaximalAbove(rs, ip, Respond(rs, ip).net)
  {
    hide Respond, Attribution, WellFormed, ConstantRegion;
    RespondsRight(rs);
    assert Right(rs, ip, Respond(rs, ip));
  }

  lemma AnswersTable(rs: seq<AsnRange>, ip: U32)
    requires WellFormed(rs)
    ensures SoundAt(TableBackend(rs), ip) && MaximalAt(TableBackend(rs), ip)
    ensures Respond(rs, ip).rec.asn == Attribution(rs, ip)
  {
    hide Respond, Attribution, WellFormed, Right;
    RespondsAttribution(rs);
    RegionOf(rs, ip);
  }

  // ------------------------------------------------------------- the walker

  /** The regions a walk charges, up to its end or to a failed lookup. */
  datatype Trace = Done | Broken | Charged(rec: Record, span: nat, rest: Trace)

  /** The end of the region charged at `cur`, as the walker clips it. */
  function RegionEnd(net: Network, cur: U32, hi: U32): (end: U32)
    ensures cur <= end && (cur <= hi ==> end <= hi)
  {
    Max(cur, Min(net.hi, hi))
  }

  function Walk(be: Lookups, cur: U32, hi: U32): Trace
    decreases hi - cur
  {
    match be(cur)
    case Failed => Broken
    case Found(rec, net) =>
      var end := RegionEnd(net, cur, hi);
      Charged(rec, end - cur + 1, if end == MAX_IP || end >= hi then Done else Walk(be, end + 1, hi))
  }

  lemma FirstRegion(be: Lookups, cur: U32, hi: U32)
    ensures Walk(be, cur, hi) ==
      match be(cur)
      case Failed => Broken
      case Found(rec, net) =>
        var end := RegionEnd(net, cur, hi);
        Charged(rec, end - cur + 1, if end == MAX_IP || end >= hi then Done else Walk(be, end + 1, hi))
  {}

  function Complete(t: Trace): bool {
    match t
    case Done => true
    case Broken => false
    case Charged(_, _, rest) => Complete(rest)
  }

  function Regions(t: Trace): nat {
    if t.Charged? then 1 + Regions(t.rest) else 0
  }

  function Spans(t: Trace): nat {
    if t.Charged? then t.span + Spans(t.rest) else 0
  }

  function SpansOf(t: Trace, asn: U32): nat {
    if t.Charged? then (if t.rec.asn == asn then t.span else 0) + SpansOf(t.rest, asn) else 0
  }

  /** `t` followed by `u`, unless `t` broke off. */
  function Then(t: Trace, u: Trace): Trace {
    match t
    case Done => u
    case Broken => Broken
    case Charged(rec, span, rest) => Charged(rec, span, Then(rest, u))
  }

  lemma {:induction false} ThenAdds(t: Trace, u: Trace, asn: U32)
    ensures Complete(Then(t, u)) == (Complete(t) && Complete(u))
    ensures Complete(t) ==> Spans(Then(t, u)) == Spans(t) + Spans(u)
    ensures Complete(t) ==> SpansOf(Then(t, u), asn) == SpansOf(t, asn) + SpansOf(u, asn)
  {
    if t.Charged? { ThenAdds(t.rest, u, asn); }
  }

  /** Whatever the backend answers, malformed networks included, a completed
      walk charges every address of the range exactly once in total. */
  lemma {:induction false} WalkConserves(be: Lookups, lo: U32, hi: U32)
    requires lo <= hi && Complete(Walk(be, lo, hi))
    ensures Spans(Walk(be, lo, hi)) == hi - lo + 1
    decreases hi - lo
  {
    var end := RegionEnd(be(lo).net, lo, hi);
    if end < hi { WalkConserves(be, end + 1, hi); }
  }

  /** For a sound backend the walker charges each ASN exactly the addresses
      that are attributed to it one at a time. */
  lemma {:induction false} WalkRefinesPerIP(be: Lookups, lo: U32, hi: U32, asn: U32)
    requires Sound(be) && lo <= hi
    ensures Complete(Walk(be, lo, hi))
    ensures SpansOf(Walk(be, lo, hi), asn) == Count(AttributedTo(be, asn), lo, hi + 1)
    decreases hi - lo
  {
    assert SoundAt(be, lo);
    var end := RegionEnd(be(lo).net, lo, hi);
    CountConstant(AttributedTo(be, asn), lo, end + 1, be(lo).rec.asn == asn);
    if end < hi {
      WalkRefinesPerIP(be, end + 1, hi, asn);
      CountSplit(AttributedTo(be, asn), lo, end + 1, hi + 1);
    }
  }

  /** The addresses at which the attribution differs from the one before. */
  ghost function Changes(be: Lookups): int -> bool {
    x => 0 < x <= MAX_IP && be(x).Found? && be(x - 1).Found? && be(x).rec.asn != be(x - 1).rec.asn
  }

  /** One lookup per maximal region of constant attribution, no more. */
  lemma {:induction false} WalkLookupsPerRegion(be: Lookups, lo: U32, hi: U32)
    requires Sound(be) && MaximalRegions(be) && lo <= hi
    ensures Regions(Walk(be, lo, hi)) == 1 + Count(Changes(be), lo + 1, hi + 1)
    decreases hi - lo
  {
    hide Walk, Changes, Sound, MaximalRegions;
    assert SoundAt(be, lo) && MaximalAt(be, lo) by { EverywhereSound(be, lo); }
    FirstRegion(be, lo, hi);
    var end := RegionEnd(be(lo).net, lo, hi);
    ChangesInRegion(be, lo, end);
    if end < hi {
      ChangesAfterRegion(be, lo, end, hi);
      WalkLookupsPerRegion(be, end + 1, hi);
    }
  }

  lemma EverywhereSound(be: Lookups, ip: U32)
    requires Sound(be) && MaximalRegions(be)
    ensures SoundAt(be, ip) && MaximalAt(be, ip)
  {}

  lemma ChangesInRegion(be: Lookups, lo: U32, end: U32)
    requires SoundAt(be, lo) && lo <= end <= be(lo).net.hi
    ensures Count(Changes(be), lo + 1, end + 1) == 0
  {
    var p := Changes(be);
    forall x | lo + 1 <= x < end + 1 ensures !p(x) {
      assert be(x).rec.asn == be(lo).rec.asn == be(x - 1).rec.asn;
    }
    CountConstant(p, lo + 1, end + 1, false);
  }

  lemma ChangesAfterRegion(be: Lookups, lo: U32, end: U32, hi: U32)
    requires SoundAt(be, lo) && MaximalAt(be, lo) && lo <= end == be(lo).net.hi < hi
    ensures Count(Changes(be), lo + 1, hi + 1) == 1 + Count(Changes(be), end + 2, hi + 1)
  {
    var p := Changes(be);
    forall x | lo + 1 <= x < end + 1 ensures !p(x) {
      assert be(x).rec.asn == be(lo).rec.asn == be(x - 1).rec.asn;
    }
    assert p(end + 1) by { assert be(end).rec.asn == be(lo).rec.asn; }
    CountSkip(p, lo + 1, end + 1, hi + 1);
  }

  // ------------------------------------------------------------ count maps

  type Counts = map<U32, nat>

  function Get(m: Counts, asn: U32): nat {
    if asn in m then m[asn] else 0
  }

  function Add(m: Counts, asn: U32, span: nat): Counts {
    m[asn := Get(m, asn) + span]
  }

  function Charge(m: Counts, t: Trace): Counts
    decreases t
  {
    if t.Charged? then Charge(Add(m, t.rec.asn, t.span), t.rest) else m
  }

  function LearnOne(names: map<U32, string>, rec: Record): map<U32, string> {
    if rec.asn != 0 && rec.name != "" then names[rec.asn := rec.name] else names
  }

  /** The most recently seen name of every attributed ASN. */
  function Learn(names: map<U32, string>, t: Trace): map<U32, string>
    decreases t
  {
    if t.Charged? then Learn(LearnOne(names, t.rec), t.rest) else names
  }

  ghost function Sum(m: Counts, keys: set<U32>): nat {
    if keys == {} then 0 else var k :| k in keys; Get(m, k) + Sum(m, keys - {k})
  }

  lemma {:induction false} SumSplit(m: Counts, keys: set<U32>, k: U32)
    requires k in keys
    ensures Sum(m, keys) == Get(m, k) + Sum(m, keys - {k})
  {
    var j :| j in keys && Sum(m, keys) == Get(m, j) + Sum(m, keys - {j});
    if j != k {
      SumSplit(m, keys - {j}, k);
      SumSplit(m, keys - {k}, j);
      assert keys - {j} - {k} == keys - {k} - {j};
    }
  }

  lemma {:induction false} SumElsewhere(m: Counts, keys: set<U32>, k: U32, v: nat)
    requires k !in keys
    ensures Sum(m[k := v], keys) == Sum(m, keys)
  {
    if keys != {} {
      var j :| j in keys;
      SumSplit(m, keys, j);
      SumSplit(m[k := v], keys, j);
      SumElsewhere(m, keys - {j}, k, v);
    }
  }

  ghost function Total(m: Counts): nat {
    Sum(m, m.Keys)
  }

  lemma TotalAfterAdd(m: Counts, k: U32, v: nat)
    ensures Total(Add(m, k, v)) == Total(m) + v
  {
    var grown := Add(m, k, v);
    SumSplit(grown, grown.Keys, k);
    assert grown.Keys - {k} == m.Keys - {k};
    SumElsewhere(m, m.Keys - {k}, k, Get(m, k) + v);
    if k in m { SumSplit(m, m.Keys, k); } else { assert m.Keys - {k} == m.Keys; }
  }

  lemma {:induction false} ChargeAdds(m: Counts, t: Trace, asn: U32)
    ensures Get(Charge(m, t), asn) == Get(m, asn) + SpansOf(t, asn)
    ensures Total(Charge(m, t)) == Total(m) + Spans(t)
    decreases t
  {
    if t.Charged? {
      TotalAfterAdd(m, t.rec.asn, t.span);
      ChargeAdds(Add(m, t.rec.asn, t.span), t.rest, asn);
    }
  }

  lemma {:induction false} ChargeThen(m: Counts, t: Trace, u: Trace)
    ensures Charge(m, Then(t, u)) == if Complete(t) then Charge(Charge(m, t), u) else Charge(m, t)
    decreases t
  {
    if t.Charged? { ChargeThen(Add(m, t.rec.asn, t.span), t.rest, u); }
  }

  lemma {:induction false} LearnThen(names: map<U32, string>, t: Trace, u: Trace)
    ensures Learn(names, Then(t, u)) == if Complete(t) then Learn(Learn(names, t), u) else Learn(names, t)
    decreases t
  {
    if t.Charged? { LearnThen(LearnOne(names, t.rec), t.rest, u); }
  }

  /** The name of the last region of an ASN that has one. */
  function LatestName(t: Trace, asn: U32): string {
    if !t.Charged? then ""
    else if LatestName(t.rest, asn) != "" then LatestName(t.rest, asn)
    else if t.rec.asn == asn then t.rec.name
    else ""
  }

  /** The names map keeps, of every attributed ASN, the name seen last. */
  lemma {:induction false} LearnsLatest(names: map<U32, string>, t: Trace, asn: U32)
    requires asn != 0
    ensures LatestName(t, asn) != "" ==> asn in Learn(names, t) && Learn(names, t)[asn] == LatestName(t, asn)
    ensures LatestName(t, asn) == "" ==>
      (asn in Learn(names, t) <==> asn in names) && (asn in names ==> Learn(names, t)[asn] == names[asn])
    decreases t
  {
    if t.Charged? { LearnsLatest(LearnOne(names, t.rec), t.rest, asn); }
  }

  /** The `counts` and `names` maps the counting methods fill in place. */
  class Tally {
    var counts: Counts
    var names: map<U32, string>

    constructor ()
      ensures counts == map[] && names == map[]
    {
      counts, names := map[], map[];
    }

    method ChargeOne(rec: Record, span: nat)
      modifies this
      ensures counts == Add(old(counts), rec.asn, span)
      ensures names == LearnOne(old(names), rec)
    {
      counts := counts[rec.asn := Get(counts, rec.asn) + span];
      if rec.asn != 0 && rec.name != "" {
        names := names[rec.asn := rec.name];
      }
    }

    /** `countFeedRange`. */
    method CountRange(be: Lookups, r: Range) returns (total: nat, ok: bool)
      modifies this
      ensures ok == Complete(Walk(be, r.lo, r.hi))
      ensures total == Spans(Walk(be, r.lo, r.hi))
      ensures counts == Charge(old(counts), Walk(be, r.lo, r.hi))
      ensures names == Learn(old(names), Walk(be, r.lo, r.hi))
    {
      hide Walk, RegionEnd;
      total := 0;
      var cur: U32 := r.lo;
      ghost var all := Walk(be, r.lo, r.hi);
      ghost var rest := all;
      var more := true;
      while more
        invariant rest == if more then Walk(be, cur, r.hi) else Done
        invariant Complete(all) == Complete(rest) && Spans(all) == total + Spans(rest)
        invariant Charge(old(counts), all) == Charge(counts, rest)
        invariant Learn(old(names), all) == Learn(names, rest)
        decreases more, r.hi - cur
      {
        var answer := be(cur);
        FirstRegion(be, cur, r.hi);
        if answer.Failed? {
          return total, false;
        }
        var end := RegionEnd(answer.net, cur, r.hi);
        var span := end - cur + 1;
        ChargeOne(answer.rec, span);
        total := total + span;
        rest := rest.rest;
        if end == MAX_IP || end >= r.hi {
          more := false;
        } else {
          cur := end + 1;
        }
      }
      ok := true;
    }

    /** `CountFeedContext`: every range of the feed, stopping at a failure. */
    method CountFeed(be: Lookups, feed: seq<Range>) returns (ok: bool)
      modifies this
      ensures ok == Complete(FeedTrace(be, feed))
      ensures counts == Charge(old(counts), FeedTrace(be, feed))
      ensures names == Learn(old(names), FeedTrace(be, feed))
    {
      for i := 0 to |feed|
        invariant Complete(FeedTrace(be, feed)) == Complete(FeedTrace(be, feed[i..]))
        invariant Charge(old(counts), FeedTrace(be, feed)) == Charge(counts, FeedTrace(be, feed[i..]))
        invariant Learn(old(names), FeedTrace(be, feed)) == Learn(names, FeedTrace(be, feed[i..]))
      {
        assert feed[i..][1..] == feed[i + 1..];
        ghost var t, u := Walk(be, feed[i].lo, feed[i].hi), FeedTrace(be, feed[i + 1..]);
        assert FeedTrace(be, feed[i..]) == Then(t, u);
        ThenAdds(t, u, 0);
        ChargeThen(counts, t, u);
        LearnThen(names, t, u);
        var _, walked := CountRange(be, feed[i]);
        if !walked {
          return false;
        }
      }
      ok := true;
    }
  }

  // ------------------------------------------------------------------- feeds

  function FeedTrace(be: Lookups, feed: seq<Range>): Trace {
    if feed == [] then Done else Then(Walk(be, feed[0].lo, feed[0].hi), FeedTrace(be, feed[1..]))
  }

  /** The iprange order: ascending, non-empty, non-overlapping ranges. */
  ghost predicate ValidFeed(feed: seq<Range>) {
    && (forall i :: 0 <= i < |feed| ==> feed[i].lo <= feed[i].hi)
    && (forall i, j :: 0 <= i < j < |feed| ==> feed[i].hi < feed[j].lo)
  }

  ghost predicate InFeed(feed: seq<Range>, ip: int) {
    exists i :: 0 <= i < |feed| && feed[i].lo <= ip <= feed[i].hi
  }

  ghost function Members(feed: seq<Range>): int -> bool {
    x => InFeed(feed, x)
  }

  ghost function MembersOf(be: Lookups, feed: seq<Range>, asn: U32): int -> bool {
    x => InFeed(feed, x) && AttributedTo(be, asn)(x)
  }

  /** Counting `p` over the first range and over the rest adds up. */
  lemma CountFirstRange(feed: seq<Range>, p: int -> bool, rest: int -> bool)
    requires ValidFeed(feed) && feed != []
    requires forall x :: p(x) ==> InFeed(feed, x)
    requires forall x :: x > feed[0].hi ==> (p(x) <==> rest(x))
    requires forall x :: x <= feed[0].hi ==> !rest(x)
    ensures Count(p, 0, IP_COUNT) == Count(p, feed[0].lo, feed[0].hi + 1) + Count(rest, 0, IP_COUNT)
  {
    var r := feed[0];
    forall x | 0 <= x < r.lo ensures !p(x) {
      forall i | 0 <= i < |feed| ensures !(feed[i].lo <= x <= feed[i].hi) {
        if i > 0 { assert r.hi < feed[i].lo; }
      }
    }
    CountConstant(p, 0, r.lo, false);
    CountConstant(rest, 0, r.hi + 1, false);
    CountSplit(p, 0, r.lo, IP_COUNT);
    CountSplit(p, r.lo, r.hi + 1, IP_COUNT);
    CountSplit(rest, 0, r.hi + 1, IP_COUNT);
    CountCongruent(p, rest, r.hi + 1, IP_COUNT);
  }

  lemma TailMembers(feed: seq<Range>)
    requires ValidFeed(feed) && feed != []
    ensures ValidFeed(feed[1..])
    ensures forall x :: x > feed[0].hi ==> (InFeed(feed[1..], x) <==> InFeed(feed, x))
    ensures forall x :: x <= feed[0].hi ==> !InFeed(feed[1..], x)
  {
    forall x
      ensures x > feed[0].hi ==> (InFeed(feed[1..], x) <==> InFeed(feed, x))
      ensures x <= feed[0].hi ==> !InFeed(feed[1..], x)
    {}
  }

  /** Over a whole feed, any backend: the spans charged add up to its size. */
  lemma {:induction false} FeedConserves(be: Lookups, feed: seq<Range>)
    requires ValidFeed(feed) && Complete(FeedTrace(be, feed))
    ensures Spans(FeedTrace(be, feed)) == Count(Members(feed), 0, IP_COUNT)
  {
    var p := Members(feed);
    if feed == [] {
      assert forall x :: !InFeed(feed, x);
      CountConstant(p, 0, IP_COUNT, false);
    } else {
      TailMembers(feed);
      ThenAdds(Walk(be, feed[0].lo, feed[0].hi), FeedTrace(be, feed[1..]), 0);
      WalkConserves(be, feed[0].lo, feed[0].hi);
      FeedConserves(be, feed[1..]);
      SizeFirst(feed);
    }
  }

  lemma SizeFirst(feed: seq<Range>)
    requires ValidFeed(feed) && feed != []
    ensures Count(Members(feed), 0, IP_COUNT) == feed[0].hi - feed[0].lo + 1 + Count(Members(feed[1..]), 0, IP_COUNT)
  {
    TailMembers(feed);
    CountConstant(Members(feed), feed[0].lo, feed[0].hi + 1, true);
    CountFirstRange(feed, Members(feed), Members(feed[1..]));
  }

  lemma CountFirstOf(be: Lookups, feed: seq<Range>, asn: U32)
    requires ValidFeed(feed) && feed != []
    ensures Count(MembersOf(be, feed, asn), 0, IP_COUNT)
         == Count(AttributedTo(be, asn), feed[0].lo, feed[0].hi + 1) + Count(MembersOf(be, feed[1..], asn), 0, IP_COUNT)
  {
    var p, rest := MembersOf(be, feed, asn), MembersOf(be, feed[1..], asn);
    TailMembers(feed);
    CountCongruent(p, AttributedTo(be, asn), feed[0].lo, feed[0].hi + 1);
    CountFirstRange(feed, p, rest);
  }

  /** Over a whole feed, sound backend: each ASN is charged exactly the feed
      addresses attributed to it, which refines counting address by address. */
  lemma {:induction false} FeedRefinesPerIP(be: Lookups, feed: seq<Range>, asn: U32)
    requires ValidFeed(feed) && Sound(be)
    ensures Complete(FeedTrace(be, feed))
    ensures SpansOf(FeedTrace(be, feed), asn) == Count(MembersOf(be, feed, asn), 0, IP_COUNT)
  {
    var p := MembersOf(be, feed, asn);
    if feed == [] {
      assert forall x :: !InFeed(feed, x);
      CountConstant(p, 0, IP_COUNT, false);
    } else {
      TailMembers(feed);
      WalkRefinesPerIP(be, feed[0].lo, feed[0].hi, asn);
      FeedRefinesPerIP(be, feed[1..], asn);
      ThenAdds(Walk(be, feed[0].lo, feed[0].hi), FeedTrace(be, feed[1..]), asn);
      CountFirstOf(be, feed, asn);
    }
  }

  // ------------------------------------------------ from loaded rows to counts

  /** The feed addresses whose first containing row, in sorted order, is of
      `asn`; 0 collects those in no row. */
  ghost function InRowsOf(rows: seq<AsnRange>, feed: seq<Range>, asn: U32): int -> bool {
    x => InFeed(feed, x) && Attribution(rows, x) == asn
  }

  /** From rows in any order to counts: every ASN gets exactly the addresses of
      the feed that lie in its rows, and together they are the whole feed. */
  method CountFeedInRows(a: array<AsnRange>, feed: seq<Range>)
    returns (counts: Counts, names: map<U32, string>, ghost sorted: seq<AsnRange>)
    requires AllLoaded(a[..]) && ValidFeed(feed)
    modifies a
    ensures multiset(sorted) == multiset(old(a[..])) && forall i, j :: 0 <= i < j < |sorted| ==>
      sorted[i].lo <= sorted[j].lo && (sorted[i].lo == sorted[j].lo ==> sorted[i].hi <= sorted[j].hi)
    ensures forall asn: U32 :: Get(counts, asn) == Count(InRowsOf(sorted, feed, asn), 0, IP_COUNT)
    ensures Total(counts) == Count(Members(feed), 0, IP_COUNT)
    ensures forall asn :: asn in names ==> names[asn] != "" && IsNameOf(sorted, asn, names[asn])
    ensures forall asn :: asn != 0 && AllNamed(sorted, asn) ==> (asn in names <==> Get(counts, asn) > 0)
  {
    var b;
    ghost var home;
    b, sorted, home := NewBackend(a);
    var tally := new Tally();
    TableIsSound(b.ranges);
    FeedRefinesPerIP(TableBackend(b.ranges), feed, 0);
    hide Grouped, WellFormed, Attribution;
    var ok := tally.CountFeed(TableBackend(b.ranges), feed);
    counts, names := tally.counts, tally.names;
    CountsAreOfRows(b.ranges, sorted, feed, counts);
    NamesAreOfRows(b.ranges, sorted, home, feed, counts, names);
  }

  // -------------------------------------------------------- names of the rows

  ghost predicate IsNameOf(rows: seq<AsnRange>, asn: U32, name: string) {
    exists i :: 0 <= i < |rows| && rows[i].asn == asn && rows[i].name == name
  }

  ghost predicate AllNamed(rows: seq<AsnRange>, asn: U32) {
    forall i :: 0 <= i < |rows| && rows[i].asn == asn ==> rows[i].name != ""
  }

  /** Every attributed region of a trace is a row of the table, with its name. */
  ghost predicate FromTable(t: Trace, table: seq<AsnRange>) {
    t.Charged? ==> t.span > 0 && (t.rec.asn != 0 ==> IsNameOf(table, t.rec.asn, t.rec.name)) && FromTable(t.rest, table)
  }

  lemma {:induction false} WalkFromTable(table: seq<AsnRange>, lo: U32, hi: U32)
    requires WellFormed(table)
    ensures FromTable(Walk(TableBackend(table), lo, hi), table)
    decreases hi - lo
  {
    hide WellFormed, Walk, Respond;
    RowAnswers(table, lo);
    var be := TableBackend(table);
    FirstRegion(be, lo, hi);
    var end := RegionEnd(be(lo).net, lo, hi);
    if end < hi { WalkFromTable(table, end + 1, hi); }
  }

  lemma RowAnswers(table: seq<AsnRange>, ip: U32)
    requires WellFormed(table)
    ensures
      var rec := Respond(table, ip).rec;
      rec.asn != 0 ==> IsNameOf(table, rec.asn, rec.name)
  {
    hide WellFormed, Respond, Attribution;
    RespondsRight(table);
    var r := Respond(table, ip);
    assert Right(table, ip, r);
    if r.rec.asn != 0 {
      var i :| 0 <= i < |table| && table[i] == AsnRange(r.net.lo, r.net.hi, r.rec.asn, r.rec.name);
    }
  }

  lemma {:induction false} ThenFromTable(t: Trace, u: Trace, table: seq<AsnRange>)
    requires FromTable(t, table) && FromTable(u, table)
    ensures FromTable(Then(t, u), table)
  {
    if t.Charged? { ThenFromTable(t.rest, u, table); }
  }

  lemma {:induction false} FeedFromTable(table: seq<AsnRange>, feed: seq<Range>)
    requires WellFormed(table)
    ensures FromTable(FeedTrace(TableBackend(table), feed), table)
  {
    if feed != [] {
      WalkFromTable(table, feed[0].lo, feed[0].hi);
      FeedFromTable(table, feed[1..]);
      ThenFromTable(Walk(TableBackend(table), feed[0].lo, feed[0].hi), FeedTrace(TableBackend(table), feed[1..]),
        table);
    }
  }

  lemma {:induction false} LatestIsOfTable(t: Trace, table: seq<AsnRange>, asn: U32)
    requires FromTable(t, table) && asn != 0
    ensures LatestName(t, asn) != "" ==> IsNameOf(table, asn, LatestName(t, asn))
    ensures AllNamed(table, asn) ==> (LatestName(t, asn) != "" <==> SpansOf(t, asn) > 0)
  {
    hide IsNameOf;
    if t.Charged? {
      LatestIsOfTable(t.rest, table, asn);
      if t.rec.asn == asn && AllNamed(table, asn) { NamedMeans(table, asn, t.rec.name); }
    }
  }

  lemma NamedMeans(table: seq<AsnRange>, asn: U32, name: string)
    requires AllNamed(table, asn) && IsNameOf(table, asn, name)
    ensures name != ""
  {}

  lemma {:induction false} NamesAtAreNames(rs: seq<AsnRange>, home: seq<Option<nat>>, k: nat, name: string)
    requires |home| == |rs| && name in NamesAt(rs, home, k)
    ensures exists i :: 0 <= i < |rs| && home[i] == Some(k) && rs[i].name == name
  {
    var n := |rs| - 1;
    if name in NamesAt(rs[..n], home[..n], k) {
      NamesAtAreNames(rs[..n], home[..n], k, name);
      var i :| 0 <= i < |rs[..n]| && home[..n][i] == Some(k) && rs[..n][i].name == name;
      assert home[i] == Some(k) && rs[i].name == name;
    }
  }

  lemma {:induction false} NamesAtHasHome(rs: seq<AsnRange>, home: seq<Option<nat>>, k: nat, i: nat)
    requires |home| == |rs| && i < |rs| && home[i] == Some(k)
    ensures rs[i].name in NamesAt(rs, home, k)
  {
    if i < |rs| - 1 { NamesAtHasHome(rs[..|rs| - 1], home[..|rs| - 1], k, i); }
  }

  /** The names in the table are names of the rows it was made from. */
  lemma TableNames(table: seq<AsnRange>, rows: seq<AsnRange>, home: seq<Option<nat>>, asn: U32)
    requires Grouped(rows, table, home)
    ensures forall name :: name != "" && IsNameOf(table, asn, name) ==> IsNameOf(rows, asn, name)
    ensures AllNamed(rows, asn) ==> AllNamed(table, asn)
  {
    hide Swallowed;
    forall k | 0 <= k < |table| && table[k].asn == asn
      ensures table[k].name != "" ==> IsNameOf(rows, asn, table[k].name)
      ensures AllNamed(rows, asn) ==> table[k].name != ""
    {
      assert NamedAfter(rows, table, home, k);
      var names := NamesAt(rows, home, k);
      if table[k].name != "" {
        NamesAtAreNames(rows, home, k, table[k].name);
        var i :| 0 <= i < |rows| && home[i] == Some(k) && rows[i].name == table[k].name;
        assert Housed(rows, table, home, i);
      } else if AllNamed(rows, asn) {
        var i :| 0 <= i < |rows| && home[i] == Some(k);
        assert Housed(rows, table, home, i);
        NamesAtHasHome(rows, home, k, i);
        assert false;
      }
    }
  }

  /** Only names of loaded rows are reported, and for an ASN whose rows all have
      one, exactly when the feed has addresses of it. */
  lemma NamesAreOfRows(table: seq<AsnRange>, rows: seq<AsnRange>, home: seq<Option<nat>>, feed: seq<Range>,
                       counts: Counts, names: map<U32, string>)
    requires WellFormed(table) && Grouped(rows, table, home)
    requires counts == Charge(map[], FeedTrace(TableBackend(table), feed))
    requires names == Learn(map[], FeedTrace(TableBackend(table), feed))
    ensures forall asn :: asn in names ==> names[asn] != "" && IsNameOf(rows, asn, names[asn])
    ensures forall asn :: asn != 0 && AllNamed(rows, asn) ==> (asn in names <==> Get(counts, asn) > 0)
  {
    hide Grouped, WellFormed, IsNameOf, AllNamed, FeedTrace, LatestName, FromTable, Sum;
    var t := FeedTrace(TableBackend(table), feed);
    FeedFromTable(table, feed);
    NeverLearnsZero(map[], t);
    forall asn: U32 | asn != 0
      ensures asn in names ==> names[asn] != "" && IsNameOf(rows, asn, names[asn])
      ensures AllNamed(rows, asn) ==> (asn in names <==> Get(counts, asn) > 0)
    {
      LearnsLatest(map[], t, asn);
      LatestIsOfTable(t, table, asn);
      TableNames(table, rows, home, asn);
      ChargeAdds(map[], t, asn);
    }
  }

  lemma {:induction false} NeverLearnsZero(names: map<U32, string>, t: Trace)
    requires 0 !in names
    ensures 0 !in Learn(names, t)
    decreases t
  {
    if t.Charged? { NeverLearnsZero(LearnOne(names, t.rec), t.rest); }
  }

  lemma CountsAreOfRows(table: seq<AsnRange>, rows: seq<AsnRange>, feed: seq<Range>, counts: Counts)
    requires WellFormed(table) && ValidFeed(feed) && forall ip :: Attribution(table, ip) == Attribution(rows, ip)
    requires counts == Charge(map[], FeedTrace(TableBackend(table), feed))
    ensures forall asn: U32 :: Get(counts, asn) == Count(InRowsOf(rows, feed, asn), 0, IP_COUNT)
    ensures Total(counts) == Count(Members(feed), 0, IP_COUNT)
  {
    hide Respond, Attribution, Charge, FeedTrace, WellFormed, Sum;
    var be := TableBackend(table);
    TableIsSound(table);
    forall asn: U32 ensures Get(counts, asn) == Count(InRowsOf(rows, feed, asn), 0, IP_COUNT) {
      FeedRefinesPerIP(be, feed, asn);
      ChargeAdds(map[], FeedTrace(be, feed), asn);
      CountCongruent(MembersOf(be, feed, asn), InRowsOf(rows, feed, asn), 0, IP_COUNT);
    }
    FeedRefinesPerIP(be, feed, 0);
    FeedConserves(be, feed);
    ChargeAdds(map[], FeedTrace(be, feed), 0);
    EmptyTotal();
  }

  lemma EmptyTotal()
    ensures Total(map[]) == 0
  {}
}
