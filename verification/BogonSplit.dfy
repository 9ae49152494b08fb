/** The bogon-aware split of a feed's addresses (pkg/asnloc/asnloc.go,
    pkg/engine/asn.go): direct, with a precomputed bogon count, and the
    per-feed payload assembled from either. */
module BogonSplit {
  import opened Wrappers
  import opened RangeTable
  import opened RangeWalk

  /** A feed opened through the set cache, with what the range-set library
      reports about it against the configured bogons; `None` is an I/O error. */
  datatype FeedFile = FeedFile(
    ranges: seq<Range>,
    readable: bool,
    filterBuilt: bool,
    disjoint: bool,
    overlap: Option<nat>,
    residual: Option<seq<Range>>,
    cleanBefore: bool,
    cleanAfter: bool)

  ghost function Shared(feed: seq<Range>, bogons: seq<Range>): int -> bool {
    x => InFeed(feed, x) && InFeed(bogons, x)
  }

  ghost predicate IsDifference(feed: seq<Range>, bogons: seq<Range>, rest: seq<Range>) {
    && ValidFeed(rest)
    && forall x :: InFeed(rest, x) <==> InFeed(feed, x) && !InFeed(bogons, x)
  }

  /** The set-level contract of overlap count, exclusion and overlap filter. */
  ghost predicate Honest(f: FeedFile, bogons: seq<Range>) {
    && ValidFeed(f.ranges)
    && (f.disjoint ==> forall x :: !Shared(f.ranges, bogons)(x))
    && (f.overlap.Some? ==> f.overlap.value == Count(Shared(f.ranges, bogons), 0, IP_COUNT))
    && (f.residual.Some? ==> IsDifference(f.ranges, bogons, f.residual.value))
  }

  datatype Split = Split(counts: Counts, names: map<U32, string>, bogonIPs: nat)

  /** Every address of the feed lands in exactly one bucket. */
  ghost predicate Conserves(split: Split, feed: seq<Range>) {
    Total(split.counts) + split.bogonIPs == Count(Members(feed), 0, IP_COUNT)
  }

  /** The addresses of the feed outside the bogons that carry `asn`. */
  ghost function Unshadowed(be: Lookups, feed: seq<Range>, bogons: seq<Range>, asn: U32): int -> bool {
    x => InFeed(feed, x) && !InFeed(bogons, x) && AttributedTo(be, asn)(x)
  }

  /** The split counted one address at a time. */
  ghost predicate PerAddress(split: Split, be: Lookups, feed: seq<Range>, bogons: seq<Range>) {
    && split.bogonIPs == Count(Shared(feed, bogons), 0, IP_COUNT)
    && forall asn: U32 :: Get(split.counts, asn) == Count(Unshadowed(be, feed, bogons, asn), 0, IP_COUNT)
  }

  ghost function SplitOf(be: Lookups, feed: seq<Range>, bogons: seq<Range>, rest: seq<Range>): Split {
    var t := FeedTrace(be, rest);
    Split(Charge(map[], t), Learn(map[], t), Count(Shared(feed, bogons), 0, IP_COUNT))
  }

  lemma SplitConserves(be: Lookups, feed: seq<Range>, bogons: seq<Range>, rest: seq<Range>)
    requires ValidFeed(feed) && IsDifference(feed, bogons, rest) && Complete(FeedTrace(be, rest))
    ensures Conserves(SplitOf(be, feed, bogons, rest), feed)
  {
    FeedConserves(be, rest);
    ChargeAdds(map[], FeedTrace(be, rest), 0);
    CountDisjointSum(Members(rest), Shared(feed, bogons), Members(feed), 0, IP_COUNT);
  }

  lemma SplitPerAddress(be: Lookups, feed: seq<Range>, bogons: seq<Range>, rest: seq<Range>)
    requires Sound(be) && IsDifference(feed, bogons, rest)
    ensures Complete(FeedTrace(be, rest))
    ensures PerAddress(SplitOf(be, feed, bogons, rest), be, feed, bogons)
  {
    FeedRefinesPerIP(be, rest, 0);
    forall asn: U32
      ensures Get(SplitOf(be, feed, bogons, rest).counts, asn) == Count(Unshadowed(be, feed, bogons, asn), 0, IP_COUNT)
    {
      FeedRefinesPerIP(be, rest, asn);
      ChargeAdds(map[], FeedTrace(be, rest), asn);
      CountCongruent(MembersOf(be, rest, asn), Unshadowed(be, feed, bogons, asn), 0, IP_COUNT);
    }
  }

  /** `CountFeedExcludingContext` with a bogon set. */
  method CountFeedExcluding(be: Lookups, f: FeedFile) returns (counts: Option<Counts>, names: map<U32, string>)
    ensures counts.Some? <==> f.residual.Some? && Complete(FeedTrace(be, f.residual.value))
    ensures counts.Some? ==> counts.value == Charge(map[], FeedTrace(be, f.residual.value))
    ensures counts.Some? ==> names == Learn(map[], FeedTrace(be, f.residual.value))
  {
    if f.residual.None? {
      return None, map[];
    }
    var tally := new Tally();
    var ok := tally.CountFeed(be, f.residual.value);
    counts, names := if ok then Some(tally.counts) else None, tally.names;
  }

  /** `CountFeedWithBogonsContext`. */
  method CountFeedWithBogons(be: Lookups, f: FeedFile, bogons: Option<seq<Range>>) returns (split: Option<Split>)
    requires ValidFeed(f.ranges)
    requires bogons.Some? ==> Honest(f, bogons.value)
    ensures bogons.None? ==>
      && (split.Some? <==> Complete(FeedTrace(be, f.ranges)))
      && (split.Some? ==> split.value == SplitOf(be, f.ranges, [], f.ranges))
    ensures bogons.Some? ==>
      && (split.Some? <==> f.overlap.Some? && f.residual.Some? && Complete(FeedTrace(be, f.residual.value)))
      && (split.Some? ==> split.value == SplitOf(be, f.ranges, bogons.value, f.residual.value))
  {
    if bogons.None? {
      var tally := new Tally();
      var ok := tally.CountFeed(be, f.ranges);
      NoBogons(f.ranges);
      return if ok then Some(Split(tally.counts, tally.names, 0)) else None;
    }
    if f.overlap.None? {
      return None;
    }
    var counts, names := CountFeedExcluding(be, f);
    split := if counts.Some? then Some(Split(counts.value, names, f.overlap.value)) else None;
  }

  lemma NoBogons(feed: seq<Range>)
    requires ValidFeed(feed)
    ensures IsDifference(feed, [], feed) && Count(Shared(feed, []), 0, IP_COUNT) == 0
  {
    forall x ensures !InFeed([], x) {}
    CountConstant(Shared(feed, []), 0, IP_COUNT, false);
  }

  /** A precomputed entry is the bogon count of its feed. */
  ghost predicate SplitsCorrect(splits: map<string, nat>, files: map<string, FeedFile>, bogons: seq<Range>) {
    forall name :: name in splits ==>
      name in files && splits[name] == Count(Shared(files[name].ranges, bogons), 0, IP_COUNT)
  }

  /** The set is read and its filter built, the context is live, and the filter
      settles it or the overlap could be counted. */
  predicate Precomputable(f: FeedFile) {
    && f.readable && f.filterBuilt && f.cleanBefore
    && (f.disjoint || (f.overlap.Some? && f.cleanAfter))
  }

  /** `precomputeASNBogonSplits`: the disjointness shortcut and the overlap
      count, skipping feeds with I/O errors. */
  method PrecomputeSplits(names: seq<string>, files: map<string, FeedFile>, providers: nat,
                          bogons: Option<seq<Range>>, bogonFilterBuilt: bool)
    returns (splits: Option<map<string, nat>>)
    requires forall name :: name in names ==> name in files
    requires bogons.Some? ==> forall name :: name in files ==> Honest(files[name], bogons.value)
    ensures splits.None? <==> bogons.None? || providers <= 1 || |names| == 0
    ensures splits.Some? ==> SplitsCorrect(splits.value, files, bogons.value)
    ensures splits.Some? ==> forall name :: name in splits.value <==>
      name in names && bogonFilterBuilt && Precomputable(files[name])
  {
    if bogons.None? || providers <= 1 || |names| == 0 {
      return None;
    }
    var found: map<string, nat> := map[];
    if !bogonFilterBuilt {
      return Some(found);
    }
    for i := 0 to |names|
      invariant SplitsCorrect(found, files, bogons.value)
      invariant forall name :: name in found <==> name in names[..i] && Precomputable(files[name])
    {
      var f := files[names[i]];
      assert names[..i + 1] == names[..i] + [names[i]];
      if f.readable && f.filterBuilt && f.cleanBefore {
        if f.disjoint {
          CountConstant(Shared(f.ranges, bogons.value), 0, IP_COUNT, false);
          found := found[names[i] := 0];
        } else if f.overlap.Some? {
          if f.cleanAfter {
            found := found[names[i] := f.overlap.value];
          } else {
            found := found - {names[i]};
          }
        }
      }
    }
    assert names[..|names|] == names;
    splits := Some(found);
  }

  /** `countASNFeedWithBogonSplit`: whichever path is taken, a result is the
      same split, and it conserves the addresses of the feed. */
  method CountFeedSplit(be: Lookups, files: map<string, FeedFile>, name: string,
                        bogons: Option<seq<Range>>, splits: Option<map<string, nat>>)
    returns (split: Option<Split>)
    requires name in files && ValidFeed(files[name].ranges)
    requires bogons.Some? ==> Honest(files[name], bogons.value)
    requires bogons.Some? && splits.Some? ==> SplitsCorrect(splits.value, files, bogons.value)
    ensures split.Some? <==>
      if bogons.None? then Complete(FeedTrace(be, files[name].ranges))
      else
        && files[name].residual.Some? && Complete(FeedTrace(be, files[name].residual.value))
        && ((splits.Some? && name in splits.value) || files[name].overlap.Some?)
    ensures split.Some? ==> Conserves(split.value, files[name].ranges)
    ensures split.Some? && bogons.None? ==> split.value == SplitOf(be, files[name].ranges, [], files[name].ranges)
    ensures split.Some? && bogons.Some? ==> files[name].residual.Some?
    ensures split.Some? && bogons.Some? ==>
      split.value == SplitOf(be, files[name].ranges, bogons.value, files[name].residual.value)
    ensures split.Some? && Sound(be) ==>
      PerAddress(split.value, be, files[name].ranges, if bogons.Some? then bogons.value else [])
  {
    var f := files[name];
    ghost var against := if bogons.Some? then bogons.value else [];
    if bogons.Some? && splits.Some? && name in splits.value {
      var counts, names := CountFeedExcluding(be, f);
      split := if counts.Some? then Some(Split(counts.value, names, splits.value[name])) else None;
    } else {
      split := CountFeedWithBogons(be, f, bogons);
    }
    NoBogons(f.ranges);
    if split.Some? {
      ghost var rest := if bogons.Some? then f.residual.value else f.ranges;
      SplitConserves(be, f.ranges, against, rest);
      if Sound(be) { SplitPerAddress(be, f.ranges, against, rest); }
    }
  }

  // ------------------------------------------------------------- the payload

  datatype AsnRow = AsnRow(asn: U32, name: string, count: nat)

  datatype FeedJson = FeedJson(
    provider: string, feedIPs: nat, attributedIPs: nat, bogonIPs: nat, unknownIPs: nat, byASN: seq<AsnRow>)

  /** The comparator of the by_asn rows: larger counts first, then lower ASN. */
  predicate RowBefore(a: AsnRow, b: AsnRow) {
    a.count > b.count || (a.count == b.count && a.asn < b.asn)
  }

  ghost predicate RowsSorted(rows: seq<AsnRow>) {
    forall i, j :: 0 <= i < j < |rows| ==> RowBefore(rows[i], rows[j])
  }

  ghost predicate RowsFor(rows: seq<AsnRow>, m: Counts, names: map<U32, string>, keys: set<U32>) {
    forall row :: row in rows <==>
      row.asn in keys && row.asn != 0 && row.asn in m
      && row == AsnRow(row.asn, if row.asn in names then names[row.asn] else "", m[row.asn])
  }

  method InsertRow(rows: seq<AsnRow>, row: AsnRow) returns (out: seq<AsnRow>)
    requires RowsSorted(rows) && forall i :: 0 <= i < |rows| ==> rows[i].asn != row.asn
    ensures RowsSorted(out)
    ensures forall r :: r in out <==> r in rows || r == row
  {
    var i := 0;
    while i < |rows| && RowBefore(rows[i], row)
      invariant i <= |rows|
      invariant forall j :: 0 <= j < i ==> RowBefore(rows[j], row)
    {
      i := i + 1;
    }
    out := rows[..i] + [row] + rows[i..];
    assert forall r :: r in rows <==> r in rows[..i] || r in rows[i..];
  }

  /** `buildASNFeedJSON`: the four totals add up, ASN 0 is reported only as
      unknown, and every other ASN has exactly one row, in output order. */
  method BuildFeedJson(provider: string, counts: Counts, names: map<U32, string>, bogonIPs: nat) returns (out: FeedJson)
    ensures out.feedIPs == out.attributedIPs + out.bogonIPs + out.unknownIPs
    ensures out.feedIPs == Total(counts) + bogonIPs
    ensures out.unknownIPs == Get(counts, 0) && out.bogonIPs == bogonIPs && out.provider == provider
    ensures RowsSorted(out.byASN) && RowsFor(out.byASN, counts, names, counts.Keys)
    ensures forall i, j :: 0 <= i < j < |out.byASN| ==>
      && out.byASN[i].asn != out.byASN[j].asn && out.byASN[i].count >= out.byASN[j].count
      && (out.byASN[i].count == out.byASN[j].count ==> out.byASN[i].asn < out.byASN[j].asn)
    ensures forall asn: U32 :: asn != 0 && asn in counts ==>
      AsnRow(asn, if asn in names then names[asn] else "", counts[asn]) in out.byASN
    ensures forall row :: row in out.byASN ==> row.asn != 0 && row.asn in counts
  {
    var attributed: nat := 0;
    var rows: seq<AsnRow> := [];
    var todo := counts.Keys;
    while todo != {}
      invariant todo <= counts.Keys
      invariant Total(counts)
             == attributed + Sum(counts, todo) + if 0 in counts.Keys - todo then Get(counts, 0) else 0
      invariant RowsSorted(rows) && RowsFor(rows, counts, names, counts.Keys - todo)
      decreases todo
    {
      var asn :| asn in todo;
      SumSplit(counts, todo, asn);
      if asn != 0 {
        attributed := attributed + counts[asn];
        rows := InsertRow(rows, AsnRow(asn, if asn in names then names[asn] else "", counts[asn]));
      }
      todo := todo - {asn};
    }
    var unknown := Get(counts, 0);
    out := FeedJson(provider, attributed + bogonIPs + unknown, attributed, bogonIPs, unknown, rows);
  }
}
