/** Per-country and per-ASN details aggregated from feed sidecars:
    the detail builders (pkg/engine/home_entity_precompute.go) and the
    targeted and full aggregation (pkg/engine/entity_detail_selection.go). */
module EntityDetail {
  import opened Wrappers

  type Asn = nat

  datatype JointAsn = JointAsn(asn: Asn, name: string, count: nat)
  datatype CountryRow = CountryRow(code: string, attributedIPs: nat, asns: seq<JointAsn>)
  datatype AsnRow = AsnRow(asn: Asn, name: string, attributedIPs: nat)

  /** What a sidecar says about its feed besides the rows. */
  datatype FeedInfo = FeedInfo(
    feed: string, category: string, provenance: string, maintainer: string, uniqueIPs: nat, lastChange: int)

  /** A feed sidecar, with country codes already trimmed and upper-cased. */
  datatype Sidecar = Sidecar(info: FeedInfo, countries: seq<CountryRow>, asns: seq<AsnRow>)

  /** One feed visited by a walk, with its maintainer's URL in the catalog. */
  datatype Visit = Visit(sidecar: Sidecar, maintainerURL: string)

  // ---------------------------------------------------------------- builders

  datatype FeedRow = FeedRow(info: FeedInfo, attributedIPs: nat)

  /** One call of the facet accumulator; its two tables depend on nothing else. */
  datatype FacetAdd = FacetAdd(category: string, maintainer: string, maintainerURL: string, attributedIPs: nat)

  datatype AsnTotal = AsnTotal(name: string, feedCount: nat, attributedIPs: nat)
  datatype CountryTotal = CountryTotal(feedCount: nat, attributedIPs: nat)

  datatype CountryBuilder = CountryBuilder(
    code: string, feeds: seq<FeedRow>, facets: seq<FacetAdd>, asnTotals: map<Asn, AsnTotal>, totalAttributed: nat)

  datatype AsnBuilder = AsnBuilder(
    asn: Asn, name: string, feeds: seq<FeedRow>, facets: seq<FacetAdd>,
    countryTotals: map<string, CountryTotal>, totalAttributed: nat, totalMapped: nat)

  function NewCountry(code: string): CountryBuilder {
    CountryBuilder(code, [], [], map[], 0)
  }

  function NewAsn(asn: Asn): AsnBuilder {
    AsnBuilder(asn, "", [], [], map[], 0, 0)
  }

  function AddJointAsn(b: CountryBuilder, j: JointAsn): CountryBuilder {
    if j.asn == 0 || j.count == 0 then b
    else
      var old' := if j.asn in b.asnTotals then b.asnTotals[j.asn] else AsnTotal("", 0, 0);
      b.(asnTotals := b.asnTotals[j.asn :=
        AsnTotal(if old'.name == "" then j.name else old'.name, old'.feedCount + 1, old'.attributedIPs + j.count)])
  }

  function AddJointAsns(b: CountryBuilder, js: seq<JointAsn>): CountryBuilder {
    if js == [] then b else AddJointAsn(AddJointAsns(b, js[..|js| - 1]), js[|js| - 1])
  }

  /** `addFeed` and then `addASN` for every joint row. */
  function AddCountryRow(b: CountryBuilder, v: Visit, row: CountryRow): CountryBuilder {
    var info := v.sidecar.info;
    AddJointAsns(
      b.(feeds := b.feeds + [FeedRow(info, row.attributedIPs)],
         facets := b.facets + [FacetAdd(info.category, info.maintainer, v.maintainerURL, row.attributedIPs)],
         totalAttributed := b.totalAttributed + row.attributedIPs),
      row.asns)
  }

  function AddAsnRow(b: AsnBuilder, v: Visit, row: AsnRow): AsnBuilder {
    var info := v.sidecar.info;
    b.(name := if b.name == "" then row.name else b.name,
       feeds := b.feeds + [FeedRow(info, row.attributedIPs)],
       facets := b.facets + [FacetAdd(info.category, info.maintainer, v.maintainerURL, row.attributedIPs)],
       totalAttributed := b.totalAttributed + row.attributedIPs)
  }

  datatype CountryShare = CountryShare(code: string, count: nat)

  function AddShare(b: AsnBuilder, c: CountryShare): AsnBuilder {
    if c.code == "" || c.count == 0 then b
    else
      var old' := if c.code in b.countryTotals then b.countryTotals[c.code] else CountryTotal(0, 0);
      b.(countryTotals := b.countryTotals[c.code := CountryTotal(old'.feedCount + 1, old'.attributedIPs + c.count)],
         totalMapped := b.totalMapped + c.count)
  }

  function AddShares(b: AsnBuilder, cs: seq<CountryShare>): AsnBuilder {
    if cs == [] then b else AddShare(AddShares(b, cs[..|cs| - 1]), cs[|cs| - 1])
  }

  /** `index.asnCountries`: the joint rows of one ASN across the countries. */
  function SharesInRow(row: CountryRow, js: seq<JointAsn>, asn: Asn): seq<CountryShare> {
    if js == [] || row.code == "" then []
    else
      var j := js[|js| - 1];
      SharesInRow(row, js[..|js| - 1], asn)
      + if j.asn == asn && j.asn != 0 && j.count != 0 then [CountryShare(row.code, j.count)] else []
  }

  function Shares(rows: seq<CountryRow>, asn: Asn): seq<CountryShare> {
    if rows == [] then []
    else Shares(rows[..|rows| - 1], asn) + SharesInRow(rows[|rows| - 1], rows[|rows| - 1].asns, asn)
  }

  /** `build`: no detail without feeds. The published detail is a function of
      the builder and of the two provider names, which no run changes. */
  function BuildCountry(b: CountryBuilder): Option<CountryBuilder> {
    if |b.feeds| == 0 then None else Some(b)
  }

  function BuildAsn(b: AsnBuilder): Option<AsnBuilder> {
    if |b.feeds| == 0 then None else Some(b)
  }

  // ----------------------------------------------- reference: one entity alone

  /** What one visit contributes to the builder of one country. */
  function CountryRows(b: CountryBuilder, v: Visit, rows: seq<CountryRow>): CountryBuilder {
    if rows == [] then b
    else
      var before := CountryRows(b, v, rows[..|rows| - 1]);
      var row := rows[|rows| - 1];
      if row.code == b.code then AddCountryRow(before, v, row) else before
  }

  function AsnFeeds(b: AsnBuilder, v: Visit, rows: seq<AsnRow>): AsnBuilder {
    if rows == [] then b
    else
      var before := AsnFeeds(b, v, rows[..|rows| - 1]);
      var row := rows[|rows| - 1];
      if row.asn == b.asn && row.attributedIPs != 0 then AddAsnRow(before, v, row) else before
  }

  function AsnShares(b: AsnBuilder, v: Visit, rows: seq<AsnRow>): AsnBuilder {
    if rows == [] then b
    else
      var before := AsnShares(b, v, rows[..|rows| - 1]);
      if rows[|rows| - 1].asn == b.asn then AddShares(before, Shares(v.sidecar.countries, b.asn)) else before
  }

  function AsnVisit(b: AsnBuilder, v: Visit): AsnBuilder {
    AsnShares(AsnFeeds(b, v, v.sidecar.asns), v, v.sidecar.asns)
  }

  /** The detail of one entity as the fold of every visit's contribution. */
  function CountryFold(code: string, walk: seq<Visit>): CountryBuilder {
    if walk == [] then NewCountry(code)
    else CountryRows(CountryFold(code, walk[..|walk| - 1]), walk[|walk| - 1], walk[|walk| - 1].sidecar.countries)
  }

  function AsnFold(asn: Asn, walk: seq<Visit>): AsnBuilder {
    if walk == [] then NewAsn(asn)
    else AsnVisit(AsnFold(asn, walk[..|walk| - 1]), walk[|walk| - 1])
  }

  function CountryDetail(code: string, walk: seq<Visit>): Option<CountryBuilder> {
    if code == "" then None else BuildCountry(CountryFold(code, walk))
  }

  function AsnDetail(asn: Asn, walk: seq<Visit>): Option<AsnBuilder> {
    if asn == 0 then None else BuildAsn(AsnFold(asn, walk))
  }

  /** A row without addresses brings no joint rows with it: so does every row
      `sortedFeedEntityASNs` keeps, and every row decoded from the old format. */
  ghost predicate Regular(s: Sidecar) {
    forall i :: 0 <= i < |s.asns| && s.asns[i].attributedIPs == 0 ==> Shares(s.countries, s.asns[i].asn) == []
  }

  // ------------------------------------------------ the aggregation, on values

  datatype Mode = Mode(full: bool, countries: set<string>, asns: set<Asn>)

  predicate WantsCountry(mode: Mode, code: string) {
    code != "" && (mode.full || code in mode.countries)
  }

  predicate WantsAsn(mode: Mode, asn: Asn) {
    asn != 0 && (mode.full || asn in mode.asns)
  }

  type CountryMap = map<string, CountryBuilder>
  type AsnMap = map<Asn, AsnBuilder>

  function CountryAt(m: CountryMap, code: string): CountryBuilder {
    if code in m then m[code] else NewCountry(code)
  }

  function AsnAt(m: AsnMap, asn: Asn): AsnBuilder {
    if asn in m then m[asn] else NewAsn(asn)
  }

  /** The three loops of `addFeedSidecar`. */
  function CountryLoop(m: CountryMap, mode: Mode, v: Visit, rows: seq<CountryRow>): CountryMap {
    if rows == [] then m
    else
      var before := CountryLoop(m, mode, v, rows[..|rows| - 1]);
      var row := rows[|rows| - 1];
      if !WantsCountry(mode, row.code) then before
      else before[row.code := AddCountryRow(CountryAt(before, row.code), v, row)]
  }

  function AsnFeedLoop(m: AsnMap, mode: Mode, v: Visit, rows: seq<AsnRow>): AsnMap {
    if rows == [] then m
    else
      var before := AsnFeedLoop(m, mode, v, rows[..|rows| - 1]);
      var row := rows[|rows| - 1];
      if row.attributedIPs == 0 || !WantsAsn(mode, row.asn) then before
      else before[row.asn := AddAsnRow(AsnAt(before, row.asn), v, row)]
  }

  function AsnShareLoop(m: AsnMap, mode: Mode, v: Visit, rows: seq<AsnRow>): AsnMap {
    if rows == [] then m
    else
      var before := AsnShareLoop(m, mode, v, rows[..|rows| - 1]);
      var row := rows[|rows| - 1];
      if !WantsAsn(mode, row.asn) || row.asn !in before then before
      else before[row.asn := AddShares(before[row.asn], Shares(v.sidecar.countries, row.asn))]
  }

  predicate NeedsCountries(mode: Mode, s: Sidecar) {
    mode.full || exists i ::
      0 <= i < |s.countries| && s.countries[i].code != "" && s.countries[i].code in mode.countries
  }

  predicate NeedsAsns(mode: Mode, s: Sidecar) {
    mode.full || exists i :: 0 <= i < |s.asns| && s.asns[i].asn != 0 && s.asns[i].asn in mode.asns
  }

  datatype Builders = Builders(countries: CountryMap, asns: AsnMap)

  function Targets(mode: Mode): Builders {
    if mode.full then Builders(map[], map[])
    else Builders(map c | c in mode.countries :: NewCountry(c), map a | a in mode.asns :: NewAsn(a))
  }

  function AddVisit(b: Builders, mode: Mode, v: Visit): Builders {
    Builders(
      if NeedsCountries(mode, v.sidecar) then CountryLoop(b.countries, mode, v, v.sidecar.countries) else b.countries,
      if NeedsAsns(mode, v.sidecar)
      then AsnShareLoop(AsnFeedLoop(b.asns, mode, v, v.sidecar.asns), mode, v, v.sidecar.asns)
      else b.asns)
  }

  function Aggregate(mode: Mode, walk: seq<Visit>): Builders {
    if walk == [] then Targets(mode) else AddVisit(Aggregate(mode, walk[..|walk| - 1]), mode, walk[|walk| - 1])
  }

  // ------------------------------------ aggregation agrees with the reference

  lemma {:induction false} JointKeepsFeeds(b: CountryBuilder, js: seq<JointAsn>)
    ensures AddJointAsns(b, js).code == b.code && AddJointAsns(b, js).feeds == b.feeds
  {
    if js != [] { JointKeepsFeeds(b, js[..|js| - 1]); }
  }

  lemma CountryRowAddsFeed(b: CountryBuilder, v: Visit, row: CountryRow)
    ensures AddCountryRow(b, v, row).code == b.code
    ensures AddCountryRow(b, v, row).feeds == b.feeds + [FeedRow(v.sidecar.info, row.attributedIPs)]
  {
    var info := v.sidecar.info;
    JointKeepsFeeds(
      b.(feeds := b.feeds + [FeedRow(info, row.attributedIPs)],
         facets := b.facets + [FacetAdd(info.category, info.maintainer, v.maintainerURL, row.attributedIPs)],
         totalAttributed := b.totalAttributed + row.attributedIPs),
      row.asns);
  }

  ghost predicate MentionsCountry(rows: seq<CountryRow>, code: string) {
    exists i :: 0 <= i < |rows| && rows[i].code == code
  }

  /** A row that can create a builder in a full aggregation. */
  ghost predicate MentionsAsn(rows: seq<AsnRow>, asn: Asn) {
    exists i :: 0 <= i < |rows| && rows[i].asn == asn && rows[i].attributedIPs != 0
  }

  ghost predicate ListsAsn(rows: seq<AsnRow>, asn: Asn) {
    exists i :: 0 <= i < |rows| && rows[i].asn == asn
  }

  lemma MentionsLast(rows: seq<CountryRow>, code: string)
    requires rows != []
    ensures MentionsCountry(rows, code) <==> rows[|rows| - 1].code == code || MentionsCountry(rows[..|rows| - 1], code)
  {
    if i :| 0 <= i < |rows| - 1 && rows[i].code == code { assert rows[..|rows| - 1][i].code == code; }
  }

  lemma MentionsAsnLast(rows: seq<AsnRow>, asn: Asn)
    requires rows != []
    ensures
      var last, rest := rows[|rows| - 1], rows[..|rows| - 1];
      && (MentionsAsn(rows, asn) <==> (last.asn == asn && last.attributedIPs != 0) || MentionsAsn(rest, asn))
      && (ListsAsn(rows, asn) <==> last.asn == asn || ListsAsn(rest, asn))
  {
    if i :| 0 <= i < |rows| - 1 && rows[i].asn == asn && rows[i].attributedIPs != 0 {
      assert rows[..|rows| - 1][i].asn == asn && rows[..|rows| - 1][i].attributedIPs != 0;
    }
    if i :| 0 <= i < |rows| - 1 && rows[i].asn == asn { assert rows[..|rows| - 1][i].asn == asn; }
  }

  lemma {:induction false} CountryRowsEffect(b: CountryBuilder, v: Visit, rows: seq<CountryRow>)
    ensures CountryRows(b, v, rows).code == b.code
    ensures !MentionsCountry(rows, b.code) ==> CountryRows(b, v, rows) == b
  {
    if rows != [] {
      var n := |rows| - 1;
      CountryRowsEffect(b, v, rows[..n]);
      CountryRowAddsFeed(CountryRows(b, v, rows[..n]), v, rows[n]);
      MentionsLast(rows, b.code);
    }
  }

  /** The map-wide loop, looked at in one wanted country, is the reference. */
  lemma {:induction false} CountryLoopAt(m: CountryMap, mode: Mode, v: Visit, rows: seq<CountryRow>, code: string)
    requires CountryAt(m, code).code == code && WantsCountry(mode, code)
    ensures CountryAt(CountryLoop(m, mode, v, rows), code) == CountryRows(CountryAt(m, code), v, rows)
    ensures code in CountryLoop(m, mode, v, rows) <==> code in m || MentionsCountry(rows, code)
  {
    if rows != [] {
      var n := |rows| - 1;
      CountryLoopAt(m, mode, v, rows[..n], code);
      CountryRowsEffect(CountryAt(m, code), v, rows[..n]);
      MentionsLast(rows, code);
    }
  }

  lemma {:induction false} AsnFeedsEffect(b: AsnBuilder, v: Visit, rows: seq<AsnRow>)
    ensures AsnFeeds(b, v, rows).asn == b.asn
    ensures !MentionsAsn(rows, b.asn) ==> AsnFeeds(b, v, rows) == b
  {
    if rows != [] {
      AsnFeedsEffect(b, v, rows[..|rows| - 1]);
      MentionsAsnLast(rows, b.asn);
    }
  }

  lemma {:induction false} AsnFeedLoopAt(m: AsnMap, mode: Mode, v: Visit, rows: seq<AsnRow>, asn: Asn)
    requires AsnAt(m, asn).asn == asn && WantsAsn(mode, asn)
    ensures AsnAt(AsnFeedLoop(m, mode, v, rows), asn) == AsnFeeds(AsnAt(m, asn), v, rows)
    ensures asn in AsnFeedLoop(m, mode, v, rows) <==> asn in m || MentionsAsn(rows, asn)
  {
    if rows != [] {
      var n := |rows| - 1;
      AsnFeedLoopAt(m, mode, v, rows[..n], asn);
      AsnFeedsEffect(AsnAt(m, asn), v, rows[..n]);
      MentionsAsnLast(rows, asn);
    }
  }

  lemma {:induction false} SharesKeepFeeds(b: AsnBuilder, cs: seq<CountryShare>)
    ensures AddShares(b, cs).asn == b.asn && AddShares(b, cs).feeds == b.feeds
  {
    if cs != [] { SharesKeepFeeds(b, cs[..|cs| - 1]); }
  }

  lemma {:induction false} AsnSharesEffect(b: AsnBuilder, v: Visit, rows: seq<AsnRow>)
    ensures AsnShares(b, v, rows).asn == b.asn && AsnShares(b, v, rows).feeds == b.feeds
    ensures !ListsAsn(rows, b.asn) || Shares(v.sidecar.countries, b.asn) == [] ==> AsnShares(b, v, rows) == b
  {
    if rows != [] {
      AsnSharesEffect(b, v, rows[..|rows| - 1]);
      MentionsAsnLast(rows, b.asn);
      SharesKeepFeeds(AsnShares(b, v, rows[..|rows| - 1]), Shares(v.sidecar.countries, b.asn));
    }
  }

  lemma {:induction false} AsnShareLoopAt(m: AsnMap, mode: Mode, v: Visit, rows: seq<AsnRow>, asn: Asn)
    requires AsnAt(m, asn).asn == asn && WantsAsn(mode, asn)
    ensures asn in AsnShareLoop(m, mode, v, rows) <==> asn in m
    ensures asn in m ==> AsnShareLoop(m, mode, v, rows)[asn] == AsnShares(m[asn], v, rows)
  {
    if rows != [] {
      AsnShareLoopAt(m, mode, v, rows[..|rows| - 1], asn);
      AsnSharesEffect(AsnAt(m, asn), v, rows[..|rows| - 1]);
    }
  }

  /** Both ASN loops together; a builder that does not exist yet may only miss
      shares a regular sidecar does not have. */
  lemma AsnLoopsAt(m: AsnMap, mode: Mode, v: Visit, asn: Asn)
    requires AsnAt(m, asn).asn == asn && WantsAsn(mode, asn)
    requires asn in m || Regular(v.sidecar)
    ensures
      var rows := v.sidecar.asns;
      var m' := AsnShareLoop(AsnFeedLoop(m, mode, v, rows), mode, v, rows);
      && AsnAt(m', asn) == AsnVisit(AsnAt(m, asn), v)
      && (asn in m' <==> asn in m || MentionsAsn(rows, asn))
  {
    var rows := v.sidecar.asns;
    var m1 := AsnFeedLoop(m, mode, v, rows);
    AsnFeedLoopAt(m, mode, v, rows, asn);
    AsnFeedsEffect(AsnAt(m, asn), v, rows);
    AsnShareLoopAt(m1, mode, v, rows, asn);
    if asn !in m1 {
      if ListsAsn(rows, asn) {
        var i :| 0 <= i < |rows| && rows[i].asn == asn;
        assert rows[i].attributedIPs == 0;
      }
      AsnSharesEffect(AsnAt(m, asn), v, rows);
    }
  }

  lemma {:induction false} FoldsKeepNames(code: string, asn: Asn, walk: seq<Visit>)
    ensures CountryFold(code, walk).code == code && AsnFold(asn, walk).asn == asn
  {
    if walk != [] {
      var n := |walk| - 1;
      FoldsKeepNames(code, asn, walk[..n]);
      CountryRowsEffect(CountryFold(code, walk[..n]), walk[n], walk[n].sidecar.countries);
      AsnFeedsEffect(AsnFold(asn, walk[..n]), walk[n], walk[n].sidecar.asns);
      AsnSharesEffect(AsnFeeds(AsnFold(asn, walk[..n]), walk[n], walk[n].sidecar.asns), walk[n], walk[n].sidecar.asns);
    }
  }

  /** The builders of an aggregation are the reference folds; entities without
      a builder are those whose fold never left its initial value. */
  lemma {:induction false} AggregateCountry(mode: Mode, walk: seq<Visit>, code: string)
    requires WantsCountry(mode, code)
    ensures CountryAt(Aggregate(mode, walk).countries, code) == CountryFold(code, walk)
  {
    if walk != [] {
      var n := |walk| - 1;
      var v := walk[n];
      AggregateCountry(mode, walk[..n], code);
      FoldsKeepNames(code, 0, walk[..n]);
      CountryLoopAt(Aggregate(mode, walk[..n]).countries, mode, v, v.sidecar.countries, code);
      if !NeedsCountries(mode, v.sidecar) {
        assert !MentionsCountry(v.sidecar.countries, code);
        CountryRowsEffect(CountryFold(code, walk[..n]), v, v.sidecar.countries);
      }
    }
  }

  ghost predicate AllRegular(walk: seq<Visit>) {
    forall i :: 0 <= i < |walk| ==> Regular(walk[i].sidecar)
  }

  lemma {:induction false} AggregateAsn(mode: Mode, walk: seq<Visit>, asn: Asn)
    requires WantsAsn(mode, asn) && (mode.full ==> AllRegular(walk))
    ensures AsnAt(Aggregate(mode, walk).asns, asn) == AsnFold(asn, walk)
    ensures !mode.full ==> asn in Aggregate(mode, walk).asns
  {
    if walk != [] {
      var n := |walk| - 1;
      var v := walk[n];
      AggregateAsn(mode, walk[..n], asn);
      FoldsKeepNames("", asn, walk[..n]);
      AsnLoopsAt(Aggregate(mode, walk[..n]).asns, mode, v, asn);
      if !NeedsAsns(mode, v.sidecar) {
        assert !ListsAsn(v.sidecar.asns, asn) && !MentionsAsn(v.sidecar.asns, asn);
        AsnFeedsEffect(AsnFold(asn, walk[..n]), v, v.sidecar.asns);
        AsnSharesEffect(AsnFold(asn, walk[..n]), v, v.sidecar.asns);
      }
    }
  }

  function CountryResult(b: Builders, code: string): Option<CountryBuilder> {
    if code in b.countries then BuildCountry(b.countries[code]) else None
  }

  function AsnResult(b: Builders, asn: Asn): Option<AsnBuilder> {
    if asn in b.asns then BuildAsn(b.asns[asn]) else None
  }

  /** Targeted or full, the detail of a wanted entity is the one aggregated
      from the feeds for that entity alone. */
  lemma ResultsAreDetails(mode: Mode, walk: seq<Visit>, code: string, asn: Asn)
    ensures WantsCountry(mode, code) ==> CountryResult(Aggregate(mode, walk), code) == CountryDetail(code, walk)
    ensures WantsAsn(mode, asn) && (mode.full ==> AllRegular(walk)) ==>
      AsnResult(Aggregate(mode, walk), asn) == AsnDetail(asn, walk)
  {
    if WantsCountry(mode, code) { AggregateCountry(mode, walk, code); }
    if WantsAsn(mode, asn) && (mode.full ==> AllRegular(walk)) { AggregateAsn(mode, walk, asn); }
  }

  // ------------------------- rows without addresses: what a full run loses

  /** The joint addresses the listed rows of one visit would add. */
  function SharesTotal(cs: seq<CountryShare>): nat {
    if cs == [] then 0 else SharesTotal(cs[..|cs| - 1]) + cs[|cs| - 1].count
  }

  function ListedTotal(v: Visit, rows: seq<AsnRow>, asn: Asn): nat {
    if rows == [] then 0
    else
      ListedTotal(v, rows[..|rows| - 1], asn)
      + if rows[|rows| - 1].asn == asn then SharesTotal(Shares(v.sidecar.countries, asn)) else 0
  }

  function MappedTotal(asn: Asn, walk: seq<Visit>): nat {
    if walk == [] then 0
    else MappedTotal(asn, walk[..|walk| - 1]) + ListedTotal(walk[|walk| - 1], walk[|walk| - 1].sidecar.asns, asn)
  }

  ghost predicate RealShares(cs: seq<CountryShare>) {
    forall i :: 0 <= i < |cs| ==> cs[i].code != "" && cs[i].count != 0
  }

  lemma {:induction false} SharesAreReal(rows: seq<CountryRow>, asn: Asn)
    ensures RealShares(Shares(rows, asn))
  {
    if rows != [] {
      SharesAreReal(rows[..|rows| - 1], asn);
      SharesInRowAreReal(rows[|rows| - 1], rows[|rows| - 1].asns, asn);
    }
  }

  lemma {:induction false} SharesInRowAreReal(row: CountryRow, js: seq<JointAsn>, asn: Asn)
    ensures RealShares(SharesInRow(row, js, asn))
  {
    if js != [] { SharesInRowAreReal(row, js[..|js| - 1], asn); }
  }

  lemma {:induction false} SharesMap(b: AsnBuilder, cs: seq<CountryShare>)
    requires RealShares(cs)
    ensures AddShares(b, cs).totalMapped == b.totalMapped + SharesTotal(cs)
    ensures SharesTotal(cs) == 0 <==> cs == []
  {
    if cs != [] {
      assert cs[|cs| - 1].count != 0;
      SharesMap(b, cs[..|cs| - 1]);
    }
  }

  lemma {:induction false} VisitMaps(b: AsnBuilder, v: Visit, rows: seq<AsnRow>)
    ensures AsnShares(b, v, rows).totalMapped == b.totalMapped + ListedTotal(v, rows, b.asn)
    ensures AsnFeeds(b, v, rows).totalMapped == b.totalMapped
    ensures ListedTotal(v, rows, b.asn) == 0 ==> AsnShares(b, v, rows) == b
  {
    if rows != [] {
      var n := |rows| - 1;
      VisitMaps(b, v, rows[..n]);
      SharesAreReal(v.sidecar.countries, b.asn);
      SharesMap(AsnShares(b, v, rows[..n]), Shares(v.sidecar.countries, b.asn));
      AsnSharesEffect(b, v, rows[..n]);
    }
  }

  /** The fold of some visits continued from a given builder. */
  function AsnFoldFrom(b: AsnBuilder, walk: seq<Visit>): AsnBuilder {
    if walk == [] then b else AsnVisit(AsnFoldFrom(b, walk[..|walk| - 1]), walk[|walk| - 1])
  }

  lemma {:induction false} FoldFromMaps(b: AsnBuilder, walk: seq<Visit>)
    ensures AsnFoldFrom(b, walk).asn == b.asn
    ensures AsnFoldFrom(b, walk).totalMapped == b.totalMapped + MappedTotal(b.asn, walk)
  {
    if walk != [] {
      var n := |walk| - 1;
      var v := walk[n];
      var before := AsnFoldFrom(b, walk[..n]);
      FoldFromMaps(b, walk[..n]);
      AsnFeedsEffect(before, v, v.sidecar.asns);
      VisitMaps(before, v, v.sidecar.asns);
      VisitMaps(AsnFeeds(before, v, v.sidecar.asns), v, v.sidecar.asns);
      AsnSharesEffect(AsnFeeds(before, v, v.sidecar.asns), v, v.sidecar.asns);
    }
  }

  /** Nothing counted and nothing mapped leaves the initial builder. */
  lemma {:induction false} SilentPrefix(asn: Asn, walk: seq<Visit>)
    requires forall i :: 0 <= i < |walk| ==> !MentionsAsn(walk[i].sidecar.asns, asn)
    ensures MappedTotal(asn, walk) == 0 ==> AsnFold(asn, walk) == NewAsn(asn)
    ensures AsnFold(asn, walk).asn == asn && AsnFold(asn, walk).feeds == []
  {
    if walk != [] {
      var n := |walk| - 1;
      var v := walk[n];
      assert !MentionsAsn(v.sidecar.asns, asn);
      SilentPrefix(asn, walk[..n]);
      AsnFeedsEffect(AsnFold(asn, walk[..n]), v, v.sidecar.asns);
      AsnSharesEffect(AsnFold(asn, walk[..n]), v, v.sidecar.asns);
      VisitMaps(AsnFold(asn, walk[..n]), v, v.sidecar.asns);
    }
  }

  lemma {:induction false} FoldSplits(asn: Asn, a: seq<Visit>, b: seq<Visit>)
    ensures AsnFold(asn, a + b) == AsnFoldFrom(AsnFold(asn, a), b)
  {
    if b == [] {
      assert a + b == a;
    } else {
      assert (a + b)[..|a + b| - 1] == a + b[..|b| - 1];
      FoldSplits(asn, a, b[..|b| - 1]);
    }
  }

  /** A full aggregation starts an ASN's builder at the first feed that counts
      addresses for it. */
  lemma {:induction false} FullStartsLate(mode: Mode, asn: Asn, before: seq<Visit>, rest: seq<Visit>)
    requires mode.full && asn != 0
    requires forall i :: 0 <= i < |before| ==> !MentionsAsn(before[i].sidecar.asns, asn)
    requires rest != [] ==> MentionsAsn(rest[0].sidecar.asns, asn)
    ensures asn in Aggregate(mode, before + rest).asns <==> rest != []
    ensures AsnAt(Aggregate(mode, before + rest).asns, asn) == AsnFoldFrom(NewAsn(asn), rest)
    decreases |before| + |rest|
  {
    var walk := before + rest;
    if walk != [] {
      var n := |walk| - 1;
      var v := walk[n];
      var m := Aggregate(mode, walk[..n]).asns;
      if rest == [] {
        assert walk == before && walk[..n] == before[..n] + [];
        assert !MentionsAsn(before[n].sidecar.asns, asn);
        FullStartsLate(mode, asn, before[..n], []);
      } else {
        assert walk[..n] == before + rest[..|rest| - 1];
        FullStartsLate(mode, asn, before, rest[..|rest| - 1]);
        FoldFromMaps(NewAsn(asn), rest[..|rest| - 1]);
      }
      var rows := v.sidecar.asns;
      AsnFeedLoopAt(m, mode, v, rows, asn);
      AsnFeedsEffect(AsnAt(m, asn), v, rows);
      AsnShareLoopAt(AsnFeedLoop(m, mode, v, rows), mode, v, rows, asn);
    }
  }

  /** A full aggregation yields the ASN's own detail exactly when no joint
      address of it is listed before the first feed that counts addresses. */
  lemma FullIsExactWhen(mode: Mode, asn: Asn, before: seq<Visit>, rest: seq<Visit>)
    requires mode.full && asn != 0
    requires forall i :: 0 <= i < |before| ==> !MentionsAsn(before[i].sidecar.asns, asn)
    requires rest != [] ==> MentionsAsn(rest[0].sidecar.asns, asn)
    ensures AsnResult(Aggregate(mode, before + rest), asn) == AsnDetail(asn, before + rest)
      <==> rest == [] || MappedTotal(asn, before) == 0
  {
    FullStartsLate(mode, asn, before, rest);
    SilentPrefix(asn, before);
    if rest == [] {
      assert before + rest == before;
    } else {
      FoldSplits(asn, before, rest);
      FoldFromMaps(NewAsn(asn), before);
      FoldSplits(asn, [], before);
      assert [] + before == before;
      FoldFromMaps(AsnFold(asn, before), rest);
      FoldFromMaps(NewAsn(asn), rest);
      FoldHasFeeds(NewAsn(asn), rest);
      FoldHasFeeds(AsnFold(asn, before), rest);
    }
  }

  function OneRowSidecar(country: CountryRow, attributedIPs: nat): Sidecar {
    Sidecar(FeedInfo("f", "", "", "", 0, 0), [country], [AsnRow(7, "", attributedIPs)])
  }

  /** The smallest such walk: one feed lists a joint address of an ASN without
      counting any, the next one counts some. */
  lemma LateStartShows(mode: Mode, joint: Visit, counted: Visit)
    requires mode.full
    requires joint.sidecar == OneRowSidecar(CountryRow("US", 1, [JointAsn(7, "", 1)]), 0)
    requires counted.sidecar == OneRowSidecar(CountryRow("US", 1, []), 1)
    ensures AsnResult(Aggregate(mode, [joint] + [counted]), 7) != AsnDetail(7, [joint] + [counted])
  {
    hide Aggregate, AsnResult, AsnDetail, MappedTotal;
    JointIsMapped(joint);
    assert counted.sidecar.asns[0].attributedIPs != 0 && !MentionsAsn(joint.sidecar.asns, 7);
    FullIsExactWhen(mode, 7, [joint], [counted]);
  }

  lemma JointIsMapped(v: Visit)
    requires v.sidecar == OneRowSidecar(CountryRow("US", 1, [JointAsn(7, "", 1)]), 0)
    ensures MappedTotal(7, [v]) == 1
  {
    var s := v.sidecar;
    OneShare(s.countries);
    assert s.asns[..0] == [] && [v][..0] == [];
    assert ListedTotal(v, s.asns, 7) == 1;
    assert MappedTotal(7, [v]) == MappedTotal(7, []) + 1;
  }

  lemma OneShare(rows: seq<CountryRow>)
    requires rows == [CountryRow("US", 1, [JointAsn(7, "", 1)])]
    ensures SharesTotal(Shares(rows, 7)) == 1
  {
    assert rows[..0] == [] && rows[0].asns[..0] == [];
    assert Shares([], 7) == [] && SharesInRow(rows[0], [], 7) == [];
    assert Shares(rows, 7) == [CountryShare("US", 1)];
    assert [CountryShare("US", 1)][..0] == [];
  }

  lemma {:induction false} FoldHasFeeds(b: AsnBuilder, walk: seq<Visit>)
    requires walk != [] && MentionsAsn(walk[0].sidecar.asns, b.asn)
    ensures |AsnFoldFrom(b, walk).feeds| > 0
  {
    var n := |walk| - 1;
    var before := AsnFoldFrom(b, walk[..n]);
    FoldFromMaps(b, walk[..n]);
    if n > 0 { FoldHasFeeds(b, walk[..n]); } else { assert walk[..n] == []; }
    FeedsGrow(before, walk[n], walk[n].sidecar.asns);
    AsnFeedsEffect(before, walk[n], walk[n].sidecar.asns);
    AsnSharesEffect(AsnFeeds(before, walk[n], walk[n].sidecar.asns), walk[n], walk[n].sidecar.asns);
  }

  lemma {:induction false} FeedsGrow(b: AsnBuilder, v: Visit, rows: seq<AsnRow>)
    ensures |AsnFeeds(b, v, rows).feeds| >= |b.feeds|
    ensures MentionsAsn(rows, b.asn) ==> |AsnFeeds(b, v, rows).feeds| > 0
  {
    if rows != [] {
      FeedsGrow(b, v, rows[..|rows| - 1]);
      MentionsAsnLast(rows, b.asn);
    }
  }

  // ----------------------------------------------- the builder object itself

  /** `selectedEntityDetailSidecarBuilder`. */
  class SelectedDetailBuilder {
    const mode: Mode
    var countryBuilders: CountryMap
    var asnBuilders: AsnMap

    function View(): Builders
      reads this
    {
      Builders(countryBuilders, asnBuilders)
    }

    constructor (m: Mode)
      ensures mode == m && View() == Targets(m)
    {
      mode := m;
      countryBuilders, asnBuilders := Targets(m).countries, Targets(m).asns;
    }

    method AddCountryDetails(v: Visit)
      modifies this`countryBuilders
      ensures countryBuilders == CountryLoop(old(countryBuilders), mode, v, v.sidecar.countries)
    {
      var rows := v.sidecar.countries;
      for i := 0 to |rows|
        invariant countryBuilders == CountryLoop(old(countryBuilders), mode, v, rows[..i])
      {
        assert rows[..i + 1][..i] == rows[..i];
        var code := rows[i].code;
        if code != "" && (mode.full || code in mode.countries) {
          var builder := if code in countryBuilders then countryBuilders[code] else NewCountry(code);
          countryBuilders := countryBuilders[code := AddCountryRow(builder, v, rows[i])];
        }
      }
      assert rows[..|rows|] == rows;
    }

    method AddAsnFeedDetails(v: Visit)
      modifies this`asnBuilders
      ensures asnBuilders == AsnFeedLoop(old(asnBuilders), mode, v, v.sidecar.asns)
    {
      var rows := v.sidecar.asns;
      for i := 0 to |rows|
        invariant asnBuilders == AsnFeedLoop(old(asnBuilders), mode, v, rows[..i])
      {
        assert rows[..i + 1][..i] == rows[..i];
        var asn := rows[i].asn;
        if asn != 0 && rows[i].attributedIPs != 0 && (mode.full || asn in mode.asns) {
          var builder := if asn in asnBuilders then asnBuilders[asn] else NewAsn(asn);
          asnBuilders := asnBuilders[asn := AddAsnRow(builder, v, rows[i])];
        }
      }
      assert rows[..|rows|] == rows;
    }

    method AddAsnCountryDetails(v: Visit)
      modifies this`asnBuilders
      ensures asnBuilders == AsnShareLoop(old(asnBuilders), mode, v, v.sidecar.asns)
    {
      var rows := v.sidecar.asns;
      for i := 0 to |rows|
        invariant asnBuilders == AsnShareLoop(old(asnBuilders), mode, v, rows[..i])
      {
        assert rows[..i + 1][..i] == rows[..i];
        var asn := rows[i].asn;
        if asn != 0 && (mode.full || asn in mode.asns) && asn in asnBuilders {
          asnBuilders := asnBuilders[asn := AddShares(asnBuilders[asn], Shares(v.sidecar.countries, asn))];
        }
      }
      assert rows[..|rows|] == rows;
    }

    method AddFeedSidecar(v: Visit)
      modifies this
      ensures View() == AddVisit(old(View()), mode, v)
    {
      if NeedsCountries(mode, v.sidecar) {
        AddCountryDetails(v);
      }
      if NeedsAsns(mode, v.sidecar) {
        AddAsnFeedDetails(v);
        AddAsnCountryDetails(v);
      }
    }
  }

  /** `buildFromWalker`: the details of the wanted entities. */
  method BuildFromWalk(mode: Mode, walk: seq<Visit>) returns (countries: CountryMap, asns: AsnMap)
    ensures forall c :: c in countries <==> CountryResult(Aggregate(mode, walk), c).Some?
    ensures forall c :: c in countries ==> CountryResult(Aggregate(mode, walk), c) == Some(countries[c])
    ensures forall a :: a in asns <==> AsnResult(Aggregate(mode, walk), a).Some?
    ensures forall a :: a in asns ==> AsnResult(Aggregate(mode, walk), a) == Some(asns[a])
  {
    var b := new SelectedDetailBuilder(mode);
    for i := 0 to |walk|
      invariant b.mode == mode && b.View() == Aggregate(mode, walk[..i])
    {
      assert walk[..i + 1][..i] == walk[..i];
      b.AddFeedSidecar(walk[i]);
    }
    assert walk[..|walk|] == walk;
    var v := b.View();
    countries := map c | c in v.countries && BuildCountry(v.countries[c]).Some? :: BuildCountry(v.countries[c]).value;
    asns := map a | a in v.asns && BuildAsn(v.asns[a]).Some? :: BuildAsn(v.asns[a]).value;
  }
}
