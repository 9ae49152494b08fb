/** What a detail is, said of the rows of the walk and not of the builders
    (pkg/engine/home_entity_precompute.go): which feeds it lists, its totals,
    and the joint addresses of every country and ASN. */
module EntityTotals {
  import opened Wrappers
  import opened Names
  import opened EntityDetail
  import opened EntityArtifacts

  // -------------------------------------------------------- sums over a walk

  /** The joint addresses of one ASN in one country's rows. */
  function CountIn(js: seq<JointAsn>, asn: Asn): nat {
    if js == [] then 0
    else CountIn(js[..|js| - 1], asn) + if js[|js| - 1].asn == asn then js[|js| - 1].count else 0
  }

  /** The names of the rows of one ASN that count addresses. */
  function CountedNames(js: seq<JointAsn>, asn: Asn): seq<string> {
    if js == [] then []
    else
      CountedNames(js[..|js| - 1], asn)
      + if js[|js| - 1].asn == asn && js[|js| - 1].count > 0 then [js[|js| - 1].name] else []
  }

  /** One sidecar's joint addresses of a country and an ASN. */
  function Joint(rows: seq<CountryRow>, code: string, asn: Asn): nat {
    if rows == [] then 0
    else
      Joint(rows[..|rows| - 1], code, asn) + if rows[|rows| - 1].code == code then CountIn(rows[|rows| - 1].asns, asn)
                                             else 0
  }

  function JointNames(rows: seq<CountryRow>, code: string, asn: Asn): seq<string> {
    if rows == [] then []
    else
      JointNames(rows[..|rows| - 1], code, asn)
      + if rows[|rows| - 1].code == code then CountedNames(rows[|rows| - 1].asns, asn) else []
  }

  function WalkJoint(walk: seq<Visit>, code: string, asn: Asn): nat {
    if walk == [] then 0
    else WalkJoint(walk[..|walk| - 1], code, asn) + Joint(walk[|walk| - 1].sidecar.countries, code, asn)
  }

  function WalkNames(walk: seq<Visit>, code: string, asn: Asn): seq<string> {
    if walk == [] then []
    else WalkNames(walk[..|walk| - 1], code, asn) + JointNames(walk[|walk| - 1].sidecar.countries, code, asn)
  }

  /** How often one sidecar lists an ASN. */
  function Listings(rows: seq<AsnRow>, asn: Asn): nat {
    if rows == [] then 0 else Listings(rows[..|rows| - 1], asn) + if rows[|rows| - 1].asn == asn then 1 else 0
  }

  /** The joint addresses of sidecars that list the ASN, once a listing. */
  function ListedJoint(walk: seq<Visit>, code: string, asn: Asn): nat {
    if walk == [] then 0
    else
      var s := walk[|walk| - 1].sidecar;
      ListedJoint(walk[..|walk| - 1], code, asn) + Listings(s.asns, asn) * Joint(s.countries, code, asn)
  }

  function ListedRows(walk: seq<Visit>, code: string, asn: Asn): nat {
    if walk == [] then 0
    else
      var s := walk[|walk| - 1].sidecar;
      ListedRows(walk[..|walk| - 1], code, asn) + Listings(s.asns, asn) * |JointNames(s.countries, code, asn)|
  }

  /** One row about an entity, with the feed it is from. */
  datatype Mention = Mention(info: FeedInfo, maintainerURL: string, attributedIPs: nat, name: string)

  function CountryMentions(walk: seq<Visit>, code: string): seq<Mention> {
    if walk == [] then []
    else
      CountryMentions(walk[..|walk| - 1], code)
      + MentionsIn(walk[|walk| - 1], walk[|walk| - 1].sidecar.countries, code)
  }

  function MentionsIn(v: Visit, rows: seq<CountryRow>, code: string): seq<Mention> {
    if rows == [] then []
    else
      MentionsIn(v, rows[..|rows| - 1], code)
      + if rows[|rows| - 1].code == code
        then [Mention(v.sidecar.info, v.maintainerURL, rows[|rows| - 1].attributedIPs, "")] else []
  }

  /** Rows without addresses do not make an ASN's detail. */
  function AsnMentions(walk: seq<Visit>, asn: Asn): seq<Mention> {
    if walk == [] then []
    else AsnMentions(walk[..|walk| - 1], asn) + AsnMentionsIn(walk[|walk| - 1], walk[|walk| - 1].sidecar.asns, asn)
  }

  function AsnMentionsIn(v: Visit, rows: seq<AsnRow>, asn: Asn): seq<Mention> {
    if rows == [] then []
    else
      var row := rows[|rows| - 1];
      AsnMentionsIn(v, rows[..|rows| - 1], asn)
      + if row.asn == asn && row.attributedIPs > 0
        then [Mention(v.sidecar.info, v.maintainerURL, row.attributedIPs, row.name)] else []
  }

  function Attributed(ms: seq<Mention>): nat {
    if ms == [] then 0 else Attributed(ms[..|ms| - 1]) + ms[|ms| - 1].attributedIPs
  }

  function NamesOf(ms: seq<Mention>): (names: seq<string>)
    ensures |names| == |ms| && forall i :: 0 <= i < |ms| ==> names[i] == ms[i].name
  {
    seq(|ms|, i requires 0 <= i < |ms| => ms[i].name)
  }

  // ------------------------------------------------------- what a detail says

  /** The feeds and facets are the mentions, in walk order, and add up. */
  ghost predicate ListsFeeds(feeds: seq<FeedRow>, facets: seq<FacetAdd>, total: nat, ms: seq<Mention>) {
    && |feeds| == |facets| == |ms| && total == Attributed(ms)
    && forall i :: 0 <= i < |ms| ==>
      && feeds[i] == FeedRow(ms[i].info, ms[i].attributedIPs)
      && facets[i] == FacetAdd(ms[i].info.category, ms[i].info.maintainer, ms[i].maintainerURL, ms[i].attributedIPs)
  }

  /** The entry of one ASN: the counted rows, their addresses, their first name. */
  ghost predicate TotalIs(totals: map<Asn, AsnTotal>, asn: Asn, names: seq<string>, count: nat) {
    && (asn in totals <==> names != [])
    && (names == [] ==> count == 0)
    && (asn in totals ==>
          && totals[asn].feedCount == |names| && totals[asn].attributedIPs == count
          && FirstNonEmpty(totals[asn].name, names))
  }

  ghost predicate ShareIs(totals: map<string, CountryTotal>, code: string, rows: nat, count: nat) {
    && (code in totals <==> rows > 0)
    && (rows == 0 ==> count == 0)
    && (code in totals ==> totals[code] == CountryTotal(rows, count))
  }

  /** The detail of a country, said of the rows the walk has for it. */
  ghost predicate TellsCountry(b: CountryBuilder, code: string, walk: seq<Visit>) {
    && b.code == code
    && ListsFeeds(b.feeds, b.facets, b.totalAttributed, CountryMentions(walk, code))
    && 0 !in b.asnTotals
    && forall asn :: asn != 0 ==> TotalIs(b.asnTotals, asn, WalkNames(walk, code, asn), WalkJoint(walk, code, asn))
  }

  /** The detail of an ASN. */
  ghost predicate TellsAsn(b: AsnBuilder, asn: Asn, walk: seq<Visit>) {
    && b.asn == asn
    && ListsFeeds(b.feeds, b.facets, b.totalAttributed, AsnMentions(walk, asn))
    && FirstNonEmpty(b.name, NamesOf(AsnMentions(walk, asn)))
    && b.totalMapped == WalkMapped(walk, asn)
    && "" !in b.countryTotals
    && forall code :: code != "" ==>
      ShareIs(b.countryTotals, code, ListedRows(walk, code, asn), ListedJoint(walk, code, asn))
  }

  // ---------------------------------------------------------------- countries

  lemma {:induction false} JointsTell(b: CountryBuilder, js: seq<JointAsn>, asn: Asn, names: seq<string>, count: nat)
    requires asn != 0 && TotalIs(b.asnTotals, asn, names, count)
    ensures TotalIs(AddJointAsns(b, js).asnTotals, asn, names + CountedNames(js, asn), count + CountIn(js, asn))
  {
    if js == [] {
      assert names + [] == names;
    } else {
      var init, j := js[..|js| - 1], js[|js| - 1];
      JointsTell(b, init, asn, names, count);
      var before := AddJointAsns(b, init);
      OneJointTells(before, j, asn, names + CountedNames(init, asn), count + CountIn(init, asn));
      assert names + CountedNames(init, asn) + [j.name] == names + (CountedNames(init, asn) + [j.name]);
      assert names + CountedNames(init, asn) + [] == names + (CountedNames(init, asn) + []);
    }
  }

  lemma OneJointTells(b: CountryBuilder, j: JointAsn, asn: Asn, names: seq<string>, count: nat)
    requires asn != 0 && TotalIs(b.asnTotals, asn, names, count)
    ensures
      var counted := j.asn == asn && j.count > 0;
      TotalIs(AddJointAsn(b, j).asnTotals, asn, names + (if counted then [j.name] else []),
              count + if j.asn == asn then j.count else 0)
  {
    if j.asn == asn && j.count > 0 {
      OneMoreName(if asn in b.asnTotals then b.asnTotals[asn].name else "", names, j.name);
      assert names + [j.name] != [];
    } else {
      assert names + [] == names;
    }
  }

  lemma {:induction false} NoZeroJoint(b: CountryBuilder, js: seq<JointAsn>)
    requires 0 !in b.asnTotals
    ensures 0 !in AddJointAsns(b, js).asnTotals
    ensures AddJointAsns(b, js).(asnTotals := map[]) == b.(asnTotals := map[])
  {
    if js != [] { NoZeroJoint(b, js[..|js| - 1]); }
  }

  lemma OneMoreFeed(feeds: seq<FeedRow>, facets: seq<FacetAdd>, total: nat, ms: seq<Mention>, m: Mention)
    requires ListsFeeds(feeds, facets, total, ms)
    ensures ListsFeeds(
      feeds + [FeedRow(m.info, m.attributedIPs)],
      facets + [FacetAdd(m.info.category, m.info.maintainer, m.maintainerURL, m.attributedIPs)],
      total + m.attributedIPs, ms + [m])
  {
    assert (ms + [m])[..|ms|] == ms;
  }

  lemma CountryRowTells(b: CountryBuilder, v: Visit, row: CountryRow, asn: Asn, ms: seq<Mention>, names: seq<string>,
                        count: nat)
    requires asn != 0 && 0 !in b.asnTotals && TotalIs(b.asnTotals, asn, names, count)
    requires ListsFeeds(b.feeds, b.facets, b.totalAttributed, ms)
    ensures
      var after := AddCountryRow(b, v, row);
      && after.code == b.code && 0 !in after.asnTotals
      && ListsFeeds(after.feeds, after.facets, after.totalAttributed,
                    ms + [Mention(v.sidecar.info, v.maintainerURL, row.attributedIPs, "")])
      && TotalIs(after.asnTotals, asn, names + CountedNames(row.asns, asn), count + CountIn(row.asns, asn))
  {
    var info := v.sidecar.info;
    OneMoreFeed(b.feeds, b.facets, b.totalAttributed, ms, Mention(info, v.maintainerURL, row.attributedIPs, ""));
    var fed := b.(feeds := b.feeds + [FeedRow(info, row.attributedIPs)],
                  facets := b.facets + [FacetAdd(info.category, info.maintainer, v.maintainerURL, row.attributedIPs)],
                  totalAttributed := b.totalAttributed + row.attributedIPs);
    hide ListsFeeds, TotalIs;
    JointsTell(fed, row.asns, asn, names, count);
    NoZeroJoint(fed, row.asns);
    assert AddJointAsns(fed, row.asns).(asnTotals := map[]) == fed.(asnTotals := map[]);
  }

  lemma {:induction false} CountryRowsTell(
    b: CountryBuilder, v: Visit, rows: seq<CountryRow>, asn: Asn, ms: seq<Mention>, names: seq<string>, count: nat)
    requires asn != 0 && 0 !in b.asnTotals && TotalIs(b.asnTotals, asn, names, count)
    requires ListsFeeds(b.feeds, b.facets, b.totalAttributed, ms)
    ensures
      var after := CountryRows(b, v, rows);
      && after.code == b.code && 0 !in after.asnTotals
      && ListsFeeds(after.feeds, after.facets, after.totalAttributed, ms + MentionsIn(v, rows, b.code))
      && TotalIs(after.asnTotals, asn, names + JointNames(rows, b.code, asn), count + Joint(rows, b.code, asn))
  {
    hide ListsFeeds, TotalIs, AddCountryRow, CountIn, CountedNames;
    if rows == [] {
      assert ms + [] == ms && names + [] == names;
    } else {
      var init, row := rows[..|rows| - 1], rows[|rows| - 1];
      CountryRowsTell(b, v, init, asn, ms, names, count);
      var ms', names' := ms + MentionsIn(v, init, b.code), names + JointNames(init, b.code, asn);
      var m := Mention(v.sidecar.info, v.maintainerURL, row.attributedIPs, "");
      assert ms' + [] == ms' && names' + [] == names';
      assert ms' + [m] == ms + (MentionsIn(v, init, b.code) + [m]);
      assert names' + CountedNames(row.asns,
        asn) == names + (JointNames(init, b.code, asn) + CountedNames(row.asns, asn));
      assert MentionsIn(v, init, b.code) + [] == MentionsIn(v, init, b.code);
      assert JointNames(init, b.code, asn) + [] == JointNames(init, b.code, asn);
      if row.code == b.code {
        CountryRowTells(CountryRows(b, v, init), v, row, asn, ms', names', count + Joint(init, b.code, asn));
      }
    }
  }

  /** The fold over a walk is its country's detail. */
  lemma {:induction false} CountryFoldTells(code: string, walk: seq<Visit>)
    ensures TellsCountry(CountryFold(code, walk), code, walk)
  {
    if walk != [] { CountryFoldTells(code, walk[..|walk| - 1]); }
    forall asn: Asn | asn != 0
      ensures TotalIs(CountryFold(code, walk).asnTotals, asn, WalkNames(walk, code, asn), WalkJoint(walk, code, asn))
    {
      OneMoreVisitTells(code, walk, asn);
    }
    OneMoreVisitTells(code, walk, 1);
  }

  lemma OneMoreVisitTells(code: string, walk: seq<Visit>, asn: Asn)
    requires asn != 0 && (walk != [] ==> TellsCountry(CountryFold(code, walk[..|walk| - 1]), code, walk[..|walk| - 1]))
    ensures
      var b := CountryFold(code, walk);
      && b.code == code && 0 !in b.asnTotals
      && ListsFeeds(b.feeds, b.facets, b.totalAttributed, CountryMentions(walk, code))
      && TotalIs(b.asnTotals, asn, WalkNames(walk, code, asn), WalkJoint(walk, code, asn))
  {
    if walk == [] {
      NothingTold(code, asn);
    } else {
      var init, v := walk[..|walk| - 1], walk[|walk| - 1];
      hide ListsFeeds, TotalIs, CountryRows, Joint, JointNames, MentionsIn;
      CountryRowsTell(CountryFold(code, init), v, v.sidecar.countries, asn, CountryMentions(init, code),
                      WalkNames(init, code, asn), WalkJoint(init, code, asn));
    }
  }

  lemma NothingTold(code: string, asn: Asn)
    ensures TotalIs(map[], asn, [], 0) && ListsFeeds([], [], 0, [])
  {}

  // --------------------------------------------------------------------- ASNs

  function SharesOf(cs: seq<CountryShare>, code: string): nat {
    if cs == [] then 0 else SharesOf(cs[..|cs| - 1], code) + if cs[|cs| - 1].code == code then 1 else 0
  }

  function CountOf(cs: seq<CountryShare>, code: string): nat {
    if cs == [] then 0
    else CountOf(cs[..|cs| - 1], code) + if cs[|cs| - 1].code == code then cs[|cs| - 1].count else 0
  }

  lemma {:induction false} SharesTell(b: AsnBuilder, cs: seq<CountryShare>, code: string, rows: nat, count: nat)
    requires code != "" && RealShares(cs) && "" !in b.countryTotals && ShareIs(b.countryTotals, code, rows, count)
    ensures
      var after := AddShares(b, cs);
      && "" !in after.countryTotals
      && ShareIs(after.countryTotals, code, rows + SharesOf(cs, code), count + CountOf(cs, code))
      && after.(countryTotals := map[], totalMapped := 0) == b.(countryTotals := map[], totalMapped := 0)
  {
    if cs != [] {
      SharesTell(b, cs[..|cs| - 1], code, rows, count);
      assert cs[|cs| - 1].code != "" && cs[|cs| - 1].count != 0;
    }
  }

  lemma {:induction false} SharesConcat(a: seq<CountryShare>, c: seq<CountryShare>, code: string)
    ensures SharesOf(a + c, code) == SharesOf(a, code) + SharesOf(c, code)
    ensures CountOf(a + c, code) == CountOf(a, code) + CountOf(c, code)
  {
    if c == [] {
      assert a + c == a;
    } else {
      assert (a + c)[..|a + c| - 1] == a + c[..|c| - 1];
      SharesConcat(a, c[..|c| - 1], code);
    }
  }

  lemma {:induction false} RowShares(row: CountryRow, js: seq<JointAsn>, asn: Asn, code: string)
    requires asn != 0 && code != ""
    ensures SharesOf(SharesInRow(row, js, asn), code) == if row.code == code then |CountedNames(js, asn)| else 0
    ensures CountOf(SharesInRow(row, js, asn), code) == if row.code == code then CountIn(js, asn) else 0
  {
    if js != [] && row.code != "" {
      var init, j := js[..|js| - 1], js[|js| - 1];
      RowShares(row, init, asn, code);
      var more := if j.asn == asn && j.asn != 0 && j.count != 0 then [CountryShare(row.code, j.count)] else [];
      assert more != [] ==> more[..0] == [];
      SharesConcat(SharesInRow(row, init, asn), more, code);
    }
  }

  /** The index of a sidecar's joint rows adds up to its joint addresses. */
  lemma {:induction false} IndexAddsUp(rows: seq<CountryRow>, asn: Asn, code: string)
    requires asn != 0 && code != ""
    ensures SharesOf(Shares(rows, asn), code) == |JointNames(rows, code, asn)|
    ensures CountOf(Shares(rows, asn), code) == Joint(rows, code, asn)
  {
    if rows != [] {
      var init, row := rows[..|rows| - 1], rows[|rows| - 1];
      IndexAddsUp(init, asn, code);
      RowShares(row, row.asns, asn, code);
      SharesConcat(Shares(init, asn), SharesInRow(row, row.asns, asn), code);
    }
  }

  /** `x`, once a listing. */
  function Repeated(rows: seq<AsnRow>, asn: Asn, x: nat): nat {
    if rows == [] then 0
    else Repeated(rows[..|rows| - 1], asn, x) + if rows[|rows| - 1].asn == asn then x else 0
  }

  lemma {:induction false} RepeatedIsProduct(rows: seq<AsnRow>, asn: Asn, x: nat)
    ensures Repeated(rows, asn, x) == Listings(rows, asn) * x
  {
    if rows != [] {
      RepeatedIsProduct(rows[..|rows| - 1], asn, x);
      OneMoreListing(rows, asn, x);
    }
  }

  lemma {:induction false} AsnSharesTell(b: AsnBuilder, v: Visit, rows: seq<AsnRow>, code: string, n: nat, count: nat)
    requires b.asn != 0 && code != "" && "" !in b.countryTotals && ShareIs(b.countryTotals, code, n, count)
    ensures
      var after := AsnShares(b, v, rows);
      && "" !in after.countryTotals
      && after.(countryTotals := map[], totalMapped := 0) == b.(countryTotals := map[], totalMapped := 0)
      && ShareIs(after.countryTotals, code, n + Repeated(rows, b.asn, |JointNames(v.sidecar.countries, code, b.asn)|),
                 count + Repeated(rows, b.asn, Joint(v.sidecar.countries, code, b.asn)))
  {
    hide ShareIs, Joint, JointNames, Shares, SharesOf, CountOf, AddShares;
    if rows != [] {
      var init := rows[..|rows| - 1];
      AsnSharesTell(b, v, init, code, n, count);
      IndexAddsUp(v.sidecar.countries, b.asn, code);
      SharesAreReal(v.sidecar.countries, b.asn);
      if rows[|rows| - 1].asn == b.asn {
        SharesTell(AsnShares(b, v, init), Shares(v.sidecar.countries, b.asn), code,
                   n + Repeated(init, b.asn, |JointNames(v.sidecar.countries, code, b.asn)|),
                   count + Repeated(init, b.asn, Joint(v.sidecar.countries, code, b.asn)));
      }
    }
  }

  lemma OneMoreListing(rows: seq<AsnRow>, asn: Asn, n: nat)
    requires rows != []
    ensures Listings(rows, asn) * n
      == Listings(rows[..|rows| - 1], asn) * n + if rows[|rows| - 1].asn == asn then n else 0
  {
    assert (Listings(rows[..|rows| - 1], asn) + 1) * n == Listings(rows[..|rows| - 1], asn) * n + n;
  }

  /** All the joint addresses of an ASN in countries that have a code. */
  function Mapped(rows: seq<CountryRow>, asn: Asn): nat {
    if rows == [] then 0
    else
      Mapped(rows[..|rows| - 1], asn) + if rows[|rows| - 1].code != "" then CountIn(rows[|rows| - 1].asns, asn) else 0
  }

  function WalkMapped(walk: seq<Visit>, asn: Asn): nat {
    if walk == [] then 0
    else
      var s := walk[|walk| - 1].sidecar;
      WalkMapped(walk[..|walk| - 1], asn) + Listings(s.asns, asn) * Mapped(s.countries, asn)
  }

  lemma {:induction false} TotalConcat(a: seq<CountryShare>, c: seq<CountryShare>)
    ensures SharesTotal(a + c) == SharesTotal(a) + SharesTotal(c)
  {
    if c == [] {
      assert a + c == a;
    } else {
      assert (a + c)[..|a + c| - 1] == a + c[..|c| - 1];
      TotalConcat(a, c[..|c| - 1]);
    }
  }

  lemma {:induction false} RowMapped(row: CountryRow, js: seq<JointAsn>, asn: Asn)
    requires asn != 0
    ensures SharesTotal(SharesInRow(row, js, asn)) == if row.code != "" then CountIn(js, asn) else 0
  {
    if js != [] && row.code != "" {
      var init, j := js[..|js| - 1], js[|js| - 1];
      RowMapped(row, init, asn);
      var more := if j.asn == asn && j.asn != 0 && j.count != 0 then [CountryShare(row.code, j.count)] else [];
      assert more != [] ==> more[..0] == [];
      TotalConcat(SharesInRow(row, init, asn), more);
    }
  }

  lemma {:induction false} IndexMapped(rows: seq<CountryRow>, asn: Asn)
    requires asn != 0
    ensures SharesTotal(Shares(rows, asn)) == Mapped(rows, asn)
  {
    if rows != [] {
      IndexMapped(rows[..|rows| - 1], asn);
      RowMapped(rows[|rows| - 1], rows[|rows| - 1].asns, asn);
      TotalConcat(Shares(rows[..|rows| - 1], asn), SharesInRow(rows[|rows| - 1], rows[|rows| - 1].asns, asn));
    }
  }

  lemma {:induction false} ListedMapped(v: Visit, rows: seq<AsnRow>, asn: Asn)
    requires asn != 0
    ensures ListedTotal(v, rows, asn) == Listings(rows, asn) * Mapped(v.sidecar.countries, asn)
  {
    hide Mapped, Shares, SharesTotal;
    if rows != [] {
      ListedMapped(v, rows[..|rows| - 1], asn);
      IndexMapped(v.sidecar.countries, asn);
      OneMoreListing(rows, asn, Mapped(v.sidecar.countries, asn));
    }
  }

  lemma {:induction false} WalkIsMapped(asn: Asn, walk: seq<Visit>)
    requires asn != 0
    ensures MappedTotal(asn, walk) == WalkMapped(walk, asn)
  {
    if walk != [] {
      WalkIsMapped(asn, walk[..|walk| - 1]);
      ListedMapped(walk[|walk| - 1], walk[|walk| - 1].sidecar.asns, asn);
    }
  }

  lemma FoldIsMapped(asn: Asn, walk: seq<Visit>)
    requires asn != 0
    ensures AsnFold(asn, walk).totalMapped == WalkMapped(walk, asn)
  {
    FoldSplits(asn, [], walk);
    assert [] + walk == walk;
    FoldFromMaps(NewAsn(asn), walk);
    WalkIsMapped(asn, walk);
  }

  ghost predicate ListsAsnFeeds(b: AsnBuilder, ms: seq<Mention>) {
    ListsFeeds(b.feeds, b.facets, b.totalAttributed, ms) && FirstNonEmpty(b.name, NamesOf(ms))
  }

  lemma OneMoreAsnFeed(b: AsnBuilder, v: Visit, row: AsnRow, ms: seq<Mention>)
    requires ListsAsnFeeds(b, ms)
    ensures
      var m := Mention(v.sidecar.info, v.maintainerURL, row.attributedIPs, row.name);
      ListsAsnFeeds(AddAsnRow(b, v, row), ms + [m])
  {
    var m := Mention(v.sidecar.info, v.maintainerURL, row.attributedIPs, row.name);
    OneMoreFeed(b.feeds, b.facets, b.totalAttributed, ms, m);
    OneMoreName(b.name, NamesOf(ms), row.name);
    assert NamesOf(ms) + [row.name] == NamesOf(ms + [m]);
  }

  lemma {:induction false} AsnFeedsTell(b: AsnBuilder, v: Visit, rows: seq<AsnRow>, ms: seq<Mention>)
    requires ListsAsnFeeds(b, ms)
    ensures
      var after := AsnFeeds(b, v, rows);
      && after.asn == b.asn && after.countryTotals == b.countryTotals
      && ListsAsnFeeds(after, ms + AsnMentionsIn(v, rows, b.asn))
  {
    hide ListsAsnFeeds;
    if rows == [] {
      assert ms + [] == ms;
    } else {
      var init, row := rows[..|rows| - 1], rows[|rows| - 1];
      AsnFeedsTell(b, v, init, ms);
      var m := Mention(v.sidecar.info, v.maintainerURL, row.attributedIPs, row.name);
      var ms' := ms + AsnMentionsIn(v, init, b.asn);
      assert ms' + [m] == ms + (AsnMentionsIn(v, init, b.asn) + [m]);
      assert AsnMentionsIn(v, init, b.asn) + [] == AsnMentionsIn(v, init, b.asn);
      OneMoreAsnFeed(AsnFeeds(b, v, init), v, row, ms');
    }
  }

  lemma AsnVisitTells(asn: Asn, walk: seq<Visit>, code: string)
    requires asn != 0 && code != ""
    requires walk != [] ==> TellsAsn(AsnFold(asn, walk[..|walk| - 1]), asn, walk[..|walk| - 1])
    ensures
      var b := AsnFold(asn, walk);
      && b.asn == asn && ListsAsnFeeds(b, AsnMentions(walk, asn)) && "" !in b.countryTotals
      && ShareIs(b.countryTotals, code, ListedRows(walk, code, asn), ListedJoint(walk, code, asn))
  {
    hide ListsFeeds, ShareIs, Joint, JointNames, AsnFeeds, AsnShares, Listings, FirstNonEmpty, WalkMapped,
         AsnMentionsIn;
    if walk == [] {
      NothingMentioned(asn, code);
    } else {
      var init, v := walk[..|walk| - 1], walk[|walk| - 1];
      var b, ms, rows := AsnFold(asn, init), AsnMentions(init, asn), v.sidecar.asns;
      AsnFeedsTell(b, v, rows, ms);
      AsnSharesTell(AsnFeeds(b, v, rows), v, rows, code, ListedRows(init, code, asn), ListedJoint(init, code, asn));
      RepeatedIsProduct(rows, asn, |JointNames(v.sidecar.countries, code, asn)|);
      RepeatedIsProduct(rows, asn, Joint(v.sidecar.countries, code, asn));
    }
  }

  lemma NothingMentioned(asn: Asn, code: string)
    ensures ListsAsnFeeds(NewAsn(asn), []) && ShareIs(map[], code, 0, 0)
  {}

  lemma {:induction false} AsnFoldTells(asn: Asn, walk: seq<Visit>)
    requires asn != 0
    ensures TellsAsn(AsnFold(asn, walk), asn, walk)
  {
    if walk != [] { AsnFoldTells(asn, walk[..|walk| - 1]); }
    forall code | code != ""
      ensures ShareIs(AsnFold(asn, walk).countryTotals, code, ListedRows(walk, code, asn), ListedJoint(walk, code, asn))
    {
      AsnVisitTells(asn, walk, code);
    }
    FoldIsMapped(asn, walk);
    AsnVisitTells(asn, walk, "x");
  }

  // ------------------------------------------------------------ main results

  lemma {:induction false} UnwantedStayEmpty(mode: Mode, walk: seq<Visit>, code: string, asn: Asn)
    ensures !WantsCountry(mode, code) ==> CountryAt(Aggregate(mode, walk).countries, code) == NewCountry(code)
    ensures !WantsAsn(mode, asn) ==> AsnAt(Aggregate(mode, walk).asns, asn) == NewAsn(asn)
  {
    if walk != [] {
      var v, b := walk[|walk| - 1], Aggregate(mode, walk[..|walk| - 1]);
      UnwantedStayEmpty(mode, walk[..|walk| - 1], code, asn);
      UnwantedRows(b.countries, mode, v, v.sidecar.countries, code);
      UnwantedFeeds(b.asns, mode, v, v.sidecar.asns, asn);
      UnwantedShares(AsnFeedLoop(b.asns, mode, v, v.sidecar.asns), mode, v, v.sidecar.asns, asn);
    }
  }

  lemma {:induction false} UnwantedRows(m: CountryMap, mode: Mode, v: Visit, rows: seq<CountryRow>, code: string)
    ensures !WantsCountry(mode, code) ==> CountryAt(CountryLoop(m, mode, v, rows), code) == CountryAt(m, code)
  {
    if rows != [] { UnwantedRows(m, mode, v, rows[..|rows| - 1], code); }
  }

  lemma {:induction false} UnwantedFeeds(m: AsnMap, mode: Mode, v: Visit, rows: seq<AsnRow>, asn: Asn)
    ensures !WantsAsn(mode, asn) ==> AsnAt(AsnFeedLoop(m, mode, v, rows), asn) == AsnAt(m, asn)
  {
    if rows != [] { UnwantedFeeds(m, mode, v, rows[..|rows| - 1], asn); }
  }

  lemma {:induction false} UnwantedShares(m: AsnMap, mode: Mode, v: Visit, rows: seq<AsnRow>, asn: Asn)
    ensures !WantsAsn(mode, asn) ==> AsnAt(AsnShareLoop(m, mode, v, rows), asn) == AsnAt(m, asn)
  {
    if rows != [] { UnwantedShares(m, mode, v, rows[..|rows| - 1], asn); }
  }

  /** An aggregation has a detail for exactly the countries that it was asked
      for, or all, and that the walk mentions, and each says what the rows say. */
  lemma CountryDetailsTell(mode: Mode, walk: seq<Visit>, code: string)
    ensures
      var r := CountryResult(Aggregate(mode, walk), code);
      && (r.Some? <==> code != "" && (mode.full || code in mode.countries) && CountryMentions(walk, code) != [])
      && (r.Some? ==> TellsCountry(r.value, code, walk))
  {
    hide Aggregate, CountryFold, TotalIs, CountryMentions, WalkNames, WalkJoint;
    CountryFoldTells(code, walk);
    ResultsAreDetails(mode, walk, code, 0);
    UnwantedStayEmpty(mode, walk, code, 0);
  }

  /** The same of ASNs, in a full aggregation of regular sidecars or a targeted
      one of any. */
  lemma AsnDetailsTell(mode: Mode, walk: seq<Visit>, asn: Asn)
    requires mode.full ==> AllRegular(walk)
    ensures
      var r := AsnResult(Aggregate(mode, walk), asn);
      && (r.Some? <==> asn != 0 && (mode.full || asn in mode.asns) && AsnMentions(walk, asn) != [])
      && (r.Some? ==> TellsAsn(r.value, asn, walk))
  {
    hide Aggregate, AsnFold, ShareIs, AsnMentions, ListedRows, ListedJoint, AllRegular, FirstNonEmpty, NamesOf,
         WalkMapped;
    if asn != 0 { AsnFoldTells(asn, walk); }
    ResultsAreDetails(mode, walk, "", asn);
    UnwantedStayEmpty(mode, walk, "", asn);
  }

  /** In a consistent store these are the countries and ASNs that have a file,
      and this is what the files say. */
  lemma ConsistentTells(o: Order, s: Store, urls: Urls)
    requires Consistent(o, s, urls)
    ensures exists names :: Listing(o, names, s.feeds.Keys) && FilesTell(s, WalkOf(s.feeds, names, urls))
  {
    hide Listing, WalkOf;
    var names :| Listing(o, names, s.feeds.Keys) && ConsistentAlong(s, names, urls);
    var walk := WalkOf(s.feeds, names, urls);
    hide CountryFold, AsnFold, TellsCountry, TellsAsn, ConsistentAlong;
    forall code ensures CountryFileTells(s, walk, code) { FoldFileTells(s, names, urls, code, 0); }
    forall asn ensures AsnFileTells(s, walk, asn) { FoldFileTells(s, names, urls, "", asn); }
    hide CountryFileTells, AsnFileTells;
    assert FilesTell(s, walk);
  }

  ghost predicate CountryFileTells(s: Store, walk: seq<Visit>, code: string) {
    && (code in s.countries <==> code != "" && CountryMentions(walk, code) != [])
    && (code in s.countries ==> TellsCountry(s.countries[code], code, walk))
  }

  ghost predicate AsnFileTells(s: Store, walk: seq<Visit>, asn: Asn) {
    && (asn in s.asns <==> asn != 0 && AsnMentions(walk, asn) != [])
    && (asn in s.asns ==> TellsAsn(s.asns[asn], asn, walk))
  }

  ghost predicate FilesTell(s: Store, walk: seq<Visit>) {
    (forall code :: CountryFileTells(s, walk, code)) && (forall asn :: AsnFileTells(s, walk, asn))
  }

  lemma FoldFileTells(s: Store, names: seq<string>, urls: Urls, code: string, asn: Asn)
    requires ConsistentAlong(s, names, urls)
    ensures CountryFileTells(s, WalkOf(s.feeds, names, urls), code)
    ensures AsnFileTells(s, WalkOf(s.feeds, names, urls), asn)
  {
    hide WalkOf, CountryFold, AsnFold, TotalIs, ShareIs, CountryMentions, AsnMentions, WalkNames, WalkJoint,
         FirstNonEmpty, NamesOf, WalkMapped, ListedRows, ListedJoint;
    var walk := WalkOf(s.feeds, names, urls);
    CountryFoldTells(code, walk);
    if asn != 0 { AsnFoldTells(asn, walk); }
    assert Lookup(s.countries, code) == CountryDetail(code, walk) && Lookup(s.asns, asn) == AsnDetail(asn, walk);
  }

  /** The visit of one feed's sidecar, with its maintainer's URL. */
  ghost predicate Visits(v: Visit, name: string, s: Sidecar, urls: Urls) {
    v.sidecar == s && v.maintainerURL == (if s.info.feed == "" then urls(name) else urls(s.info.feed))
  }

  /** A walk over listed feeds visits each once, in the order listed. */
  lemma {:induction false} WalkVisits(feeds: map<string, Sidecar>, names: seq<string>, urls: Urls)
    requires forall n :: n in names ==> n in feeds
    ensures
      var walk := WalkOf(feeds, names, urls);
      |walk| == |names| && forall i :: 0 <= i < |names| ==> Visits(walk[i], names[i], feeds[names[i]], urls)
  {
    hide Visits, VisitOf;
    if names != [] {
      var init, last := names[..|names| - 1], names[|names| - 1];
      assert last in names && forall n :: n in init ==> n in names;
      WalkVisits(feeds, init, urls);
      OneVisit(last, feeds[last], urls);
    }
  }

  lemma OneVisit(name: string, s: Sidecar, urls: Urls)
    ensures Visits(VisitOf(name, s, urls), name, s, urls)
  {}

  lemma {:induction false} NamedWhenCounted(js: seq<JointAsn>, asn: Asn)
    ensures CountedNames(js, asn) == [] <==> CountIn(js, asn) == 0
  {
    if js != [] { NamedWhenCounted(js[..|js| - 1], asn); }
  }

  lemma {:induction false} NamedWhenJoint(rows: seq<CountryRow>, code: string, asn: Asn)
    ensures JointNames(rows, code, asn) == [] <==> Joint(rows, code, asn) == 0
  {
    if rows != [] {
      NamedWhenJoint(rows[..|rows| - 1], code, asn);
      NamedWhenCounted(rows[|rows| - 1].asns, asn);
    }
  }

  /** Every sidecar lists an ASN that it has joint addresses of exactly once. */
  ghost predicate ListedOnce(walk: seq<Visit>, code: string, asn: Asn) {
    forall i :: 0 <= i < |walk| && Joint(walk[i].sidecar.countries, code, asn) > 0 ==>
      Listings(walk[i].sidecar.asns, asn) == 1
  }

  lemma {:induction false} JointTotalsAgree(walk: seq<Visit>, code: string, asn: Asn)
    requires ListedOnce(walk, code, asn)
    ensures WalkJoint(walk, code, asn) == ListedJoint(walk, code, asn)
    ensures |WalkNames(walk, code, asn)| == ListedRows(walk, code, asn)
  {
    if walk != [] {
      var n := |walk| - 1;
      JointTotalsAgree(walk[..n], code, asn);
      NamedWhenJoint(walk[n].sidecar.countries, code, asn);
      assert Joint(walk[n].sidecar.countries, code, asn) > 0 ==> Listings(walk[n].sidecar.asns, asn) == 1;
    }
  }

  /** Then the country's file and the ASN's file say the same about what the
      two have in common. */
  lemma FilesAgree(s: Store, walk: seq<Visit>, code: string, asn: Asn)
    requires FilesTell(s, walk) && ListedOnce(walk, code, asn) && code in s.countries && asn in s.asns
    ensures
      var ofCountry, ofAsn := s.countries[code].asnTotals, s.asns[asn].countryTotals;
      && (asn in ofCountry <==> code in ofAsn)
      && (asn in ofCountry ==>
            && ofCountry[asn].attributedIPs == ofAsn[code].attributedIPs
            && ofCountry[asn].feedCount == ofAsn[code].feedCount)
  {
    hide FirstNonEmpty, ListsFeeds, WalkNames, WalkJoint, ListedRows, ListedJoint, ListedOnce;
    JointTotalsAgree(walk, code, asn);
    assert CountryFileTells(s, walk, code) && AsnFileTells(s, walk, asn);
  }
}
