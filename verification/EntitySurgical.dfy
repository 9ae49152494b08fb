/** The surgical refresh after feed updates (pkg/engine/entity_surgical_refresh.go,
    pkg/engine/entity_surgical_delta.go): committed and pending sidecars are
    compared entity by entity, and only the details whose contribution from a
    refreshed feed changed are aggregated again. */
module EntitySurgical {
  import opened Wrappers
  import opened EntityDetail
  import opened EntityArtifacts
  import opened EntityWrite

  // ----------------------------------------------------------- contributions

  datatype CountryContribution = CountryContribution(info: FeedInfo, attributedIPs: nat, asns: seq<JointAsn>)
  datatype AsnContribution = AsnContribution(info: FeedInfo, attributedIPs: nat, name: string,
                                             shares: seq<CountryShare>)

  function CountedJoint(js: seq<JointAsn>): seq<JointAsn> {
    if js == [] then []
    else
      var j := js[|js| - 1];
      CountedJoint(js[..|js| - 1]) + if j.asn == 0 || j.count == 0 then [] else [j]
  }

  /** `index.countries`: the last row of a code wins. */
  function IndexedCountry(rows: seq<CountryRow>, code: string): Option<CountryRow> {
    if rows == [] then None
    else if rows[|rows| - 1].code == code then Some(rows[|rows| - 1])
    else IndexedCountry(rows[..|rows| - 1], code)
  }

  /** `index.asns`: rows without addresses are not indexed. */
  function IndexedAsn(rows: seq<AsnRow>, asn: Asn): Option<AsnRow> {
    if rows == [] then None
    else if rows[|rows| - 1].asn == asn && rows[|rows| - 1].attributedIPs != 0 then Some(rows[|rows| - 1])
    else IndexedAsn(rows[..|rows| - 1], asn)
  }

  function CountryOf(s: Option<Sidecar>, code: string): Option<CountryContribution> {
    if s.None? || code == "" then None
    else
      var row := IndexedCountry(s.value.countries, code);
      if row.None? || row.value.attributedIPs == 0 then None
      else Some(CountryContribution(s.value.info, row.value.attributedIPs, CountedJoint(row.value.asns)))
  }

  function AsnOf(s: Option<Sidecar>, asn: Asn): Option<AsnContribution> {
    if s.None? || asn == 0 then None
    else
      var row := IndexedAsn(s.value.asns, asn);
      if row.None? then None
      else Some(AsnContribution(s.value.info, row.value.attributedIPs, row.value.name, Shares(s.value.countries, asn)))
  }

  /** What `sortedFeedEntityCountries` and `sortedFeedEntityASNs` leave: one row
      an entity, none without addresses. */
  ghost predicate OneRowEach(s: Sidecar) {
    && (forall i, j :: 0 <= i < j < |s.countries| ==> s.countries[i].code != s.countries[j].code)
    && (forall i, j :: 0 <= i < j < |s.asns| ==> s.asns[i].asn != s.asns[j].asn)
    && (forall i :: 0 <= i < |s.countries| ==> s.countries[i].attributedIPs != 0)
    && (forall i :: 0 <= i < |s.asns| ==> s.asns[i].attributedIPs != 0)
  }

  ghost predicate AllOneRowEach(feeds: map<string, Sidecar>) {
    forall n :: n in feeds ==> OneRowEach(feeds[n])
  }

  // ------------------------------------ a contribution is all a detail sees

  lemma {:induction false} UncountedIgnored(b: CountryBuilder, js: seq<JointAsn>)
    ensures AddJointAsns(b, CountedJoint(js)) == AddJointAsns(b, js)
  {
    if js != [] {
      var init, last := js[..|js| - 1], js[|js| - 1];
      UncountedIgnored(b, init);
      if last.asn == 0 || last.count == 0 {
        assert CountedJoint(js) == CountedJoint(init);
      } else {
        assert CountedJoint(js)[..|CountedJoint(js)| - 1] == CountedJoint(init);
      }
    }
  }

  /** `VisitOf` looks the maintainer up under the name the sidecar gives. */
  function UrlOf(name: string, info: FeedInfo, urls: Urls): string {
    urls(if info.feed != "" then info.feed else name)
  }

  /** What one feed adds to a country, from its contribution alone. */
  function CountryStep(b: CountryBuilder, c: Option<CountryContribution>, name: string, urls: Urls): CountryBuilder {
    match c
    case None => b
    case Some(c) =>
      AddCountryRow(b, Visit(Sidecar(c.info, [], []), UrlOf(name, c.info, urls)),
        CountryRow(b.code, c.attributedIPs, c.asns))
  }

  lemma CountedRow(b: CountryBuilder, v: Visit, w: Visit, row: CountryRow, counted: CountryRow)
    requires w.sidecar.info == v.sidecar.info && w.maintainerURL == v.maintainerURL
    requires counted.attributedIPs == row.attributedIPs && counted.asns == CountedJoint(row.asns)
    ensures AddCountryRow(b, w, counted) == AddCountryRow(b, v, row)
  {
    hide AddJointAsns, CountedJoint;
    var info, ips := v.sidecar.info, row.attributedIPs;
    UncountedIgnored(
      b.(feeds := b.feeds + [FeedRow(info, ips)],
         facets := b.facets + [FacetAdd(info.category, info.maintainer, v.maintainerURL, ips)],
         totalAttributed := b.totalAttributed + ips),
      row.asns);
  }

  lemma {:induction false} RowsAreContribution(b: CountryBuilder, v: Visit, rows: seq<CountryRow>)
    requires forall i, j :: 0 <= i < j < |rows| ==> rows[i].code != rows[j].code
    ensures CountryRows(b, v, rows) ==
      match IndexedCountry(rows, b.code)
      case None => b
      case Some(row) => AddCountryRow(b, v, row)
  {
    if rows != [] {
      var init, last := rows[..|rows| - 1], rows[|rows| - 1];
      RowsAreContribution(b, v, init);
      if last.code == b.code {
        assert !MentionsCountry(init, b.code);
        CountryRowsEffect(b, v, init);
      }
    }
  }

  lemma {:induction false} IndexedMeans(s: Sidecar, countries: seq<CountryRow>, asns: seq<AsnRow>, code: string,
                                        asn: Asn)
    requires countries <= s.countries && asns <= s.asns && OneRowEach(s)
    ensures IndexedCountry(countries, code).Some? ==> IndexedCountry(countries, code).value.attributedIPs != 0
    ensures IndexedCountry(countries, code).None? <==> !MentionsCountry(countries, code)
    ensures IndexedAsn(asns, asn).None? <==> !ListsAsn(asns, asn)
    decreases |countries| + |asns|
  {
    if countries != [] {
      IndexedMeans(s, countries[..|countries| - 1], [], code, asn);
      MentionsLast(countries, code);
    }
    if asns != [] {
      IndexedMeans(s, [], asns[..|asns| - 1], code, asn);
      MentionsAsnLast(asns, asn);
    }
  }

  lemma CountryVisitIsContribution(b: CountryBuilder, name: string, s: Sidecar, urls: Urls)
    requires OneRowEach(s) && b.code != ""
    ensures CountryRows(b, VisitOf(name, s, urls), s.countries)
         == CountryStep(b, CountryOf(Some(s), b.code), name, urls)
  {
    hide CountryRows, AddCountryRow, CountedJoint, IndexedCountry;
    var v := VisitOf(name, s, urls);
    RowsAreContribution(b, v, s.countries);
    IndexedMeans(s, s.countries, s.asns, b.code, 0);
    var row := IndexedCountry(s.countries, b.code);
    if row.Some? {
      var w := Visit(Sidecar(s.info, [], []), UrlOf(name, s.info, urls));
      CountedRow(b, v, w, row.value, CountryRow(b.code, row.value.attributedIPs, CountedJoint(row.value.asns)));
    }
  }

  /** What one feed adds to an ASN, from its contribution alone. */
  function AsnStep(b: AsnBuilder, c: Option<AsnContribution>, name: string, urls: Urls): AsnBuilder {
    match c
    case None => b
    case Some(c) =>
      AddShares(
        AddAsnRow(b, Visit(Sidecar(c.info, [], []), UrlOf(name, c.info, urls)), AsnRow(b.asn, c.name, c.attributedIPs)),
        c.shares)
  }

  lemma {:induction false} FeedsAreContribution(b: AsnBuilder, v: Visit, rows: seq<AsnRow>)
    requires forall i, j :: 0 <= i < j < |rows| ==> rows[i].asn != rows[j].asn
    ensures AsnFeeds(b, v, rows) ==
      match IndexedAsn(rows, b.asn)
      case None => b
      case Some(row) => AddAsnRow(b, v, row)
  {
    if rows != [] {
      var init, last := rows[..|rows| - 1], rows[|rows| - 1];
      FeedsAreContribution(b, v, init);
      if last.asn == b.asn {
        assert !MentionsAsn(init, b.asn);
        AsnFeedsEffect(b, v, init);
      }
    }
  }

  lemma {:induction false} SharesOnce(b: AsnBuilder, v: Visit, rows: seq<AsnRow>)
    requires forall i, j :: 0 <= i < j < |rows| ==> rows[i].asn != rows[j].asn
    ensures AsnShares(b, v, rows)
         == if ListsAsn(rows, b.asn) then AddShares(b, Shares(v.sidecar.countries, b.asn)) else b
  {
    if rows != [] {
      var init, last := rows[..|rows| - 1], rows[|rows| - 1];
      SharesOnce(b, v, init);
      MentionsAsnLast(rows, b.asn);
      if last.asn == b.asn { assert !ListsAsn(init, b.asn); }
    }
  }

  lemma {:induction false} IndexedIsOfAsn(rows: seq<AsnRow>, asn: Asn)
    ensures IndexedAsn(rows, asn).Some? ==> IndexedAsn(rows, asn).value.asn == asn
  {
    if rows != [] { IndexedIsOfAsn(rows[..|rows| - 1], asn); }
  }

  lemma AsnVisitIsContribution(b: AsnBuilder, name: string, s: Sidecar, urls: Urls)
    requires OneRowEach(s) && b.asn != 0
    ensures AsnVisit(b, VisitOf(name, s, urls)) == AsnStep(b, AsnOf(Some(s), b.asn), name, urls)
  {
    hide AsnFeeds, AsnShares, IndexedAsn, AddShares, Shares;
    var v := VisitOf(name, s, urls);
    FeedsAreContribution(b, v, s.asns);
    AsnFeedsEffect(b, v, s.asns);
    SharesOnce(AsnFeeds(b, v, s.asns), v, s.asns);
    IndexedMeans(s, s.countries, s.asns, "", b.asn);
    IndexedIsOfAsn(s.asns, b.asn);
  }

  ghost predicate SameCountry(f: map<string, Sidecar>, g: map<string, Sidecar>, names: seq<string>, code: string) {
    forall n :: n in names ==> CountryOf(Lookup(f, n), code) == CountryOf(Lookup(g, n), code)
  }

  ghost predicate SameAsn(f: map<string, Sidecar>, g: map<string, Sidecar>, names: seq<string>, asn: Asn) {
    forall n :: n in names ==> AsnOf(Lookup(f, n), asn) == AsnOf(Lookup(g, n), asn)
  }

  lemma OneMoreStep(f: map<string, Sidecar>, init: seq<string>, last: string, urls: Urls, code: string, asn: Asn)
    requires AllOneRowEach(f)
    ensures
      var walk, wider := WalkOf(f, init, urls), WalkOf(f, init + [last], urls);
      && (code != "" ==>
            CountryFold(code, wider)
            == CountryStep(CountryFold(code, walk), CountryOf(Lookup(f, last), code), last, urls))
      && (asn != 0 ==> AsnFold(asn, wider) == AsnStep(AsnFold(asn, walk), AsnOf(Lookup(f, last), asn), last, urls))
  {
    hide CountryRows, AsnVisit, CountryStep, AsnStep, CountryOf, AsnOf, CountryFold, AsnFold, OneRowEach;
    var walk := WalkOf(f, init, urls);
    OneMoreVisit(f, init, last, urls, code, asn);
    FoldsKeepNames(code, asn, walk);
    NothingStep(CountryFold(code, walk), AsnFold(asn, walk), last, urls, code, asn);
    if last in f {
      if code != "" { CountryVisitIsContribution(CountryFold(code, walk), last, f[last], urls); }
      if asn != 0 { AsnVisitIsContribution(AsnFold(asn, walk), last, f[last], urls); }
    }
  }

  lemma NothingStep(cb: CountryBuilder, ab: AsnBuilder, name: string, urls: Urls, code: string, asn: Asn)
    ensures CountryStep(cb, CountryOf(None, code), name, urls) == cb && AsnStep(ab, AsnOf(None, asn), name, urls) == ab
  {}

  /** Sidecars whose contributions to an entity are the same, feed by feed, give
      it the same aggregate. */
  lemma {:induction false} SameContributionsFold(
    f: map<string, Sidecar>, g: map<string, Sidecar>, names: seq<string>, urls: Urls, code: string, asn: Asn)
    requires AllOneRowEach(f) && AllOneRowEach(g)
    ensures code != "" && SameCountry(f, g, names, code)
      ==> CountryFold(code, WalkOf(f, names, urls)) == CountryFold(code, WalkOf(g, names, urls))
    ensures asn != 0 && SameAsn(f, g, names, asn)
      ==> AsnFold(asn, WalkOf(f, names, urls)) == AsnFold(asn, WalkOf(g, names, urls))
  {
    hide CountryStep, AsnStep, CountryOf, AsnOf, OneRowEach, CountryFold, AsnFold;
    if names != [] {
      var init, last := names[..|names| - 1], names[|names| - 1];
      assert names == init + [last] && last in names && forall n :: n in init ==> n in names;
      SameContributionsFold(f, g, init, urls, code, asn);
      OneMoreStep(f, init, last, urls, code, asn);
      OneMoreStep(g, init, last, urls, code, asn);
    } else {
      assert WalkOf(f, names, urls) == [] == WalkOf(g, names, urls);
    }
  }

  // --------------------------------------------------------- the whole write

  ghost predicate PatchesCountry(
    feeds: map<string, Sidecar>, pending: map<string, Sidecar>, targets: set<string>, code: string) {
    exists n :: n in targets && CountryOf(Lookup(feeds, n), code) != CountryOf(Lookup(pending, n), code)
  }

  ghost predicate PatchesAsn(feeds: map<string, Sidecar>, pending: map<string, Sidecar>, targets: set<string>,
                             asn: Asn) {
    exists n :: n in targets && AsnOf(Lookup(feeds, n), asn) != AsnOf(Lookup(pending, n), asn)
  }

  ghost predicate PatchedRebuilt(before: Store, targets: set<string>, pending: map<string, Sidecar>, urls: Urls,
                                 names: seq<string>, after: Store) {
    && (forall code :: Lookup(after.countries, code) ==
          if PatchesCountry(before.feeds, pending, targets, code)
          then CountryDetail(code, WalkOf(after.feeds, names, urls))
          else Lookup(before.countries, code))
    && (forall asn :: Lookup(after.asns, asn) ==
          if PatchesAsn(before.feeds, pending, targets, asn) then AsnDetail(asn, WalkOf(after.feeds, names, urls))
          else Lookup(before.asns, asn))
  }

  /** A surgical write: the refreshed feeds take their pending sidecars, and the
      details to which their contribution changed are aggregated again over the
      merged walk. */
  ghost predicate SurgicalWrite(before: Store, targets: set<string>, pending: map<string, Sidecar>, urls: Urls,
                                after: Store) {
    && after.feeds == FeedsAfter(before.feeds, targets, pending)
    && exists names ::
      Listing(ByName, names, after.feeds.Keys) && PatchedRebuilt(before, targets, pending, urls, names, after)
  }

  lemma UnpatchedDetail(before: map<string, Sidecar>, targets: set<string>, pending: map<string, Sidecar>,
                        names: seq<string>, newNames: seq<string>, union: seq<string>, urls: Urls, code: string,
                        asn: Asn)
    requires AllOneRowEach(before) && AllOneRowEach(pending)
    requires Listing(ByPath, names, before.Keys) && Listing(ByPath, newNames, FeedsAfter(before, targets, pending).Keys)
    requires Ordered(ByPath, union) && forall n :: n in before || n in pending ==> n in union
    ensures
      var after := FeedsAfter(before, targets, pending);
      && (!PatchesCountry(before, pending, targets, code) ==>
            CountryDetail(code, WalkOf(before, names, urls)) == CountryDetail(code, WalkOf(after, newNames, urls)))
      && (!PatchesAsn(before, pending, targets, asn) ==>
            AsnDetail(asn, WalkOf(before, names, urls)) == AsnDetail(asn, WalkOf(after, newNames, urls)))
  {
    hide WalkOf, CountryOf, AsnOf, OneRowEach, Ordered, Listing, CountryFold, AsnFold;
    var after := FeedsAfter(before, targets, pending);
    WiderWalk(ByPath, before, names, union, urls);
    WiderWalk(ByPath, after, newNames, union, urls);
    SameContributionsFold(before, after, union, urls, code, asn);
  }

  lemma EntityPatched(before: Store, targets: set<string>, pending: map<string, Sidecar>, urls: Urls, after: Store,
                      was: seq<string>, paths: seq<string>, union: seq<string>, code: string, asn: Asn)
    requires AllOneRowEach(before.feeds) && AllOneRowEach(pending)
    requires after.feeds == FeedsAfter(before.feeds, targets, pending)
    requires Listing(ByPath, was, before.feeds.Keys) && ConsistentAlong(before, was, urls)
    requires Listing(ByPath, paths, after.feeds.Keys) && PatchedRebuilt(before, targets, pending, urls, paths, after)
    requires Ordered(ByPath, union) && forall n :: n in before.feeds || n in pending ==> n in union
    ensures Lookup(after.countries, code) == CountryDetail(code, WalkOf(after.feeds, paths, urls))
    ensures Lookup(after.asns, asn) == AsnDetail(asn, WalkOf(after.feeds, paths, urls))
  {
    UnpatchedDetail(before.feeds, targets, pending, was, paths, union, urls, code, asn);
  }

  /** A surgical write of a consistent store leaves a consistent store, although
      it leaves alone every detail that sees no changed contribution. */
  lemma SurgicalKeepsConsistent(before: Store, targets: set<string>, pending: map<string, Sidecar>, urls: Urls,
                                after: Store)
    requires Consistent(ByPath, before, urls) && SurgicalWrite(before, targets, pending, urls, after)
    requires AllOneRowEach(before.feeds) && AllOneRowEach(pending) && OrdersAgree(after.feeds.Keys)
    ensures Consistent(ByPath, after, urls) && AllOneRowEach(after.feeds)
  {
    hide ConsistentAlong, PatchedRebuilt, OneRowEach;
    var was :| Listing(ByPath, was, before.feeds.Keys) && ConsistentAlong(before, was, urls);
    var names :| Listing(ByName, names, after.feeds.Keys)
      && PatchedRebuilt(before, targets, pending, urls, names, after);
    var paths := ListingExists(ByPath, after.feeds.Keys);
    SameListing(names, paths, after.feeds.Keys);
    var union := ListingExists(ByPath, before.feeds.Keys + pending.Keys);
    EntitiesPatched(before, targets, pending, urls, after, was, paths, union);
  }

  lemma EntitiesPatched(before: Store, targets: set<string>, pending: map<string, Sidecar>, urls: Urls, after: Store,
                        was: seq<string>, paths: seq<string>, union: seq<string>)
    requires AllOneRowEach(before.feeds) && AllOneRowEach(pending)
    requires after.feeds == FeedsAfter(before.feeds, targets, pending)
    requires Listing(ByPath, was, before.feeds.Keys) && ConsistentAlong(before, was, urls)
    requires Listing(ByPath, paths, after.feeds.Keys) && PatchedRebuilt(before, targets, pending, urls, paths, after)
    requires Listing(ByPath, union, before.feeds.Keys + pending.Keys)
    ensures ConsistentAlong(after, paths, urls)
  {
    forall code ensures Lookup(after.countries, code) == CountryDetail(code, WalkOf(after.feeds, paths, urls)) {
      EntityPatched(before, targets, pending, urls, after, was, paths, union, code, 0);
    }
    forall asn ensures Lookup(after.asns, asn) == AsnDetail(asn, WalkOf(after.feeds, paths, urls)) {
      EntityPatched(before, targets, pending, urls, after, was, paths, union, "", asn);
    }
  }

  // -------------------------------------------------------------- the refresh

  lemma {:induction false} ContributionsAreMentioned(countries: seq<CountryRow>, asns: seq<AsnRow>, code: string,
      asn: Asn)
    ensures IndexedCountry(countries, code).Some? ==> MentionsCountry(countries, code)
    ensures IndexedAsn(asns, asn).Some? ==> ListsAsn(asns, asn)
    decreases |countries| + |asns|
  {
    if countries != [] {
      ContributionsAreMentioned(countries[..|countries| - 1], [], code, asn);
      MentionsLast(countries, code);
    }
    if asns != [] {
      ContributionsAreMentioned([], asns[..|asns| - 1], code, asn);
      MentionsAsnLast(asns, asn);
    }
  }

  /** An entity that neither sidecar mentions gets no contribution from either. */
  lemma OnlyCandidatesDiffer(was: Option<Sidecar>, now: Option<Sidecar>)
    ensures forall code :: CountryOf(was, code) != CountryOf(now, code) ==> code in CodesOf(was) + CodesOf(now)
    ensures forall asn :: AsnOf(was, asn) != AsnOf(now, asn) ==> asn in NumbersOf(was) + NumbersOf(now)
  {
    forall code ensures CountryOf(was, code) != CountryOf(now, code) ==> code in CodesOf(was) + CodesOf(now) {
      if was.Some? { ContributionsAreMentioned(was.value.countries, [], code, 0); }
      if now.Some? { ContributionsAreMentioned(now.value.countries, [], code, 0); }
    }
    forall asn ensures AsnOf(was, asn) != AsnOf(now, asn) ==> asn in NumbersOf(was) + NumbersOf(now) {
      if was.Some? { ContributionsAreMentioned([], was.value.asns, "", asn); }
      if now.Some? { ContributionsAreMentioned([], now.value.asns, "", asn); }
    }
  }

  class EntitySurgicalRefreshState {
    const live: Store
    const pending: map<string, Sidecar>
    const targetFeeds: seq<string>
    var affectedCountries: set<string>
    var affectedAsns: set<Asn>
    var deltas: map<string, Option<Sidecar>>
    var batch: Batch

    constructor (store: Store, pendingSidecars: map<string, Sidecar>, feeds: seq<string>)
      ensures live == store && pending == pendingSidecars && targetFeeds == feeds
      ensures affectedCountries == {} && affectedAsns == {} && deltas == map[] && batch == NO_FILES
    {
      live, pending, targetFeeds := store, pendingSidecars, feeds;
      affectedCountries, affectedAsns, deltas, batch := {}, {}, map[], NO_FILES;
    }

    /** `addChangedActorTargets`: of the entities either sidecar mentions, those
        whose contribution differs. */
    method AddChangedActorTargets(was: Option<Sidecar>, now: Option<Sidecar>)
      modifies this`affectedCountries, this`affectedAsns
      ensures forall code :: code in affectedCountries <==>
        code in old(affectedCountries) || CountryOf(was, code) != CountryOf(now, code)
      ensures forall asn :: asn in affectedAsns <==> asn in old(affectedAsns) || AsnOf(was, asn) != AsnOf(now, asn)
    {
      hide CountryOf, AsnOf, CodesOf, NumbersOf;
      OnlyCandidatesDiffer(was, now);
      var codes := CodesOf(was) + CodesOf(now);
      while codes != {}
        invariant affectedAsns == old(affectedAsns)
        invariant forall code :: code in affectedCountries <==>
          code in old(affectedCountries) || (CountryOf(was, code) != CountryOf(now, code) && code !in codes)
        decreases codes
      {
        var code :| code in codes;
        if CountryOf(was, code) != CountryOf(now, code) {
          affectedCountries := affectedCountries + {code};
        }
        codes := codes - {code};
      }
      ghost var changed := affectedCountries;
      var asns := NumbersOf(was) + NumbersOf(now);
      while asns != {}
        invariant affectedCountries == changed
        invariant forall asn :: asn in affectedAsns <==>
          asn in old(affectedAsns) || (AsnOf(was, asn) != AsnOf(now, asn) && asn !in asns)
        decreases asns
      {
        var asn :| asn in asns;
        if AsnOf(was, asn) != AsnOf(now, asn) {
          affectedAsns := affectedAsns + {asn};
        }
        asns := asns - {asn};
      }
    }

    /** `loadFeedDeltas`: a refreshed feed without a committed sidecar that is
        suspected in the details, or with an unusable sidecar, calls for a full
        rebuild; any other is staged or marked for deletion. */
    method LoadFeedDeltas(suspected: set<string>, unusable: set<string>, ghost targets: set<string>) returns (ok: bool)
      requires SetOf(targetFeeds, targets)
      requires affectedCountries == {} && affectedAsns == {} && deltas == map[] && batch == NO_FILES
      modifies this`affectedCountries, this`affectedAsns, this`deltas, this`batch
      ensures ok <==> forall n :: n in targets ==> !CallsForRebuild(live.feeds, suspected, unusable, n)
      ensures ok ==> DeltasLoaded(live.feeds, pending, targets, deltas, batch)
      ensures ok ==> forall code :: code in affectedCountries <==> PatchesCountry(live.feeds, pending, targets, code)
      ensures ok ==> forall asn :: asn in affectedAsns <==> PatchesAsn(live.feeds, pending, targets, asn)
    {
      hide PatchesCountry, PatchesAsn, DeltasLoaded;
      ghost var done: set<string> := {};
      NothingPatched(live.feeds, pending);
      for i := 0 to |targetFeeds|
        invariant SetOf(targetFeeds[..i], done)
        invariant forall n :: n in done ==> !CallsForRebuild(live.feeds, suspected, unusable, n)
        invariant DeltasLoaded(live.feeds, pending, done, deltas, batch)
        invariant forall code :: code in affectedCountries <==> PatchesCountry(live.feeds, pending, done, code)
        invariant forall asn :: asn in affectedAsns <==> PatchesAsn(live.feeds, pending, done, asn)
      {
        var name := targetFeeds[i];
        assert targetFeeds[..i + 1] == targetFeeds[..i] + [name];
        if name in unusable || (name !in live.feeds && name in suspected) {
          assert CallsForRebuild(live.feeds, suspected, unusable, name) && name in targets;
          return false;
        }
        var was, now := Lookup(live.feeds, name), Lookup(pending, name);
        OneMoreDelta(live.feeds, pending, done, name, deltas, batch);
        OneMorePatched(live.feeds, pending, done, name);
        if was.Some? || now.Some? {
          deltas := deltas[name := now];
          AddChangedActorTargets(was, now);
          batch := if now.Some? then batch.(feeds := batch.feeds[name := now.value])
                   else batch.(deletedFeeds := batch.deletedFeeds + {name});
        }
        done := done + {name};
      }
      assert targetFeeds[..|targetFeeds|] == targetFeeds;
      assert done == targets;
      ok := true;
    }
  }

  ghost predicate CallsForRebuild(feeds: map<string, Sidecar>, suspected: set<string>, unusable: set<string>,
                                  n: string) {
    n in unusable || (n !in feeds && n in suspected)
  }

  ghost predicate DeltasLoaded(feeds: map<string, Sidecar>, pending: map<string, Sidecar>, done: set<string>,
                               deltas: map<string, Option<Sidecar>>, batch: Batch) {
    && deltas == (map n | n in done && (n in feeds || n in pending) :: Lookup(pending, n))
    && batch == NO_FILES.(
      feeds := map n | n in done && n in pending :: pending[n],
      deletedFeeds := set n | n in done && n in feeds && n !in pending)
  }

  lemma NothingPatched(feeds: map<string, Sidecar>, pending: map<string, Sidecar>)
    ensures DeltasLoaded(feeds, pending, {}, map[], NO_FILES)
    ensures forall code :: !PatchesCountry(feeds, pending, {}, code)
    ensures forall asn :: !PatchesAsn(feeds, pending, {}, asn)
  {}

  lemma OneMorePatched(feeds: map<string, Sidecar>, pending: map<string, Sidecar>, done: set<string>, name: string)
    ensures forall code :: PatchesCountry(feeds, pending, done + {name}, code) <==>
      || PatchesCountry(feeds, pending, done, code)
      || CountryOf(Lookup(feeds, name), code) != CountryOf(Lookup(pending, name), code)
    ensures forall asn :: PatchesAsn(feeds, pending, done + {name}, asn) <==>
      || PatchesAsn(feeds, pending, done, asn)
      || AsnOf(Lookup(feeds, name), asn) != AsnOf(Lookup(pending, name), asn)
  {
    hide CountryOf, AsnOf;
    assert name in done + {name};
  }

  lemma OneMoreDelta(feeds: map<string, Sidecar>, pending: map<string, Sidecar>, done: set<string>, name: string,
                     deltas: map<string, Option<Sidecar>>, batch: Batch)
    requires DeltasLoaded(feeds, pending, done, deltas, batch)
    ensures
      var was, now := Lookup(feeds, name), Lookup(pending, name);
      if was.None? && now.None? then DeltasLoaded(feeds, pending, done + {name}, deltas, batch)
      else DeltasLoaded(feeds, pending, done + {name}, deltas[name := now],
        if now.Some? then batch.(feeds := batch.feeds[name := now.value])
        else batch.(deletedFeeds := batch.deletedFeeds + {name}))
  {}

  /** Published over any store with these sidecars, the batch is a surgical
      write. */
  ghost predicate StagesSurgical(
    batch: Batch, feeds: map<string, Sidecar>, targets: set<string>, pending: map<string, Sidecar>, urls: Urls) {
    forall live: Store :: live.feeds == feeds ==> SurgicalWrite(live, targets, pending, urls, Published(live, batch))
  }

  /** `stageRefreshEntityArtifactsForFeedUpdates`; `None` calls for a full
      rebuild. Feeds that the details mention or a sidecar is expected for, and
      feeds whose sidecars cannot be used, are handed in. */
  method RefreshSurgically(live: Store, pending: map<string, Sidecar>, targetFeeds: seq<string>,
                           ghost targets: set<string>, suspected: set<string>, unusable: set<string>, urls: Urls)
    returns (r: Option<Batch>)
    requires SetOf(targetFeeds, targets)
    ensures r.None? <==> exists n :: n in targets && (n in unusable || (n !in live.feeds && n in suspected))
    ensures r.Some? ==> StagesSurgical(r.value, live.feeds, targets, pending, urls)
  {
    hide Listing, WalkOf, CountryDetail, AsnDetail, Replaced, FeedsAfter, StagesSurgical, PatchesCountry, PatchesAsn,
         DeltasLoaded;
    var s := new EntitySurgicalRefreshState(live, pending, targetFeeds);
    var ok := s.LoadFeedDeltas(suspected, unusable, targets);
    if !ok {
      return None;
    }
    PatchedAreNamed(live.feeds, pending, targets);
    MergedIsPatched(live.feeds, targets, pending, s.deltas, s.batch);
    var walk := WalkMerged(live.feeds, s.deltas, urls);
    ghost var names := ListingExists(ByName, Replaced(live.feeds, s.deltas).Keys);
    var countries, asns := BuildAffected(Mode(false, s.affectedCountries, s.affectedAsns), walk);
    var countryFiles, goneCountries := SplitDetails(s.affectedCountries, countries);
    var asnFiles, goneAsns := SplitDetails(s.affectedAsns, asns);
    var batch := s.batch.(
      countries := countryFiles, deletedCountries := goneCountries, asns := asnFiles, deletedAsns := goneAsns);
    SurgicalBatch(live.feeds, targets, pending, urls, names, s.deltas, s.affectedCountries, s.affectedAsns,
                  countries, asns, s.batch, batch);
    r := Some(batch);
  }

  lemma PatchedAreNamed(feeds: map<string, Sidecar>, pending: map<string, Sidecar>, targets: set<string>)
    ensures !PatchesCountry(feeds, pending, targets, "") && !PatchesAsn(feeds, pending, targets, 0)
  {}

  lemma MergedIsPatched(feeds: map<string, Sidecar>, targets: set<string>, pending: map<string, Sidecar>,
                        deltas: map<string, Option<Sidecar>>, batch: Batch)
    requires DeltasLoaded(feeds, pending, targets, deltas, batch)
    ensures Replaced(feeds, deltas) == FeedsAfter(feeds, targets, pending)
    ensures (feeds + batch.feeds) - batch.deletedFeeds == FeedsAfter(feeds, targets, pending)
  {
    var merged, expected := Replaced(feeds, deltas), FeedsAfter(feeds, targets, pending);
    var published := (feeds + batch.feeds) - batch.deletedFeeds;
    forall n ensures Lookup(merged, n) == Lookup(expected, n) && Lookup(published, n) == Lookup(expected, n) {}
    SameLookups(merged, expected);
    SameLookups(published, expected);
  }

  lemma SurgicalBatch(
    feeds: map<string, Sidecar>, targets: set<string>, pending: map<string, Sidecar>, urls: Urls, names: seq<string>,
    deltas: map<string, Option<Sidecar>>, affectedC: set<string>, affectedA: set<Asn>,
    countries: CountryMap, asns: AsnMap, loaded: Batch, batch: Batch)
    requires DeltasLoaded(feeds, pending, targets, deltas, loaded)
    requires batch.feeds == loaded.feeds && batch.deletedFeeds == loaded.deletedFeeds
    requires Listing(ByName, names, FeedsAfter(feeds, targets, pending).Keys)
    requires forall code :: code in affectedC <==> PatchesCountry(feeds, pending, targets, code)
    requires forall asn :: asn in affectedA <==> PatchesAsn(feeds, pending, targets, asn)
    requires DetailsStaged(batch, affectedC, affectedA, countries, asns, {}, {})
    requires DetailsFor(WalkOf(FeedsAfter(feeds, targets, pending), names, urls), affectedC, affectedA, countries, asns)
    ensures StagesSurgical(batch, feeds, targets, pending, urls)
  {
    hide Listing, FeedsAfter, PatchesCountry, PatchesAsn, DeltasLoaded, DetailsStaged, DetailsFor, PatchedRebuilt;
    MergedIsPatched(feeds, targets, pending, deltas, loaded);
    forall live: Store | live.feeds == feeds
      ensures SurgicalWrite(live, targets, pending, urls, Published(live, batch))
    {
      PatchesPublished(live, targets, pending, urls, names, affectedC, affectedA, countries, asns, batch);
    }
  }

  lemma PatchesPublished(
    live: Store, targets: set<string>, pending: map<string, Sidecar>, urls: Urls, names: seq<string>,
    affectedC: set<string>, affectedA: set<Asn>, countries: CountryMap, asns: AsnMap, batch: Batch)
    requires Published(live, batch).feeds == FeedsAfter(live.feeds, targets, pending)
    requires forall code :: code in affectedC <==> PatchesCountry(live.feeds, pending, targets, code)
    requires forall asn :: asn in affectedA <==> PatchesAsn(live.feeds, pending, targets, asn)
    requires DetailsStaged(batch, affectedC, affectedA, countries, asns, {}, {})
    requires DetailsFor(WalkOf(FeedsAfter(live.feeds, targets, pending), names, urls), affectedC, affectedA,
      countries, asns)
    ensures PatchedRebuilt(live, targets, pending, urls, names, Published(live, batch))
  {
    hide WalkOf, CountryDetail, AsnDetail, FeedsAfter, PatchesCountry, PatchesAsn;
    forall code { PublishedLookup(live.countries, countries, affectedC, {}, code); }
    forall asn { PublishedLookup(live.asns, asns, affectedA, {}, asn); }
  }
}
