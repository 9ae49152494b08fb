/** The repair of selected details (pkg/engine/entity_artifact_selected_repair.go):
    the named entities are aggregated again from the committed sidecars. */
module EntityRepair {
  import opened Wrappers
  import opened EntityDetail
  import opened EntityArtifacts
  import opened EntityTotals
  import opened EntityWrite

  /** Named details are aggregated over the committed walk, the rest stay. */
  ghost predicate RepairedAlong(before: Store, countries: set<string>, asns: set<Asn>, urls: Urls, names: seq<string>,
                                after: Store) {
    && (forall code :: Lookup(after.countries, code) ==
          if code in countries then CountryDetail(code, WalkOf(before.feeds, names, urls))
          else Lookup(before.countries, code))
    && (forall asn :: Lookup(after.asns, asn) ==
          if asn in asns then AsnDetail(asn, WalkOf(before.feeds, names, urls)) else Lookup(before.asns, asn))
  }

  ghost predicate RepairWrite(before: Store, countries: set<string>, asns: set<Asn>, urls: Urls, after: Store) {
    && after.feeds == before.feeds
    && exists names ::
      Listing(ByPath, names, before.feeds.Keys) && RepairedAlong(before, countries, asns, urls, names, after)
  }

  /** Every detail that is not named is the aggregate already. */
  ghost predicate RightAlong(s: Store, countries: set<string>, asns: set<Asn>, urls: Urls, names: seq<string>) {
    && (forall code :: code !in countries ==>
          Lookup(s.countries, code) == CountryDetail(code, WalkOf(s.feeds, names, urls)))
    && (forall asn :: asn !in asns ==> Lookup(s.asns, asn) == AsnDetail(asn, WalkOf(s.feeds, names, urls)))
  }

  ghost predicate RightElsewhere(s: Store, countries: set<string>, asns: set<Asn>, urls: Urls) {
    exists names :: Listing(ByPath, names, s.feeds.Keys) && RightAlong(s, countries, asns, urls, names)
  }

  /** A repair leaves the details consistent if and only if every detail it does
      not name was right before. */
  lemma RepairExactlyWhen(before: Store, countries: set<string>, asns: set<Asn>, urls: Urls, after: Store)
    requires RepairWrite(before, countries, asns, urls, after)
    ensures Consistent(ByPath, after, urls) <==> RightElsewhere(before, countries, asns, urls)
  {
    hide Listing, CountryDetail, AsnDetail, WalkOf;
    var names :| Listing(ByPath, names, before.feeds.Keys)
      && RepairedAlong(before, countries, asns, urls, names, after);
    RepairedWhenRight(before, countries, asns, urls, names, after);
    if Consistent(ByPath, after, urls) {
      var others :| Listing(ByPath, others, after.feeds.Keys) && ConsistentAlong(after, others, urls);
      ListingUnique(ByPath, names, others, before.feeds.Keys);
    }
    if RightElsewhere(before, countries, asns, urls) {
      var others :| Listing(ByPath, others, before.feeds.Keys) && RightAlong(before, countries, asns, urls, others);
      ListingUnique(ByPath, names, others, before.feeds.Keys);
    }
  }

  lemma RepairedWhenRight(before: Store, countries: set<string>, asns: set<Asn>, urls: Urls, names: seq<string>,
                          after: Store)
    requires after.feeds == before.feeds && RepairedAlong(before, countries, asns, urls, names, after)
    ensures ConsistentAlong(after, names, urls) <==> RightAlong(before, countries, asns, urls, names)
  {
    hide CountryDetail, AsnDetail, WalkOf;
  }

  lemma RepairKeepsConsistent(before: Store, countries: set<string>, asns: set<Asn>, urls: Urls, after: Store)
    requires RepairWrite(before, countries, asns, urls, after) && Consistent(ByPath, before, urls)
    ensures Consistent(ByPath, after, urls)
  {
    hide Listing, CountryDetail, AsnDetail, WalkOf, RepairWrite;
    var names :| Listing(ByPath, names, before.feeds.Keys) && ConsistentAlong(before, names, urls);
    assert RightAlong(before, countries, asns, urls, names);
    RepairExactlyWhen(before, countries, asns, urls, after);
  }

  /** Every entity that has a detail or is mentioned by a sidecar is named. */
  ghost predicate NamesAll(s: Store, countries: set<string>, asns: set<Asn>) {
    && s.countries.Keys <= countries && s.asns.Keys <= asns
    && (forall n :: n in s.feeds ==> Codes(s.feeds[n]) <= countries && Numbers(s.feeds[n]) <= asns)
  }

  /** Repairing every entity makes any store consistent. */
  lemma RepairOfEverything(before: Store, countries: set<string>, asns: set<Asn>, urls: Urls, after: Store)
    requires RepairWrite(before, countries, asns, urls, after) && NamesAll(before, countries, asns)
    ensures Consistent(ByPath, after, urls)
  {
    hide Listing, CountryDetail, AsnDetail, WalkOf, RepairWrite, Codes, Numbers;
    var names := ListingExists(ByPath, before.feeds.Keys);
    forall code | code !in countries
      ensures Lookup(before.countries, code) == CountryDetail(code, WalkOf(before.feeds, names, urls))
    {
      UnmentionedHasNoDetail(before.feeds, names, urls, code, 0);
    }
    forall asn | asn !in asns ensures Lookup(before.asns, asn) == AsnDetail(asn, WalkOf(before.feeds, names, urls)) {
      UnmentionedHasNoDetail(before.feeds, names, urls, "", asn);
    }
    assert RightAlong(before, countries, asns, urls, names);
    RepairExactlyWhen(before, countries, asns, urls, after);
  }

  // --------------------------------------------------------------- the staging

  /** The targeted aggregation, whatever is named. */
  method BuildTargeted(countries: set<string>, asns: set<Asn>, walk: seq<Visit>)
    returns (builtC: CountryMap, builtA: AsnMap)
    ensures DetailsFor(walk, countries, asns, builtC, builtA)
  {
    hide Aggregate;
    var mode := Mode(false, countries, asns);
    builtC, builtA := BuildFromWalk(mode, walk);
    UnwantedStayEmpty(mode, walk, "", 0);
    forall c | c in countries ensures Lookup(builtC, c) == CountryDetail(c, walk) {
      ResultsAreDetails(mode, walk, c, 0);
    }
    forall a | a in asns ensures Lookup(builtA, a) == AsnDetail(a, walk) {
      ResultsAreDetails(mode, walk, "", a);
    }
  }

  /** The files of the named entities: one whose content is right and whose
      public counterpart is there is left alone. */
  method RewriteDetails<K(==), V(==)>(targets: set<K>, built: map<K, V>, live: map<K, V>, public: set<K>)
    returns (files: map<K, V>, gone: set<K>)
    ensures Rewritten(files, gone, targets, built, live, public)
  {
    files, gone := map[], {};
    var todo := targets;
    while todo != {}
      invariant todo <= targets && gone == targets - todo - built.Keys
      invariant files ==
        map k | k in built && k in targets - todo && (k !in public || Lookup(live, k) != Some(built[k])) :: built[k]
      decreases todo
    {
      var k :| k in todo;
      if k !in built {
        gone := gone + {k};
      } else if k !in public || k !in live || live[k] != built[k] {
        files := files[k := built[k]];
      }
      todo := todo - {k};
    }
    assert targets - {} == targets;
  }

  ghost predicate SameDetails(a: Store, b: Store, countries: set<string>, asns: set<Asn>) {
    && (forall c :: c in countries ==> Lookup(a.countries, c) == Lookup(b.countries, c))
    && (forall n :: n in asns ==> Lookup(a.asns, n) == Lookup(b.asns, n))
  }

  /** Published over any store with these sidecars and these named details, the
      batch is a repair. */
  ghost predicate StagesRepair(batch: Batch, found: Store, countries: set<string>, asns: set<Asn>, urls: Urls) {
    forall live: Store :: live.feeds == found.feeds && SameDetails(live, found, countries, asns)
      ==> RepairWrite(live, countries, asns, urls, Published(live, batch))
  }

  /** `stageRewriteSelectedEntityArtifacts`, the private files; the public ones
      that exist are handed in. */
  method RepairSelected(live: Store, countries: set<string>, asns: set<Asn>, publicCountries: set<string>,
                        publicAsns: set<Asn>, urls: Urls)
    returns (batch: Batch)
    ensures StagesRepair(batch, live, countries, asns, urls)
  {
    hide Listing, WalkOf, CountryDetail, AsnDetail, DetailsFor, StagesRepair, Lookup;
    batch := NO_FILES;
    ghost var names := ListingExists(ByPath, live.feeds.Keys);
    var walk := WalkDir(live.feeds, urls);
    var builtC, builtA := BuildTargeted(countries, asns, walk);
    var countryFiles, goneCountries := RewriteDetails(countries, builtC, live.countries, publicCountries);
    var asnFiles, goneAsns := RewriteDetails(asns, builtA, live.asns, publicAsns);
    batch := NO_FILES.(countries := countryFiles, deletedCountries := goneCountries, asns := asnFiles,
                       deletedAsns := goneAsns);
    RepairBatch(live, countries, asns, urls, names, builtC, builtA, publicCountries, publicAsns, batch);
  }

  ghost predicate Rewritten<K, V>(files: map<K, V>, gone: set<K>, targets: set<K>, built: map<K, V>, live: map<K, V>,
                                  public: set<K>) {
    && gone == targets - built.Keys
    && files == map k | k in built && k in targets && (k !in public || Lookup(live, k) != Some(built[k])) :: built[k]
  }

  lemma RepairBatch(found: Store, countries: set<string>, asns: set<Asn>, urls: Urls, names: seq<string>,
                    builtC: CountryMap, builtA: AsnMap, publicC: set<string>, publicA: set<Asn>, batch: Batch)
    requires Listing(ByPath, names, found.feeds.Keys)
    requires DetailsFor(WalkOf(found.feeds, names, urls), countries, asns, builtC, builtA)
    requires batch.feeds == map[] && batch.deletedFeeds == {}
    requires Rewritten(batch.countries, batch.deletedCountries, countries, builtC, found.countries, publicC)
    requires Rewritten(batch.asns, batch.deletedAsns, asns, builtA, found.asns, publicA)
    ensures StagesRepair(batch, found, countries, asns, urls)
  {
    hide Listing, DetailsFor, Rewritten, SameDetails, RepairedAlong;
    forall live: Store | live.feeds == found.feeds && SameDetails(live, found, countries, asns)
      ensures RepairWrite(live, countries, asns, urls, Published(live, batch))
    {
      var after := Published(live, batch);
      assert after.feeds == live.feeds;
      RepairPublished(live, found, countries, asns, urls, names, builtC, builtA, publicC, publicA, batch);
    }
  }

  lemma RepairPublished(
    live: Store, found: Store, countries: set<string>, asns: set<Asn>, urls: Urls, names: seq<string>,
    builtC: CountryMap, builtA: AsnMap, publicC: set<string>, publicA: set<Asn>, batch: Batch)
    requires live.feeds == found.feeds && SameDetails(live, found, countries, asns)
    requires DetailsFor(WalkOf(found.feeds, names, urls), countries, asns, builtC, builtA)
    requires Rewritten(batch.countries, batch.deletedCountries, countries, builtC, found.countries, publicC)
    requires Rewritten(batch.asns, batch.deletedAsns, asns, builtA, found.asns, publicA)
    ensures RepairedAlong(live, countries, asns, urls, names, Published(live, batch))
  {
    hide WalkOf, CountryDetail, AsnDetail, Rewritten, Lookup;
    forall code {
      RewrittenLookup(live.countries, found.countries, batch.countries, batch.deletedCountries, countries, builtC,
                      publicC, code);
    }
    forall asn {
      RewrittenLookup(live.asns, found.asns, batch.asns, batch.deletedAsns, asns, builtA, publicA, asn);
    }
  }

  lemma RewrittenLookup<K, V>(live: map<K, V>, found: map<K, V>, files: map<K, V>, gone: set<K>, targets: set<K>,
                              built: map<K, V>, public: set<K>, k: K)
    requires Rewritten(files, gone, targets, built, found, public)
    requires k in targets ==> Lookup(live, k) == Lookup(found, k)
    ensures Lookup((live + files) - gone, k) == if k in targets then Lookup(built, k) else Lookup(live, k)
  {}
}
