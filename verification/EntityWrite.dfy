/** The write state of entity artifacts (pkg/engine/entity_artifacts_write.go):
    staging sidecars, collecting affected entities and staging their details
    into one batch, proved to perform the writes EntityArtifacts reasons about. */
module EntityWrite {
  import opened Wrappers
  import opened Names
  import opened EntityDetail
  import opened EntityArtifacts
  import GoText

  /** The private part of the publish batch: staged files and deletions. */
  datatype Batch = Batch(
    feeds: map<string, Sidecar>, deletedFeeds: set<string>,
    countries: CountryMap, deletedCountries: set<string>,
    asns: AsnMap, deletedAsns: set<Asn>)

  const NO_FILES := Batch(map[], {}, map[], {}, map[], {})

  /** Staged files are renamed into place, then deletions are carried out. */
  function Published(live: Store, b: Batch): Store {
    Store((live.feeds + b.feeds) - b.deletedFeeds,
          (live.countries + b.countries) - b.deletedCountries,
          (live.asns + b.asns) - b.deletedAsns)
  }

  ghost predicate SetOf<T(!new)>(s: seq<T>, elements: set<T>) {
    forall x :: x in s <==> x in elements
  }

  /** The sidecar files staged for the changed feeds. */
  ghost function StagedFeeds(built: map<string, Sidecar>, changed: set<string>): Batch {
    NO_FILES.(feeds := map n | n in built && n in changed :: built[n], deletedFeeds := changed - built.Keys)
  }

  lemma ChangedOneMore(feeds: map<string, Sidecar>, done: set<string>, built: map<string, Sidecar>, name: string)
    ensures Changed(feeds, done + {name}, built)
      == Changed(feeds, done, built) + (if Lookup(feeds, name) != Lookup(built, name) then {name} else {})
  {}

  lemma StagedOneMore(built: map<string, Sidecar>, changed: set<string>, name: string)
    ensures
      var was := StagedFeeds(built, changed);
      StagedFeeds(built, changed + {name}) ==
        if name in built then was.(feeds := was.feeds[name := built[name]])
        else was.(deletedFeeds := was.deletedFeeds + {name})
  {
    if name !in built {
      assert (changed + {name}) - built.Keys == (changed - built.Keys) + {name};
    } else {
      assert (changed + {name}) - built.Keys == changed - built.Keys;
    }
  }

  lemma {:induction false} WalkOfNothing(names: seq<string>, urls: Urls)
    ensures WalkOf(map[], names, urls) == []
  {
    if names != [] { WalkOfNothing(names[..|names| - 1], urls); }
  }

  /** An entity no sidecar mentions has no detail. */
  lemma UnmentionedHasNoDetail(feeds: map<string, Sidecar>, names: seq<string>, urls: Urls, code: string, asn: Asn)
    ensures (forall n :: n in feeds ==> code !in Codes(feeds[n])) ==>
      CountryDetail(code, WalkOf(feeds, names, urls)) == None
    ensures (forall n :: n in feeds ==> asn !in Numbers(feeds[n])) ==>
      AsnDetail(asn, WalkOf(feeds, names, urls)) == None
  {
    UntouchedFold(feeds, map[], names, urls, code, asn);
    WalkOfNothing(names, urls);
  }

  class EntityArtifactWriteState {
    const live: Store
    const full: bool
    const targetFeeds: seq<string>
    const urls: Urls
    var newSidecars: map<string, Sidecar>
    var changedFeeds: set<string>
    var affectedCountries: set<string>
    var affectedAsns: set<Asn>
    var batch: Batch

    constructor (store: Store, isFull: bool, targets: seq<string>, catalogUrls: Urls, built: map<string, Sidecar>)
      ensures live == store && full == isFull && targetFeeds == targets && urls == catalogUrls
      ensures newSidecars == built && changedFeeds == {} && affectedCountries == {} && affectedAsns == {}
      ensures batch == NO_FILES
    {
      live, full, targetFeeds, urls := store, isFull, targets, catalogUrls;
      newSidecars, changedFeeds, affectedCountries, affectedAsns := built, {}, {}, {};
      batch := NO_FILES;
    }

    method AddAffectedSidecarEntities(s: Option<Sidecar>)
      modifies this`affectedCountries, this`affectedAsns
      ensures affectedCountries == old(affectedCountries) + CodesOf(s)
      ensures affectedAsns == old(affectedAsns) + NumbersOf(s)
    {
      if s.Some? {
        affectedCountries := affectedCountries + Codes(s.value);
        affectedAsns := affectedAsns + Numbers(s.value);
      }
    }

    /** `stageFeedSidecar`: an unchanged sidecar of an incremental run stages
        nothing, a changed one is staged or marked for deletion. */
    method StageFeedSidecar(name: string, s: Option<Sidecar>)
      modifies this`changedFeeds, this`batch
      ensures !full && Lookup(live.feeds, name) == s ==> changedFeeds == old(changedFeeds) && batch == old(batch)
      ensures full || Lookup(live.feeds, name) != s ==>
        && changedFeeds == old(changedFeeds) + {name}
        && batch == (if s.Some? then old(batch).(feeds := old(batch).feeds[name := s.value])
                     else old(batch).(deletedFeeds := old(batch).deletedFeeds + {name}))
    {
      if !full && Lookup(live.feeds, name) == s {
        return;
      }
      changedFeeds := changedFeeds + {name};
      if s.None? {
        batch := batch.(deletedFeeds := batch.deletedFeeds + {name});
      } else {
        batch := batch.(feeds := batch.feeds[name := s.value]);
      }
    }

    /** The staging loop of an incremental run. */
    method StageFeedSidecars(ghost targets: set<string>)
      requires !full && SetOf(targetFeeds, targets) && changedFeeds == {} && batch == NO_FILES
      modifies this`changedFeeds, this`batch
      ensures changedFeeds == Changed(live.feeds, targets, newSidecars)
      ensures batch == NO_FILES.(
        feeds := map n | n in newSidecars && n in changedFeeds :: newSidecars[n],
        deletedFeeds := changedFeeds - newSidecars.Keys)
    {
      ghost var done: set<string> := {};
      for i := 0 to |targetFeeds|
        invariant SetOf(targetFeeds[..i], done)
        invariant changedFeeds == Changed(live.feeds, done, newSidecars)
        invariant batch == StagedFeeds(newSidecars, changedFeeds)
      {
        ChangedOneMore(live.feeds, done, newSidecars, targetFeeds[i]);
        StagedOneMore(newSidecars, changedFeeds, targetFeeds[i]);
        StageFeedSidecar(targetFeeds[i], Lookup(newSidecars, targetFeeds[i]));
        done := done + {targetFeeds[i]};
        assert targetFeeds[..i + 1] == targetFeeds[..i] + [targetFeeds[i]];
      }
      assert targetFeeds[..|targetFeeds|] == targetFeeds;
      assert done == targets;
    }

    /** `collectAffectedEntities`: what the changed feeds mention, before and after. */
    method CollectAffectedEntities(ghost targets: set<string>)
      requires SetOf(targetFeeds, targets) && changedFeeds <= targets && affectedCountries == {} && affectedAsns == {}
      modifies this`affectedCountries, this`affectedAsns
      ensures forall code :: code in affectedCountries <==> TouchesCountry(live.feeds, newSidecars, changedFeeds, code)
      ensures forall asn :: asn in affectedAsns <==> TouchesAsn(live.feeds, newSidecars, changedFeeds, asn)
    {
      ghost var seen: set<string> := {};
      for i := 0 to |targetFeeds|
        invariant seen <= changedFeeds && forall n :: n in seen <==> n in changedFeeds && n in targetFeeds[..i]
        invariant forall code :: code in affectedCountries <==> TouchesCountry(live.feeds, newSidecars, seen, code)
        invariant forall asn :: asn in affectedAsns <==> TouchesAsn(live.feeds, newSidecars, seen, asn)
      {
        var name := targetFeeds[i];
        assert targetFeeds[..i + 1] == targetFeeds[..i] + [name];
        if name in changedFeeds {
          TouchesOneMore(live.feeds, newSidecars, seen, name);
          AddAffectedSidecarEntities(Lookup(live.feeds, name));
          AddAffectedSidecarEntities(Lookup(newSidecars, name));
          seen := seen + {name};
        }
      }
      assert targetFeeds[..|targetFeeds|] == targetFeeds;
      assert seen == changedFeeds;
    }

    /** `buildAndStageFullFeedSidecars` and the stale-sidecar deletions. */
    method StageFullFeedSidecars()
      requires full && changedFeeds == {} && affectedCountries == {} && affectedAsns == {} && batch == NO_FILES
      modifies this`changedFeeds, this`batch, this`affectedCountries, this`affectedAsns
      ensures batch == NO_FILES.(feeds := newSidecars, deletedFeeds := live.feeds.Keys - newSidecars.Keys)
      ensures forall code :: code in affectedCountries <==>
        exists n :: n in newSidecars && code in Codes(newSidecars[n])
      ensures forall asn :: asn in affectedAsns <==> exists n :: n in newSidecars && asn in Numbers(newSidecars[n])
    {
      var todo := newSidecars.Keys;
      while todo != {}
        invariant todo <= newSidecars.Keys
        invariant batch == NO_FILES.(feeds := map n | n in newSidecars && n !in todo :: newSidecars[n])
        invariant forall code :: code in affectedCountries <==>
          exists n :: n in newSidecars && n !in todo && code in Codes(newSidecars[n])
        invariant forall asn :: asn in affectedAsns <==>
          exists n :: n in newSidecars && n !in todo && asn in Numbers(newSidecars[n])
        decreases todo
      {
        var name :| name in todo;
        StageFeedSidecar(name, Some(newSidecars[name]));
        AddAffectedSidecarEntities(Some(newSidecars[name]));
        todo := todo - {name};
      }
      assert batch.feeds == newSidecars;
      MarkStaleFeedSidecarDeletes();
    }

    /** `markStaleFeedSidecarDeletesForFullRebuild`. */
    method MarkStaleFeedSidecarDeletes()
      modifies this`batch
      ensures batch == old(batch).(deletedFeeds := old(batch).deletedFeeds + (live.feeds.Keys - newSidecars.Keys))
    {
      var todo := live.feeds.Keys;
      while todo != {}
        invariant todo <= live.feeds.Keys
        invariant batch == old(batch).(
          deletedFeeds := old(batch).deletedFeeds + (live.feeds.Keys - todo - newSidecars.Keys))
        decreases todo
      {
        var name :| name in todo;
        if name !in newSidecars {
          batch := batch.(deletedFeeds := batch.deletedFeeds + {name});
        }
        todo := todo - {name};
      }
      assert live.feeds.Keys - todo == live.feeds.Keys;
    }

    /** `markStaleDetailDeletesForFullRebuild`, over the names of the files in
        the two directories, whatever they are. */
    method MarkStaleDetailDeletes(countryFiles: seq<string>, asnFiles: seq<string>)
      modifies this`batch
      ensures batch == old(batch).(
        deletedCountries := old(batch).deletedCountries + StaleCodes(countryFiles, affectedCountries),
        deletedAsns := old(batch).deletedAsns + StaleNumbers(asnFiles, affectedAsns))
    {
      hide GoText.ToUpper, GoText.TrimSpace, GoText.ParseUint32, CountryFileCode;
      for i := 0 to |countryFiles|
        invariant batch == old(batch).(
          deletedCountries := old(batch).deletedCountries + StaleCodes(countryFiles[..i], affectedCountries))
      {
        var code := countryFiles[i];
        assert countryFiles[..i + 1] == countryFiles[..i] + [code];
        if GoText.ToUpper(code) !in affectedCountries {
          batch := batch.(deletedCountries := batch.deletedCountries + {CountryFileCode(code)});
        }
      }
      assert countryFiles[..|countryFiles|] == countryFiles;
      ghost var midway := batch;
      for i := 0 to |asnFiles|
        invariant batch == midway.(deletedAsns := midway.deletedAsns + StaleNumbers(asnFiles[..i], affectedAsns))
      {
        var raw := asnFiles[i];
        assert asnFiles[..i + 1] == asnFiles[..i] + [raw];
        var asn := GoText.ParseUint32(raw);
        if asn.Some? && asn.value !in affectedAsns {
          batch := batch.(deletedAsns := batch.deletedAsns + {asn.value});
        }
      }
      assert asnFiles[..|asnFiles|] == asnFiles;
    }

    /** The loops over the affected entities, in either kind of run. */
    method StageDetails(countries: CountryMap, asns: AsnMap)
      modifies this`batch
      ensures batch == old(batch).(
        countries := Chosen(countries, affectedCountries),
        deletedCountries := old(batch).deletedCountries + (affectedCountries - countries.Keys),
        asns := Chosen(asns, affectedAsns),
        deletedAsns := old(batch).deletedAsns + (affectedAsns - asns.Keys))
    {
      var countryFiles, goneCountries := SplitDetails(affectedCountries, countries);
      var asnFiles, goneAsns := SplitDetails(affectedAsns, asns);
      batch := batch.(
        countries := countryFiles, deletedCountries := batch.deletedCountries + goneCountries,
        asns := asnFiles, deletedAsns := batch.deletedAsns + goneAsns);
    }
  }

  /** The code in the path of a country's detail file. */
  function CountryFileCode(code: string): string {
    GoText.ToUpper(GoText.TrimSpace(code))
  }

  ghost function StaleCodes(files: seq<string>, affected: set<string>): set<string> {
    set f | f in files && GoText.ToUpper(f) !in affected :: CountryFileCode(f)
  }

  ghost function StaleNumbers(files: seq<string>, affected: set<Asn>): set<Asn> {
    set f | f in files && GoText.ParseUint32(f).Some? && GoText.ParseUint32(f).value !in affected
      :: GoText.ParseUint32(f).value
  }

  /** The name that is looked up among the affected codes is the one in the
      path: there is no white space around it. */
  predicate PlainNames(files: seq<string>) {
    forall f | f in files :: GoText.ToUpper(f) == CountryFileCode(f)
  }

  /** The directories hold the store's details under the names the daemon gives
      them; files of other names may lie beside them. */
  ghost predicate DetailFiles(live: Store, countryFiles: seq<string>, asnFiles: seq<string>) {
    && (forall c :: c in live.countries ==> c in countryFiles && GoText.ToUpper(c) == c)
    && PlainNames(countryFiles)
    && (forall a :: a in live.asns ==> GoText.Decimal(a) in asnFiles && a < 0x1_0000_0000)
  }

  /** What a full run deletes on top of the affected entities is every detail
      nobody mentions any more, and nothing that the run also writes. */
  lemma StaleDetails(live: Store, countryFiles: seq<string>, asnFiles: seq<string>, countries: set<string>,
                     asns: set<Asn>)
    requires DetailFiles(live, countryFiles, asnFiles)
    ensures StaleCodes(countryFiles, countries) !! countries && StaleNumbers(asnFiles, asns) !! asns
    ensures live.countries.Keys - countries <= StaleCodes(countryFiles, countries)
    ensures live.asns.Keys - asns <= StaleNumbers(asnFiles, asns)
  {
    hide GoText.ToUpper, GoText.TrimSpace, GoText.Decimal, GoText.ParseUint32;
    forall a | a in live.asns.Keys - asns ensures a in StaleNumbers(asnFiles, asns) {
      GoText.DecimalParses(a);
      assert GoText.Decimal(a) in asnFiles;
    }
    forall c | c in live.countries.Keys - countries ensures c in StaleCodes(countryFiles, countries) {
      assert c in countryFiles && CountryFileCode(c) == c;
    }
  }

  /** Whatever is affected, no affected country is deleted, exactly when every
      file name is plain. */
  lemma StrayNamesExactlyWhen(files: seq<string>)
    ensures (forall affected :: StaleCodes(files, affected) !! affected) <==> PlainNames(files)
  {
    hide GoText.ToUpper, GoText.TrimSpace;
    if !PlainNames(files) {
      var f :| f in files && GoText.ToUpper(f) != CountryFileCode(f);
      var affected := {CountryFileCode(f)};
      assert CountryFileCode(f) in StaleCodes(files, affected) && CountryFileCode(f) in affected;
    }
  }

  /** A stray file of such a name: a blank before the code. */
  lemma StrayName()
    ensures !PlainNames([" us"]) && CountryFileCode(" us") == "US"
  {
    assert " us"[1..] == "us" && GoText.LeadSpace("us") == 0;
    assert GoText.TrimLeft("us") == "us" && GoText.TrimLeft(" us") == "us";
    assert GoText.TrimRight("us") == "us";
    assert GoText.ToUpper("us") == "US" && |GoText.ToUpper(" us")| == 3;
    assert " us" in [" us"];
  }

  function Chosen<K, V>(details: map<K, V>, affected: set<K>): map<K, V> {
    map k | k in details && k in affected :: details[k]
  }

  /** Writes the details that exist and deletes those that do not. */
  method SplitDetails<K(==), V>(affected: set<K>, details: map<K, V>) returns (files: map<K, V>, gone: set<K>)
    ensures files == Chosen(details, affected) && gone == affected - details.Keys
  {
    files, gone := map[], {};
    var todo := affected;
    while todo != {}
      invariant todo <= affected
      invariant files == Chosen(details, affected - todo)
      invariant gone == affected - todo - details.Keys
      decreases todo
    {
      var k :| k in todo;
      if k in details {
        files := files[k := details[k]];
      } else {
        gone := gone + {k};
      }
      todo := todo - {k};
    }
    assert affected - todo == affected;
  }

  lemma TouchesOneMore(feeds: map<string, Sidecar>, built: map<string, Sidecar>, seen: set<string>, name: string)
    ensures forall code :: TouchesCountry(feeds, built, seen + {name}, code) <==>
      TouchesCountry(feeds, built, seen, code) || code in CodesOf(Lookup(feeds, name)) + CodesOf(Lookup(built, name))
    ensures forall asn :: TouchesAsn(feeds, built, seen + {name}, asn) <==>
      TouchesAsn(feeds, built, seen, asn) || asn in NumbersOf(Lookup(feeds, name)) + NumbersOf(Lookup(built, name))
  {
    assert name in seen + {name};
  }

  // ------------------------------------------------------------------ walks

  /** The committed sidecars with the changed ones replaced, a nil
      replacement dropping its feed. */
  function Replaced(feeds: map<string, Sidecar>, replacements: map<string, Option<Sidecar>>): map<string, Sidecar> {
    map n | n in feeds.Keys + replacements.Keys &&
        (if n in replacements then replacements[n].Some? else n in feeds)
      :: if n in replacements then replacements[n].value else feeds[n]
  }

  /** `walkMergedFeedEntitySidecarsWithRuntime`. */
  method WalkMerged(feeds: map<string, Sidecar>, replacements: map<string, Option<Sidecar>>, urls: Urls)
    returns (walk: seq<Visit>)
    ensures forall names :: Listing(ByName, names, Replaced(feeds, replacements).Keys)
              ==> walk == WalkOf(Replaced(feeds, replacements), names, urls)
  {
    var all := SortedKeys(feeds.Keys + replacements.Keys);
    ghost var merged := Replaced(feeds, replacements);
    walk := [];
    for i := 0 to |all|
      invariant walk == WalkOf(merged, all[..i], urls)
    {
      var name := all[i];
      assert all[..i + 1][..i] == all[..i];
      assert name in all;
      if name in replacements {
        if replacements[name].Some? {
          walk := walk + [VisitOf(name, replacements[name].value, urls)];
        }
      } else {
        walk := walk + [VisitOf(name, feeds[name], urls)];
      }
    }
    assert all[..|all|] == all;
    NamesOf(all, merged, urls);
    forall names | Listing(ByName, names, merged.Keys) ensures walk == WalkOf(merged, names, urls) {
      ListingUnique(ByName, names, Keep(all, merged.Keys), merged.Keys);
    }
  }

  lemma NamesOf(all: seq<string>, merged: map<string, Sidecar>, urls: Urls)
    requires Increasing(all) && forall n :: n in merged ==> n in all
    ensures Listing(ByName, Keep(all, merged.Keys), merged.Keys)
    ensures WalkOf(merged, all, urls) == WalkOf(merged, Keep(all, merged.Keys), urls)
  {
    assert Ordered(ByName, all) by { assert forall i :: 0 <= i < |all| ==> Key(ByName, all[i]) == all[i]; }
    KeepListing(ByName, all, merged.Keys);
    WalkKeeps(merged, all, urls);
  }

  /** `walkFeedEntitySidecarsInDir`: the files of one directory, by path. */
  method WalkDir(feeds: map<string, Sidecar>, urls: Urls) returns (walk: seq<Visit>)
    ensures forall names :: Listing(ByPath, names, feeds.Keys) ==> walk == WalkOf(feeds, names, urls)
  {
    var paths := SortedKeys(set n | n in feeds :: Path(n));
    ghost var seen: seq<string> := [];
    walk := [];
    for i := 0 to |paths|
      invariant |seen| == i && forall j :: 0 <= j < i ==> Path(seen[j]) == paths[j] && seen[j] in feeds
      invariant walk == WalkOf(feeds, seen, urls)
    {
      assert paths[i] in paths;
      var name := paths[i][..|paths[i]| - 5];
      assert name in feeds && Path(name) == paths[i] by {
        var n :| n in feeds && Path(n) == paths[i];
        assert Path(n)[..|n|] == n;
      }
      walk := walk + [VisitOf(name, feeds[name], urls)];
      assert (seen + [name])[..|seen|] == seen;
      seen := seen + [name];
    }
    SeenIsListing(feeds.Keys, paths, seen);
    forall names | Listing(ByPath, names, feeds.Keys) ensures walk == WalkOf(feeds, names, urls) {
      ListingUnique(ByPath, names, seen, feeds.Keys);
    }
  }

  lemma SeenIsListing(keys: set<string>, paths: seq<string>, seen: seq<string>)
    requires Increasing(paths) && forall p :: p in paths <==> exists n :: n in keys && Path(n) == p
    requires |seen| == |paths| && forall j :: 0 <= j < |paths| ==> Path(seen[j]) == paths[j] && seen[j] in keys
    ensures Listing(ByPath, seen, keys)
  {
    forall n ensures n in seen <==> n in keys {
      if n in keys {
        assert Path(n) in paths;
        var j :| 0 <= j < |paths| && paths[j] == Path(n);
        PathInjective(n, seen[j]);
      }
    }
  }

  // ------------------------------------------------------------- whole runs

  /** The built details of the affected entities are their reference details. */
  ghost predicate DetailsFor(walk: seq<Visit>, affectedC: set<string>, affectedA: set<Asn>, countries: CountryMap,
                             asns: AsnMap) {
    && (forall c :: c in affectedC ==> Lookup(countries, c) == CountryDetail(c, walk))
    && (forall a :: a in affectedA ==> Lookup(asns, a) == AsnDetail(a, walk))
  }

  method BuildAffected(mode: Mode, walk: seq<Visit>) returns (countries: CountryMap, asns: AsnMap)
    requires "" !in mode.countries && 0 !in mode.asns && (mode.full ==> AllRegular(walk))
    ensures DetailsFor(walk, mode.countries, mode.asns, countries, asns)
  {
    countries, asns := BuildFromWalk(mode, walk);
    forall c | c in mode.countries ensures Lookup(countries, c) == CountryDetail(c, walk) {
      ResultsAreDetails(mode, walk, c, 0);
    }
    forall a | a in mode.asns ensures Lookup(asns, a) == AsnDetail(a, walk) {
      ResultsAreDetails(mode, walk, "", a);
    }
  }

  /** One kind of detail files after publication. */
  lemma PublishedLookup<K, V>(live: map<K, V>, details: map<K, V>, affected: set<K>, stale: set<K>, k: K)
    requires stale !! affected
    ensures
      Lookup((live + Chosen(details, affected)) - (stale + (affected - details.Keys)), k) ==
      if k in affected then Lookup(details, k) else if k in stale then None else Lookup(live, k)
  {}

  ghost predicate DetailsStaged(b: Batch, affectedC: set<string>, affectedA: set<Asn>,
                                countries: CountryMap, asns: AsnMap, staleC: set<string>, staleA: set<Asn>) {
    && b.countries == Chosen(countries, affectedC) && b.deletedCountries == staleC + (affectedC - countries.Keys)
    && b.asns == Chosen(asns, affectedA) && b.deletedAsns == staleA + (affectedA - asns.Keys)
  }

  /** Published over any store with these sidecars, whatever its details, the
      batch is an incremental write: it depends on nothing but the sidecars. */
  ghost predicate StagesIncrement(
    batch: Batch, feeds: map<string, Sidecar>, targets: set<string>, built: map<string, Sidecar>, urls: Urls) {
    forall live: Store :: live.feeds == feeds ==> IncrementalWrite(live, targets, built, urls, Published(live, batch))
  }

  /** Every file that was there is overwritten or deleted. */
  ghost predicate Covers(batch: Batch, found: Store) {
    && found.feeds.Keys <= batch.feeds.Keys + batch.deletedFeeds
    && found.countries.Keys <= batch.countries.Keys + batch.deletedCountries
    && found.asns.Keys <= batch.asns.Keys + batch.deletedAsns
  }

  /** Published over the files it was staged from, whatever they held, the batch
      is a full write. */
  ghost predicate StagesFull(batch: Batch, found: Store, targets: set<string>, built: map<string, Sidecar>,
                             urls: Urls) {
    Covers(batch, found) && FullWrite(targets, built, urls, Published(found, batch))
  }

  /** An incremental `writeEntityArtifacts`, from the built sidecars on. */
  method WriteIncremental(live: Store, targetFeeds: seq<string>, ghost targets: set<string>, urls: Urls,
                          built: map<string, Sidecar>)
    returns (batch: Batch)
    requires SetOf(targetFeeds, targets) && built.Keys <= targets
    ensures StagesIncrement(batch, live.feeds, targets, built, urls)
  {
    hide Listing, WalkOf, CountryDetail, AsnDetail, Replaced, FeedsAfter, StagesIncrement, Published;
    var s := new EntityArtifactWriteState(live, false, targetFeeds, urls, built);
    s.StageFeedSidecars(targets);
    s.CollectAffectedEntities(targets);
    EntitiesAreNamed(live.feeds, built, s.changedFeeds);
    var replacements := map n | n in s.changedFeeds :: Lookup(built, n);
    var walk := WalkMerged(live.feeds, replacements, urls);
    MergedIsAfter(live.feeds, targets, built, replacements);
    ghost var names := ListingExists(ByName, Replaced(live.feeds, replacements).Keys);
    var countries, asns := map[], map[];
    if s.affectedCountries != {} || s.affectedAsns != {} {
      countries, asns := BuildAffected(Mode(false, s.affectedCountries, s.affectedAsns), walk);
      s.StageDetails(countries, asns);
    }
    batch := s.batch;
    IncrementalBatch(live.feeds, targets, built, urls, names, s.affectedCountries, s.affectedAsns, countries, asns,
      batch);
  }

  lemma EntitiesAreNamed(feeds: map<string, Sidecar>, built: map<string, Sidecar>, changed: set<string>)
    ensures !TouchesCountry(feeds, built, changed, "") && !TouchesAsn(feeds, built, changed, 0)
  {}

  ghost predicate FeedsStaged(b: Batch, feeds: map<string, Sidecar>, targets: set<string>,
                              built: map<string, Sidecar>) {
    && b.feeds == (map n | n in built && n in Changed(feeds, targets, built) :: built[n])
    && b.deletedFeeds == Changed(feeds, targets, built) - built.Keys
  }

  lemma IncrementalBatch(
    feeds: map<string, Sidecar>, targets: set<string>, built: map<string, Sidecar>, urls: Urls, names: seq<string>,
    affectedC: set<string>, affectedA: set<Asn>, countries: CountryMap, asns: AsnMap, batch: Batch)
    requires built.Keys <= targets && FeedsStaged(batch, feeds, targets, built)
    requires Listing(ByName, names, FeedsAfter(feeds, targets, built).Keys)
    requires forall code :: code in affectedC <==> TouchesCountry(feeds, built, Changed(feeds, targets, built), code)
    requires forall asn :: asn in affectedA <==> TouchesAsn(feeds, built, Changed(feeds, targets, built), asn)
    requires DetailsStaged(batch, affectedC, affectedA, countries, asns, {}, {})
    requires DetailsFor(WalkOf(FeedsAfter(feeds, targets, built), names, urls), affectedC, affectedA, countries, asns)
    ensures StagesIncrement(batch, feeds, targets, built, urls)
  {
    hide Listing, FeedsAfter, Changed, Published, FeedsStaged, TouchesCountry, TouchesAsn, DetailsStaged, DetailsFor,
         TouchedRebuilt;
    forall live: Store | live.feeds == feeds
      ensures IncrementalWrite(live, targets, built, urls, Published(live, batch))
    {
      FeedsPublished(live, targets, built, batch);
      DetailsPublished(live, targets, built, urls, names, affectedC, affectedA, countries, asns, batch);
    }
  }

  lemma DetailsPublished(
    live: Store, targets: set<string>, built: map<string, Sidecar>, urls: Urls, names: seq<string>,
    affectedC: set<string>, affectedA: set<Asn>, countries: CountryMap, asns: AsnMap, batch: Batch)
    requires Published(live, batch).feeds == FeedsAfter(live.feeds, targets, built)
    requires forall code :: code in affectedC <==>
      TouchesCountry(live.feeds, built, Changed(live.feeds, targets, built), code)
    requires forall asn :: asn in affectedA <==> TouchesAsn(live.feeds, built, Changed(live.feeds, targets, built), asn)
    requires DetailsStaged(batch, affectedC, affectedA, countries, asns, {}, {})
    requires DetailsFor(WalkOf(FeedsAfter(live.feeds, targets, built), names, urls), affectedC, affectedA, countries,
      asns)
    ensures TouchedRebuilt(live, targets, built, urls, names, Published(live, batch))
  {
    hide WalkOf, CountryDetail, AsnDetail, FeedsAfter, Changed, TouchesCountry, TouchesAsn;
    forall code {
      PublishedLookup(live.countries, countries, affectedC, {}, code);
    }
    forall asn {
      PublishedLookup(live.asns, asns, affectedA, {}, asn);
    }
  }

  lemma FeedsPublished(live: Store, targets: set<string>, built: map<string, Sidecar>, batch: Batch)
    requires built.Keys <= targets && FeedsStaged(batch, live.feeds, targets, built)
    ensures Published(live, batch).feeds == FeedsAfter(live.feeds, targets, built)
  {
    var after, expected := Published(live, batch).feeds, FeedsAfter(live.feeds, targets, built);
    forall n ensures Lookup(after, n) == Lookup(expected, n) {}
    SameLookups(after, expected);
  }

  lemma MergedIsAfter(feeds: map<string, Sidecar>, targets: set<string>, built: map<string, Sidecar>,
                      replacements: map<string, Option<Sidecar>>)
    requires built.Keys <= targets
    requires replacements == map n | n in Changed(feeds, targets, built) :: Lookup(built, n)
    ensures Replaced(feeds, replacements) == FeedsAfter(feeds, targets, built)
  {
    var merged, expected := Replaced(feeds, replacements), FeedsAfter(feeds, targets, built);
    forall n ensures Lookup(merged, n) == Lookup(expected, n) {}
    SameLookups(merged, expected);
  }

  lemma SameLookups<K(!new), V>(a: map<K, V>, b: map<K, V>)
    requires forall k :: Lookup(a, k) == Lookup(b, k)
    ensures a == b
  {
    forall k ensures k in a <==> k in b ensures k in a ==> a[k] == b[k] {
      assert Lookup(a, k) == Lookup(b, k);
    }
  }

  /** A full `writeEntityArtifacts`, from the built sidecars on. */
  method WriteFull(live: Store, countryFiles: seq<string>, asnFiles: seq<string>, targetFeeds: seq<string>,
                   ghost targets: set<string>, urls: Urls, built: map<string, Sidecar>)
    returns (batch: Batch)
    requires SetOf(targetFeeds, targets) && built.Keys <= targets
    requires forall n :: n in built ==> Regular(built[n])
    requires DetailFiles(live, countryFiles, asnFiles)
    ensures StagesFull(batch, live, targets, built, urls)
  {
    hide Listing, WalkOf, CountryDetail, AsnDetail, StagesFull, StaleCodes, StaleNumbers, DetailFiles;
    var s := new EntityArtifactWriteState(live, true, targetFeeds, urls, built);
    s.StageFullFeedSidecars();
    ghost var affectedC, affectedA := s.affectedCountries, s.affectedAsns;
    StaleDetails(live, countryFiles, asnFiles, affectedC, affectedA);
    s.MarkStaleDetailDeletes(countryFiles, asnFiles);
    ghost var staleC, staleA := s.batch.deletedCountries, s.batch.deletedAsns;
    var walk := WalkDir(s.batch.feeds, urls);
    ghost var names := ListingExists(ByPath, built.Keys);
    WalkRegular(built, names, urls);
    var countries, asns := BuildAffected(Mode(true, s.affectedCountries, s.affectedAsns), walk);
    s.StageDetails(countries, asns);
    batch := s.batch;
    FullBatch(live, targets, built, urls, names, affectedC, affectedA, countries, asns, staleC, staleA, batch);
  }

  lemma FullBatch(found: Store, targets: set<string>, built: map<string, Sidecar>, urls: Urls, names: seq<string>,
                  affectedC: set<string>, affectedA: set<Asn>, countries: CountryMap, asns: AsnMap,
                  staleC: set<string>, staleA: set<Asn>, batch: Batch)
    requires built.Keys <= targets
    requires batch.feeds == built && batch.deletedFeeds == found.feeds.Keys - built.Keys
    requires Listing(ByPath, names, built.Keys)
    requires forall code :: code in affectedC <==> exists n :: n in built && code in Codes(built[n])
    requires forall asn :: asn in affectedA <==> exists n :: n in built && asn in Numbers(built[n])
    requires staleC !! affectedC && staleA !! affectedA
    requires found.countries.Keys - affectedC <= staleC && found.asns.Keys - affectedA <= staleA
    requires DetailsStaged(batch, affectedC, affectedA, countries, asns, staleC, staleA)
    requires DetailsFor(WalkOf(built, names, urls), affectedC, affectedA, countries, asns)
    ensures StagesFull(batch, found, targets, built, urls)
  {
    hide Listing, DetailsFor, DetailsStaged, Codes, Numbers, ConsistentAlong, Published, Covers;
    FullFeeds(found, targets, built, batch);
    FullCovers(found, built, affectedC, affectedA, countries, asns, staleC, staleA, batch);
    FullDetails(found, built, urls, names, affectedC, affectedA, countries, asns, staleC, staleA, batch);
  }

  lemma FullFeeds(found: Store, targets: set<string>, built: map<string, Sidecar>, batch: Batch)
    requires built.Keys <= targets && batch.feeds == built && batch.deletedFeeds == found.feeds.Keys - built.Keys
    ensures Published(found, batch).feeds == built == FeedsAfter(map[], targets, built)
  {}

  lemma FullCovers(found: Store, built: map<string, Sidecar>, affectedC: set<string>, affectedA: set<Asn>,
                   countries: CountryMap, asns: AsnMap, staleC: set<string>, staleA: set<Asn>, batch: Batch)
    requires batch.feeds == built && batch.deletedFeeds == found.feeds.Keys - built.Keys
    requires found.countries.Keys - affectedC <= staleC && found.asns.Keys - affectedA <= staleA
    requires DetailsStaged(batch, affectedC, affectedA, countries, asns, staleC, staleA)
    ensures Covers(batch, found)
  {}

  lemma FullDetails(live: Store, built: map<string, Sidecar>, urls: Urls, names: seq<string>,
                    affectedC: set<string>, affectedA: set<Asn>, countries: CountryMap, asns: AsnMap,
                    staleC: set<string>, staleA: set<Asn>, batch: Batch)
    requires Published(live, batch).feeds == built
    requires forall code :: code in affectedC <==> exists n :: n in built && code in Codes(built[n])
    requires forall asn :: asn in affectedA <==> exists n :: n in built && asn in Numbers(built[n])
    requires staleC !! affectedC && staleA !! affectedA
    requires live.countries.Keys - affectedC <= staleC && live.asns.Keys - affectedA <= staleA
    requires DetailsStaged(batch, affectedC, affectedA, countries, asns, staleC, staleA)
    requires DetailsFor(WalkOf(built, names, urls), affectedC, affectedA, countries, asns)
    ensures ConsistentAlong(Published(live, batch), names, urls)
  {
    hide CountryDetail, AsnDetail, WalkOf, Codes, Numbers;
    var after := Published(live, batch);
    forall code ensures Lookup(after.countries, code) == CountryDetail(code, WalkOf(built, names, urls)) {
      FullCountry(live.countries, built, names, urls, affectedC, staleC, countries, code);
    }
    forall asn ensures Lookup(after.asns, asn) == AsnDetail(asn, WalkOf(built, names, urls)) {
      FullAsn(live.asns, built, names, urls, affectedA, staleA, asns, asn);
    }
  }

  lemma FullCountry(live: CountryMap, built: map<string, Sidecar>, names: seq<string>, urls: Urls,
                    affected: set<string>, stale: set<string>, details: CountryMap, code: string)
    requires code in affected <==> exists n :: n in built && code in Codes(built[n])
    requires code in affected ==> Lookup(details, code) == CountryDetail(code, WalkOf(built, names, urls))
    requires stale !! affected && live.Keys - affected <= stale
    ensures Lookup((live + Chosen(details, affected)) - (stale + (affected - details.Keys)), code)
            == CountryDetail(code, WalkOf(built, names, urls))
  {
    PublishedLookup(live, details, affected, stale, code);
    UnmentionedHasNoDetail(built, names, urls, code, 0);
  }

  lemma FullAsn(live: AsnMap, built: map<string, Sidecar>, names: seq<string>, urls: Urls,
                affected: set<Asn>, stale: set<Asn>, details: AsnMap, asn: Asn)
    requires asn in affected <==> exists n :: n in built && asn in Numbers(built[n])
    requires asn in affected ==> Lookup(details, asn) == AsnDetail(asn, WalkOf(built, names, urls))
    requires stale !! affected && live.Keys - affected <= stale
    ensures Lookup((live + Chosen(details, affected)) - (stale + (affected - details.Keys)), asn)
            == AsnDetail(asn, WalkOf(built, names, urls))
  {
    PublishedLookup(live, details, affected, stale, asn);
    UnmentionedHasNoDetail(built, names, urls, "", asn);
  }

  lemma {:induction false} WalkRegular(feeds: map<string, Sidecar>, names: seq<string>, urls: Urls)
    requires forall n :: n in feeds ==> Regular(feeds[n])
    ensures AllRegular(WalkOf(feeds, names, urls))
  {
    if names != [] { WalkRegular(feeds, names[..|names| - 1], urls); }
  }
}
