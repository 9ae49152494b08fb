/** Incremental, surgical and full entity writes published optimistically: the
    entity files stay the aggregate of the feed sidecars under any
    interleaving. */
module EntityPublish {
  import opened EntityDetail
  import opened EntityArtifacts
  import opened EntityWrite
  import opened EntitySurgical
  import opened EntityRepair
  import opened EntityTotals
  import opened Wrappers
  import P = OptimisticPublish

  datatype FileKey = FeedKey(name: string) | CountryKey(code: string) | AsnKey(asn: Asn)
  datatype File = FeedFile(sidecar: Sidecar) | CountryFile(country: CountryBuilder) | AsnFile(detail: AsnBuilder)

  type Live = map<FileKey, File>
  type Write = P.Write<FileKey, File>
  type Observation = P.Observation<FileKey, File>

  /** The entity directory that holds a store. */
  function Pack(s: Store): Live {
    (map n | n in s.feeds :: FeedKey(n) := FeedFile(s.feeds[n])) +
    (map c | c in s.countries :: CountryKey(c) := CountryFile(s.countries[c])) +
    (map a | a in s.asns :: AsnKey(a) := AsnFile(s.asns[a]))
  }

  lemma PackAt(s: Store, k: FileKey)
    ensures Lookup(Pack(s), k) ==
      match k
      case FeedKey(n) => if n in s.feeds then Some(FeedFile(s.feeds[n])) else None
      case CountryKey(c) => if c in s.countries then Some(CountryFile(s.countries[c])) else None
      case AsnKey(a) => if a in s.asns then Some(AsnFile(s.asns[a])) else None
  {}

  // ------------------------------------------------- publishing a batch by file

  function Staged(b: Batch): Live {
    Pack(Store(b.feeds, b.countries, b.asns))
  }

  function Deleted(b: Batch): set<FileKey> {
    (set n | n in b.deletedFeeds :: FeedKey(n)) + (set c | c in b.deletedCountries :: CountryKey(c)) +
    (set a | a in b.deletedAsns :: AsnKey(a))
  }

  ghost predicate Writes(ws: seq<Write>, k: FileKey) {
    exists i :: 0 <= i < |ws| && ws[i].key == k
  }

  ghost predicate Renames(ws: seq<Write>, files: Live) {
    && (forall i :: 0 <= i < |ws| ==> ws[i].key in files && ws[i].value == Some(files[ws[i].key]))
    && (forall k :: k in files ==> Writes(ws, k))
  }

  ghost predicate Deletes(ws: seq<Write>, gone: set<FileKey>) {
    && (forall i :: 0 <= i < |ws| ==> ws[i].key in gone && ws[i].value == None)
    && (forall k :: k in gone ==> Writes(ws, k))
  }

  /** `publishContext`: the staged files are renamed into place, then the marked
      ones deleted, each in some order. */
  ghost predicate WritesBatch(ws: seq<Write>, b: Batch) {
    exists n: nat :: n <= |ws| && Renames(ws[..n], Staged(b)) && Deletes(ws[n..], Deleted(b))
  }

  /** The writes of a batch, as publishing it carries them out. */
  method WritesOf(b: Batch) returns (ws: seq<Write>)
    ensures WritesBatch(ws, b)
  {
    var renames := ListWrites(Staged(b).Keys, Staged(b));
    var deletions := ListWrites(Deleted(b), map[]);
    ws := renames + deletions;
    assert ws[..|renames|] == renames && ws[|renames|..] == deletions;
  }

  /** One write a key: of its file if it has one, else a deletion. */
  method ListWrites(keys: set<FileKey>, files: Live) returns (ws: seq<Write>)
    ensures forall i :: 0 <= i < |ws| ==> ws[i].key in keys && ws[i].value == Lookup(files, ws[i].key)
    ensures forall k :: k in keys ==> Writes(ws, k)
  {
    ws := [];
    var todo := keys;
    while todo != {}
      invariant todo <= keys
      invariant forall i :: 0 <= i < |ws| ==> ws[i].key in keys && ws[i].value == Lookup(files, ws[i].key)
      invariant forall k :: k in keys && k !in todo ==> Writes(ws, k)
      decreases todo
    {
      var k :| k in todo;
      WritesMore(ws, P.Write(k, Lookup(files, k)));
      ws := ws + [P.Write(k, Lookup(files, k))];
      todo := todo - {k};
    }
  }

  lemma WritesMore(ws: seq<Write>, w: Write)
    ensures forall k :: Writes(ws, k) || w.key == k ==> Writes(ws + [w], k)
  {
    forall k | Writes(ws, k) || w.key == k ensures Writes(ws + [w], k) {
      if w.key == k {
        assert (ws + [w])[|ws|].key == k;
      } else {
        var i :| 0 <= i < |ws| && ws[i].key == k;
        assert (ws + [w])[i].key == k;
      }
    }
  }

  lemma {:induction false} AppliedAt(live: Live, ws: seq<Write>, k: FileKey)
    ensures Lookup(P.ApplyWrites(live, ws), k) == LastWrite(live, ws, k)
  {
    if ws != [] { AppliedAt(live, ws[..|ws| - 1], k); }
  }

  ghost function LastWrite(live: Live, ws: seq<Write>, k: FileKey): Option<File> {
    if ws == [] then Lookup(live, k)
    else if ws[|ws| - 1].key == k then ws[|ws| - 1].value
    else LastWrite(live, ws[..|ws| - 1], k)
  }

  lemma {:induction false} RenamedAt(live: Live, ws: seq<Write>, files: Live, k: FileKey)
    requires forall i :: 0 <= i < |ws| ==> ws[i].key in files && ws[i].value == Some(files[ws[i].key])
    ensures LastWrite(live, ws, k) ==
      if exists i :: 0 <= i < |ws| && ws[i].key == k then Some(files[k]) else Lookup(live, k)
  {
    if ws != [] {
      var init := ws[..|ws| - 1];
      RenamedAt(live, init, files, k);
      assert forall i :: 0 <= i < |init| ==> init[i] == ws[i];
    }
  }

  lemma {:induction false} DeletedAt(live: Live, ws: seq<Write>, n: nat, k: FileKey)
    requires n <= |ws| && forall i :: n <= i < |ws| ==> ws[i].value == None
    ensures LastWrite(live, ws, k) ==
      if exists i :: n <= i < |ws| && ws[i].key == k then None else LastWrite(live, ws[..n], k)
    decreases |ws|
  {
    if n == |ws| {
      assert ws[..n] == ws;
    } else {
      var init := ws[..|ws| - 1];
      DeletedAt(live, init, n, k);
      assert init[..n] == ws[..n] && forall i :: 0 <= i < |init| ==> init[i] == ws[i];
    }
  }

  lemma WrittenAt(live: Live, ws: seq<Write>, b: Batch, k: FileKey)
    requires WritesBatch(ws, b)
    ensures Lookup(P.ApplyWrites(live, ws), k) ==
      if k in Deleted(b) then None else if k in Staged(b) then Some(Staged(b)[k]) else Lookup(live, k)
  {
    hide Staged, Deleted, LastWrite, P.ApplyWrites;
    var n: nat :| n <= |ws| && Renames(ws[..n], Staged(b)) && Deletes(ws[n..], Deleted(b));
    AppliedAt(live, ws, k);
    DeletedBehind(live, ws, n, Deleted(b), k);
    RenamedAt(live, ws[..n], Staged(b), k);
  }

  lemma DeletedBehind(live: Live, ws: seq<Write>, n: nat, gone: set<FileKey>, k: FileKey)
    requires n <= |ws| && Deletes(ws[n..], gone)
    ensures LastWrite(live, ws, k) == if k in gone then None else LastWrite(live, ws[..n], k)
  {
    hide LastWrite;
    forall i | n <= i < |ws| ensures ws[i].value == None && ws[i].key in gone { assert ws[i] == ws[n..][i - n]; }
    if k in gone {
      assert Writes(ws[n..], k);
      var i :| 0 <= i < |ws| - n && ws[n..][i].key == k;
      assert ws[n + i].key == k;
    }
    DeletedAt(live, ws, n, k);
  }

  /** File by file, the batch does to the directory what it does to the store. */
  lemma BatchIsPublished(s: Store, ws: seq<Write>, b: Batch)
    requires WritesBatch(ws, b)
    ensures P.ApplyWrites(Pack(s), ws) == Pack(Published(s, b))
  {
    hide WritesBatch, Pack;
    forall k ensures Lookup(P.ApplyWrites(Pack(s), ws), k) == Lookup(Pack(Published(s, b)), k) {
      WrittenAt(Pack(s), ws, b, k);
      PackAt(s, k);
      PackAt(Published(s, b), k);
      PackAt(Store(b.feeds, b.countries, b.asns), k);
    }
    SameLookups(P.ApplyWrites(Pack(s), ws), Pack(Published(s, b)));
  }

  /** A batch that covers the files leaves nothing of their contents. */
  lemma CoveredIsPublished(live: Live, found: Store, ws: seq<Write>, b: Batch)
    requires WritesBatch(ws, b) && Covers(b, found) && live.Keys == Pack(found).Keys
    ensures P.ApplyWrites(live, ws) == Pack(Published(found, b))
  {
    hide WritesBatch, Pack;
    forall k ensures Lookup(P.ApplyWrites(live, ws), k) == Lookup(Pack(Published(found, b)), k) {
      WrittenAt(live, ws, b, k);
      PackAt(found, k);
      PackAt(Published(found, b), k);
      PackAt(Store(b.feeds, b.countries, b.asns), k);
    }
    SameLookups(P.ApplyWrites(live, ws), Pack(Published(found, b)));
  }

  // ------------------------------------------------------ what a mutator read

  ghost const FEEDS := iset k: FileKey | k.FeedKey?
  ghost const COUNTRIES := iset k: FileKey | k.CountryKey?
  ghost const ASNS := iset k: FileKey | k.AsnKey?

  /** The feed directory was listed and every sidecar in it read. */
  ghost predicate ReadFeeds(seen: seq<Observation>, feeds: map<string, Sidecar>) {
    && P.Listed(FEEDS, set n | n in feeds :: FeedKey(n)) in seen
    && forall n :: n in feeds ==> P.FileRead(FeedKey(n), Some(FeedFile(feeds[n]))) in seen
  }

  /** All three directories were listed. */
  ghost predicate ReadNames(seen: seq<Observation>, found: Store) {
    && P.Listed(FEEDS, set n | n in found.feeds :: FeedKey(n)) in seen
    && P.Listed(COUNTRIES, set c | c in found.countries :: CountryKey(c)) in seen
    && P.Listed(ASNS, set a | a in found.asns :: AsnKey(a)) in seen
  }

  /** Any store in which the reads are still true has the sidecars read. */
  lemma ReadsTellFeeds(seen: seq<Observation>, s: Store, feeds: map<string, Sidecar>)
    requires P.Agrees(seen, Pack(s)) && ReadFeeds(seen, feeds)
    ensures s.feeds == feeds
  {
    hide Pack;
    forall n ensures Lookup(s.feeds, n) == Lookup(feeds, n) {
      PackAt(s, FeedKey(n));
      assert FeedKey(n) in P.FilesIn(Pack(s), FEEDS) <==> n in feeds;
      if n in feeds {
        assert P.StillTrue(P.FileRead(FeedKey(n), Some(FeedFile(feeds[n]))), Pack(s));
      }
    }
    SameLookups(s.feeds, feeds);
  }

  /** The named details were read. */
  ghost predicate ReadDetails(seen: seq<Observation>, found: Store, countries: set<string>, asns: set<Asn>) {
    && (forall c :: c in countries ==> P.FileRead(CountryKey(c), P.ReadKey(Pack(found), CountryKey(c))) in seen)
    && (forall a :: a in asns ==> P.FileRead(AsnKey(a), P.ReadKey(Pack(found), AsnKey(a))) in seen)
  }

  lemma ReadsTellDetails(seen: seq<Observation>, s: Store, found: Store, countries: set<string>, asns: set<Asn>)
    requires P.Agrees(seen, Pack(s)) && ReadDetails(seen, found, countries, asns)
    ensures SameDetails(s, found, countries, asns)
  {
    hide Pack;
    forall c | c in countries ensures Lookup(s.countries, c) == Lookup(found.countries, c) {
      PackAt(s, CountryKey(c));
      PackAt(found, CountryKey(c));
      assert P.StillTrue(P.FileRead(CountryKey(c), P.ReadKey(Pack(found), CountryKey(c))), Pack(s));
    }
    forall a | a in asns ensures Lookup(s.asns, a) == Lookup(found.asns, a) {
      PackAt(s, AsnKey(a));
      PackAt(found, AsnKey(a));
      assert P.StillTrue(P.FileRead(AsnKey(a), P.ReadKey(Pack(found), AsnKey(a))), Pack(s));
    }
  }

  lemma ListingsTellNames(seen: seq<Observation>, live: Live, found: Store)
    requires P.Agrees(seen, live) && ReadNames(seen, found)
    ensures live.Keys == Pack(found).Keys
  {
    hide Pack;
    forall k ensures k in live <==> k in Pack(found) {
      PackAt(found, k);
      match k
      case FeedKey(n) => assert k in P.FilesIn(live, FEEDS) <==> n in found.feeds;
      case CountryKey(c) => assert k in P.FilesIn(live, COUNTRIES) <==> c in found.countries;
      case AsnKey(a) => assert k in P.FilesIn(live, ASNS) <==> a in found.asns;
    }
  }

  // ------------------------------------------------------------ kinds of plans

  /** The directory holds some feed sidecars, as the daemon builds them, and
      exactly the details aggregated from them. */
  ghost predicate Aggregated(live: Live, urls: Urls) {
    exists s :: live == Pack(s) && Consistent(ByPath, s, urls) && AllOneRowEach(s.feeds)
  }

  ghost predicate Buildable(feeds: map<string, Sidecar>, targets: set<string>, built: map<string, Sidecar>) {
    AllOneRowEach(built) && OrdersAgree(FeedsAfter(feeds, targets, built).Keys)
  }

  ghost predicate IncrementalPlan(e: P.Entry<FileKey, File>, urls: Urls, feeds: map<string, Sidecar>,
                                  targets: set<string>, built: map<string, Sidecar>, batch: Batch) {
    && ReadFeeds(e.seen, feeds) && Buildable(feeds, targets, built)
    && StagesIncrement(batch, feeds, targets, built, urls) && WritesBatch(e.plan.writes, batch)
  }

  ghost predicate SurgicalPlan(e: P.Entry<FileKey, File>, urls: Urls, feeds: map<string, Sidecar>,
                               targets: set<string>, pending: map<string, Sidecar>, batch: Batch) {
    && ReadFeeds(e.seen, feeds) && Buildable(feeds, targets, pending)
    && StagesSurgical(batch, feeds, targets, pending, urls) && WritesBatch(e.plan.writes, batch)
  }

  ghost predicate FullPlan(e: P.Entry<FileKey, File>, urls: Urls, found: Store,
                           targets: set<string>, built: map<string, Sidecar>, batch: Batch) {
    && ReadNames(e.seen, found) && AllOneRowEach(built)
    && StagesFull(batch, found, targets, built, urls) && WritesBatch(e.plan.writes, batch)
  }

  ghost predicate RepairPlan(e: P.Entry<FileKey, File>, urls: Urls, found: Store, countries: set<string>,
                             asns: set<Asn>, batch: Batch) {
    && ReadFeeds(e.seen, found.feeds) && ReadDetails(e.seen, found, countries, asns)
    && StagesRepair(batch, found, countries, asns, urls) && WritesBatch(e.plan.writes, batch)
  }

  /** The plan publishes what an incremental run staged from its reads. */
  ghost predicate StagedIncrementally(e: P.Entry<FileKey, File>, urls: Urls) {
    exists feeds, targets, built, batch :: IncrementalPlan(e, urls, feeds, targets, built, batch)
  }

  ghost predicate StagedSurgically(e: P.Entry<FileKey, File>, urls: Urls) {
    exists feeds, targets, pending, batch :: SurgicalPlan(e, urls, feeds, targets, pending, batch)
  }

  ghost predicate StagedRepair(e: P.Entry<FileKey, File>, urls: Urls) {
    exists found, countries, asns, batch :: RepairPlan(e, urls, found, countries, asns, batch)
  }

  ghost predicate StagedFully(e: P.Entry<FileKey, File>, urls: Urls) {
    exists found, targets, built, batch :: FullPlan(e, urls, found, targets, built, batch)
  }

  lemma IncrementalKeeps(e: P.Entry<FileKey, File>, urls: Urls)
    requires StagedIncrementally(e, urls)
    ensures P.Keeps(e, live => Aggregated(live, urls))
  {
    hide ReadFeeds, StagesIncrement, WritesBatch, Pack, OrdersAgree, IncrementalWrite, Consistent;
    var feeds, targets, built, batch :| IncrementalPlan(e, urls, feeds, targets, built, batch);
    forall live | P.Agrees(e.seen, live) && Aggregated(live, urls)
      ensures Aggregated(P.ApplyWrites(live, e.plan.writes), urls)
    {
      var s :| live == Pack(s) && Consistent(ByPath, s, urls) && AllOneRowEach(s.feeds);
      ReadsTellFeeds(e.seen, s, feeds);
      BatchIsPublished(s, e.plan.writes, batch);
      IncrementPublished(s, urls, targets, built, batch);
    }
  }

  lemma IncrementPublished(s: Store, urls: Urls, targets: set<string>, built: map<string, Sidecar>, batch: Batch)
    requires Consistent(ByPath, s, urls) && AllOneRowEach(s.feeds) && Buildable(s.feeds, targets, built)
    requires StagesIncrement(batch, s.feeds, targets, built, urls)
    ensures Consistent(ByPath, Published(s, batch), urls) && AllOneRowEach(Published(s, batch).feeds)
  {
    hide Published, OneRowEach, Consistent;
    IncrementalKeepsConsistent(s, targets, built, urls, Published(s, batch));
  }

  lemma SurgicalKeeps(e: P.Entry<FileKey, File>, urls: Urls)
    requires StagedSurgically(e, urls)
    ensures P.Keeps(e, live => Aggregated(live, urls))
  {
    hide ReadFeeds, WritesBatch, Pack, OrdersAgree, SurgicalWrite, Consistent, Published;
    var feeds, targets, pending, batch :| SurgicalPlan(e, urls, feeds, targets, pending, batch);
    forall live | P.Agrees(e.seen, live) && Aggregated(live, urls)
      ensures Aggregated(P.ApplyWrites(live, e.plan.writes), urls)
    {
      var s :| live == Pack(s) && Consistent(ByPath, s, urls) && AllOneRowEach(s.feeds);
      ReadsTellFeeds(e.seen, s, feeds);
      BatchIsPublished(s, e.plan.writes, batch);
      PatchPublished(s, urls, targets, pending, batch);
    }
  }

  lemma PatchPublished(s: Store, urls: Urls, targets: set<string>, pending: map<string, Sidecar>, batch: Batch)
    requires Consistent(ByPath, s, urls) && AllOneRowEach(s.feeds) && Buildable(s.feeds, targets, pending)
    requires StagesSurgical(batch, s.feeds, targets, pending, urls)
    ensures Consistent(ByPath, Published(s, batch), urls) && AllOneRowEach(Published(s, batch).feeds)
  {
    hide Published, OneRowEach, Consistent;
    assert Published(s, batch).feeds == FeedsAfter(s.feeds, targets, pending);
    SurgicalKeepsConsistent(s, targets, pending, urls, Published(s, batch));
  }

  lemma RepairApplied(e: P.Entry<FileKey, File>, urls: Urls, found: Store, countries: set<string>, asns: set<Asn>,
                      batch: Batch, s: Store)
    requires RepairPlan(e, urls, found, countries, asns, batch) && P.Agrees(e.seen, Pack(s))
    ensures P.ApplyWrites(Pack(s), e.plan.writes) == Pack(Published(s, batch))
    ensures RepairWrite(s, countries, asns, urls, Published(s, batch))
  {
    hide ReadFeeds, ReadDetails, WritesBatch, Pack, RepairWrite, Published, SameDetails;
    ReadsTellFeeds(e.seen, s, found.feeds);
    ReadsTellDetails(e.seen, s, found, countries, asns);
    BatchIsPublished(s, e.plan.writes, batch);
  }

  lemma RepairKeeps(e: P.Entry<FileKey, File>, urls: Urls)
    requires StagedRepair(e, urls)
    ensures P.Keeps(e, live => Aggregated(live, urls))
  {
    hide RepairPlan, Pack, Consistent, Published, OneRowEach;
    var found, countries, asns, batch :| RepairPlan(e, urls, found, countries, asns, batch);
    forall live | P.Agrees(e.seen, live) && Aggregated(live, urls)
      ensures Aggregated(P.ApplyWrites(live, e.plan.writes), urls)
    {
      var s :| live == Pack(s) && Consistent(ByPath, s, urls) && AllOneRowEach(s.feeds);
      RepairApplied(e, urls, found, countries, asns, batch, s);
      RepairKeepsConsistent(s, countries, asns, urls, Published(s, batch));
    }
  }

  /** The plan repairs every entity that has a detail, or is mentioned by a
      sidecar, in the files it is published over. */
  ghost predicate RepairsAll(e: P.Entry<FileKey, File>, urls: Urls, live: Live) {
    exists s, countries, asns, batch ::
      && live == Pack(s) && AllOneRowEach(s.feeds) && NamesAll(s, countries, asns)
      && RepairPlan(e, urls, s, countries, asns, batch)
  }

  lemma RepairOfAllEstablishes(e: P.Entry<FileKey, File>, urls: Urls, live: Live)
    requires RepairsAll(e, urls, live) && P.Agrees(e.seen, live)
    ensures Aggregated(P.ApplyWrites(live, e.plan.writes), urls)
  {
    hide RepairPlan, Pack, Consistent, Published, OneRowEach, NamesAll;
    var s, countries, asns, batch :| live == Pack(s) && AllOneRowEach(s.feeds) && NamesAll(s, countries, asns)
      && RepairPlan(e, urls, s, countries, asns, batch);
    RepairApplied(e, urls, s, countries, asns, batch, s);
    RepairOfEverything(s, countries, asns, urls, Published(s, batch));
  }

  /** A full plan needs nothing but the names of the files it found. */
  lemma FullEstablishes(e: P.Entry<FileKey, File>, urls: Urls)
    requires StagedFully(e, urls)
    ensures P.Establishes(e, live => Aggregated(live, urls))
    ensures P.Keeps(e, live => Aggregated(live, urls))
  {
    hide ReadNames, WritesBatch, Pack, OneRowEach, Consistent, Covers, Published;
    var found, targets, built, batch :| FullPlan(e, urls, found, targets, built, batch);
    forall live | P.Agrees(e.seen, live) ensures Aggregated(P.ApplyWrites(live, e.plan.writes), urls) {
      ListingsTellNames(e.seen, live, found);
      CoveredIsPublished(live, found, e.plan.writes, batch);
    }
  }

  // ---------------------------------------------------- staging such plans

  /** The reads of a mutator that looks at everything. */
  lemma EverythingRead(live: Store)
    ensures exists seen :: P.Agrees(seen, Pack(live)) && ReadFeeds(seen, live.feeds) && ReadNames(seen, live)
  {
    hide Pack;
    var s := Pack(live);
    Directories(live);
    var listings := [P.Listed(FEEDS, P.FilesIn(s, FEEDS)), P.Listed(COUNTRIES, P.FilesIn(s, COUNTRIES)),
                     P.Listed(ASNS, P.FilesIn(s, ASNS))];
    var sidecars := SidecarsRead(live, live.feeds.Keys);
    var seen := listings + sidecars;
    assert listings[0] in seen && listings[1] in seen && listings[2] in seen;
    assert P.Agrees(seen, s) && ReadFeeds(seen, live.feeds) && ReadNames(seen, live);
  }

  lemma Directories(s: Store)
    ensures P.FilesIn(Pack(s), FEEDS) == set n | n in s.feeds :: FeedKey(n)
    ensures P.FilesIn(Pack(s), COUNTRIES) == set c | c in s.countries :: CountryKey(c)
    ensures P.FilesIn(Pack(s), ASNS) == set a | a in s.asns :: AsnKey(a)
  {
    hide Pack;
    forall k ensures k in Pack(s) <==>
      match k
      case FeedKey(n) => n in s.feeds
      case CountryKey(c) => c in s.countries
      case AsnKey(a) => a in s.asns
    {
      PackAt(s, k);
    }
  }

  lemma {:induction false} SidecarsRead(live: Store, names: set<string>) returns (seen: seq<Observation>)
    requires names <= live.feeds.Keys
    ensures P.Agrees(seen, Pack(live))
    ensures forall n :: n in names ==> P.FileRead(FeedKey(n), Some(FeedFile(live.feeds[n]))) in seen
  {
    if names == {} {
      seen := [];
    } else {
      var n :| n in names;
      PackAt(live, FeedKey(n));
      var rest := SidecarsRead(live, names - {n});
      seen := rest + [P.FileRead(FeedKey(n), Some(FeedFile(live.feeds[n])))];
    }
  }

  /** An incremental run, from its reads to the writes it publishes. */
  method PlanIncrement(live: Store, targetFeeds: seq<string>, ghost targets: set<string>, urls: Urls,
                       built: map<string, Sidecar>)
    returns (ws: seq<Write>, ghost seen: seq<Observation>)
    requires SetOf(targetFeeds, targets) && built.Keys <= targets && Buildable(live.feeds, targets, built)
    ensures exists batch :: StagesIncrement(batch, live.feeds, targets, built, urls) && WritesBatch(ws, batch)
    ensures P.Agrees(seen, Pack(live))
    ensures forall mutates, applied :: StagedIncrementally(P.Entry(seen, P.Plan(ws, mutates), applied), urls)
  {
    hide Pack, ReadFeeds, ReadNames, StagesIncrement, WritesBatch, Buildable;
    var batch := WriteIncremental(live, targetFeeds, targets, urls, built);
    ws := WritesOf(batch);
    EverythingRead(live);
    seen :| P.Agrees(seen, Pack(live)) && ReadFeeds(seen, live.feeds) && ReadNames(seen, live);
    forall mutates, applied ensures StagedIncrementally(P.Entry(seen, P.Plan(ws, mutates), applied), urls) {
      assert IncrementalPlan(P.Entry(seen, P.Plan(ws, mutates), applied), urls, live.feeds, targets, built, batch);
    }
  }

  /** A surgical refresh likewise, unless it calls for a full rebuild. */
  method PlanRefresh(live: Store, pending: map<string, Sidecar>, targetFeeds: seq<string>, ghost targets: set<string>,
                     suspected: set<string>, unusable: set<string>, urls: Urls)
    returns (ws: Option<seq<Write>>, ghost seen: seq<Observation>)
    requires SetOf(targetFeeds, targets) && Buildable(live.feeds, targets, pending)
    ensures ws.None? <==> exists n :: n in targets && CallsForRebuild(live.feeds, suspected, unusable, n)
    ensures P.Agrees(seen, Pack(live))
    ensures ws.Some? ==>
      forall mutates, applied :: StagedSurgically(P.Entry(seen, P.Plan(ws.value, mutates), applied), urls)
  {
    hide Pack, ReadFeeds, ReadNames, StagesSurgical, WritesBatch, Buildable;
    EverythingRead(live);
    seen :| P.Agrees(seen, Pack(live)) && ReadFeeds(seen, live.feeds) && ReadNames(seen, live);
    var batch := RefreshSurgically(live, pending, targetFeeds, targets, suspected, unusable, urls);
    if batch.None? {
      return None, seen;
    }
    var writes := WritesOf(batch.value);
    ws := Some(writes);
    forall mutates, applied ensures StagedSurgically(P.Entry(seen, P.Plan(writes, mutates), applied), urls) {
      assert SurgicalPlan(
        P.Entry(seen, P.Plan(writes, mutates), applied), urls, live.feeds, targets, pending, batch.value);
    }
  }

  /** A full run likewise. */
  method PlanRebuild(live: Store, countryFiles: seq<string>, asnFiles: seq<string>, targetFeeds: seq<string>,
                     ghost targets: set<string>, urls: Urls, built: map<string, Sidecar>)
    returns (ws: seq<Write>, ghost seen: seq<Observation>)
    requires SetOf(targetFeeds, targets) && built.Keys <= targets && AllOneRowEach(built)
    requires DetailFiles(live, countryFiles, asnFiles)
    ensures exists batch :: StagesFull(batch, live, targets, built, urls) && WritesBatch(ws, batch)
    ensures P.Agrees(seen, Pack(live))
    ensures forall mutates, applied :: StagedFully(P.Entry(seen, P.Plan(ws, mutates), applied), urls)
  {
    hide Pack, ReadFeeds, ReadNames, StagesFull, WritesBatch, DetailFiles;
    OneRowIsRegular(built);
    var batch := WriteFull(live, countryFiles, asnFiles, targetFeeds, targets, urls, built);
    ws := WritesOf(batch);
    EverythingRead(live);
    seen :| P.Agrees(seen, Pack(live)) && ReadFeeds(seen, live.feeds) && ReadNames(seen, live);
    forall mutates, applied ensures StagedFully(P.Entry(seen, P.Plan(ws, mutates), applied), urls) {
      assert FullPlan(P.Entry(seen, P.Plan(ws, mutates), applied), urls, live, targets, built, batch);
    }
  }

  /** A repair of selected details likewise. */
  method PlanRepair(live: Store, countries: set<string>, asns: set<Asn>, publicCountries: set<string>,
                    publicAsns: set<Asn>, urls: Urls)
    returns (ws: seq<Write>, ghost seen: seq<Observation>)
    ensures exists batch :: StagesRepair(batch, live, countries, asns, urls) && WritesBatch(ws, batch)
    ensures P.Agrees(seen, Pack(live))
    ensures forall mutates, applied :: StagedRepair(P.Entry(seen, P.Plan(ws, mutates), applied), urls)
  {
    hide Pack, ReadFeeds, ReadNames, ReadDetails, StagesRepair, WritesBatch;
    var batch := RepairSelected(live, countries, asns, publicCountries, publicAsns, urls);
    ws := WritesOf(batch);
    EverythingRead(live);
    ghost var all :| P.Agrees(all, Pack(live)) && ReadFeeds(all, live.feeds) && ReadNames(all, live);
    ghost var details := DetailsRead(live, countries, asns);
    seen := all + details;
    MoreReads(live, all, details, countries, asns);
    forall mutates, applied ensures StagedRepair(P.Entry(seen, P.Plan(ws, mutates), applied), urls) {
      assert RepairPlan(P.Entry(seen, P.Plan(ws, mutates), applied), urls, live, countries, asns, batch);
    }
  }

  lemma MoreReads(live: Store, all: seq<Observation>, details: seq<Observation>, countries: set<string>, asns: set<Asn>)
    requires P.Agrees(all, Pack(live)) && ReadFeeds(all, live.feeds)
    requires P.Agrees(details, Pack(live)) && ReadDetails(details, live, countries, asns)
    ensures P.Agrees(all + details, Pack(live)) && ReadFeeds(all + details, live.feeds)
    ensures ReadDetails(all + details, live, countries, asns)
  {
    hide Pack;
  }

  lemma {:induction false} DetailsRead(live: Store, countries: set<string>, asns: set<Asn>)
    returns (seen: seq<Observation>)
    ensures P.Agrees(seen, Pack(live)) && ReadDetails(seen, live, countries, asns)
    decreases |countries| + |asns|
  {
    hide Pack;
    if c :| c in countries {
      seen := DetailsRead(live, countries - {c}, asns);
      seen := seen + [P.FileRead(CountryKey(c), P.ReadKey(Pack(live), CountryKey(c)))];
    } else if a :| a in asns {
      seen := DetailsRead(live, countries, asns - {a});
      seen := seen + [P.FileRead(AsnKey(a), P.ReadKey(Pack(live), AsnKey(a)))];
    } else {
      seen := [];
    }
  }

  lemma OneRowIsRegular(feeds: map<string, Sidecar>)
    requires AllOneRowEach(feeds)
    ensures forall n :: n in feeds ==> Regular(feeds[n])
  {}

  // -------------------------------------------------------------- all together

  ghost predicate KnownKind(e: P.Entry<FileKey, File>, urls: Urls) {
    || StagedIncrementally(e, urls) || StagedSurgically(e, urls) || StagedFully(e, urls) || StagedRepair(e, urls)
    || e.plan.writes == []
  }

  lemma KnownKindKeeps(e: P.Entry<FileKey, File>, urls: Urls)
    requires KnownKind(e, urls)
    ensures P.Keeps(e, live => Aggregated(live, urls))
  {
    hide StagedIncrementally, StagedSurgically, StagedFully, StagedRepair, Aggregated;
    if StagedIncrementally(e, urls) {
      IncrementalKeeps(e, urls);
    } else if StagedSurgically(e, urls) {
      SurgicalKeeps(e, urls);
    } else if StagedFully(e, urls) {
      FullEstablishes(e, urls);
    } else if StagedRepair(e, urls) {
      RepairKeeps(e, urls);
    }
  }

  /** From here on the details are right: the start is aggregated, or the
      publication before was complete and wrote everything, or repaired
      everything. */
  ghost predicate AggregatedFrom(start: Live, log: seq<P.Entry<FileKey, File>>, from: nat, urls: Urls)
    requires from <= |log|
  {
    if from == 0 then Aggregated(start, urls)
    else
      var e := log[from - 1];
      P.Complete(e) && (StagedFully(e, urls) || RepairsAll(e, urls, P.Replay(start, log[..from - 1])))
  }

  lemma FromThereAggregated(start: Live, log: seq<P.Entry<FileKey, File>>, from: nat, urls: Urls)
    requires P.Sequential(start, log) && from <= |log| && AggregatedFrom(start, log, from, urls)
    ensures Aggregated(P.Replay(start, log[..from]), urls)
  {
    hide Aggregated, StagedFully, RepairsAll;
    if from > 0 {
      assert log[..from][..from - 1] == log[..from - 1];
      if StagedFully(log[from - 1], urls) {
        FullEstablishes(log[from - 1], urls);
        P.GoodAfterEstablishing(start, log, from - 1, live => Aggregated(live, urls));
      } else {
        RepairOfAllEstablishes(log[from - 1], urls, P.Replay(start, log[..from - 1]));
      }
    }
  }

  /** In every interleaving of mutators, between leases the details are the
      aggregate of the feeds: from an aggregated start, or from the last complete
      full write or repair of everything on, as long as the publications since
      then are of these kinds and none was cut short. */
  lemma DetailsFollowFeeds(states: seq<P.System<FileKey, File>>, actions: seq<P.Action<FileKey, File>>,
                           k: nat, from: nat, urls: Urls)
    requires P.Execution(states, actions) && k < |states| && states[k].holder.None?
    requires from <= |states[k].log| && AggregatedFrom(states[0].live, states[k].log, from, urls)
    requires forall i :: from <= i < |states[k].log| ==>
      P.Complete(states[k].log[i]) && KnownKind(states[k].log[i], urls)
    ensures Aggregated(states[k].live, urls)
  {
    hide Aggregated, KnownKind, AggregatedFrom;
    var log := states[k].log;
    P.Serializable(states, actions, k);
    FromThereAggregated(states[0].live, log, from, urls);
    forall i | from <= i < |log| ensures P.Complete(log[i]) && P.Keeps(log[i], live => Aggregated(live, urls)) {
      KnownKindKeeps(log[i], urls);
    }
    P.GoodAfterCommits(states[0].live, log, from, live => Aggregated(live, urls));
  }

  /** And then this is what the files say: which entities have one, the feeds it
      lists, and its totals, all counted in the rows of the sidecars. */
  lemma FilesSayWhatFeedsSay(live: Live, urls: Urls)
    requires Aggregated(live, urls)
    ensures exists s, names ::
      && live == Pack(s) && Listing(ByPath, names, s.feeds.Keys)
      && FilesTell(s, WalkOf(s.feeds, names, urls))
  {
    hide Pack, Consistent, Listing, FilesTell, AllOneRowEach, WalkOf;
    var s :| live == Pack(s) && Consistent(ByPath, s, urls) && AllOneRowEach(s.feeds);
    ConsistentTells(ByPath, s, urls);
  }
}
