/** Writing entity artifacts (pkg/engine/entity_artifacts_write.go): an
    incremental run rebuilds the details its changed feeds touch, a full run
    rebuilds everything, and both are published as one batch. The walks over
    the sidecars are those of entity_feed_sidecar_stream.go. */
module EntityArtifacts {
  import opened Wrappers
  import opened Names
  import opened EntityDetail

  /** The private files: feed sidecars, country details, ASN details. */
  datatype Store = Store(feeds: map<string, Sidecar>, countries: CountryMap, asns: AsnMap)

  /** The catalog's maintainer URL of a feed, fixed while runs are compared. */
  type Urls = string -> string

  function Lookup<K, V>(m: map<K, V>, k: K): Option<V> {
    if k in m then Some(m[k]) else None
  }

  // ------------------------------------------------------------------ walks

  /** `walkMerged` sorts feed names; a directory walk sorts file paths. */
  datatype Order = ByName | ByPath

  function Path(name: string): string {
    name + ".json"
  }

  function Key(o: Order, n: string): string {
    if o == ByName then n else Path(n)
  }

  ghost predicate Ordered(o: Order, names: seq<string>) {
    forall i, j :: 0 <= i < j < |names| ==> Less(Key(o, names[i]), Key(o, names[j]))
  }

  ghost predicate Listing(o: Order, names: seq<string>, keys: set<string>) {
    Ordered(o, names) && forall n :: n in names <==> n in keys
  }

  /** The two orders can differ: '-' sorts before '.', so "a-b.json" precedes
      "a.json" although "a" precedes "a-b". */
  ghost predicate OrdersAgree(keys: set<string>) {
    forall a, b {:trigger a in keys, b in keys} :: a in keys && b in keys ==> (Leq(a, b) <==> Leq(Path(a), Path(b)))
  }

  function VisitOf(name: string, s: Sidecar, urls: Urls): Visit {
    Visit(s, urls(if s.info.feed != "" then s.info.feed else name))
  }

  /** The visits of a walk over `names`; absent feeds are skipped. */
  function WalkOf(feeds: map<string, Sidecar>, names: seq<string>, urls: Urls): seq<Visit> {
    if names == [] then []
    else
      var last := names[|names| - 1];
      WalkOf(feeds, names[..|names| - 1], urls) + if last in feeds then [VisitOf(last, feeds[last], urls)] else []
  }

  function Keep(names: seq<string>, keys: set<string>): seq<string> {
    if names == [] then []
    else Keep(names[..|names| - 1], keys) + if names[|names| - 1] in keys then [names[|names| - 1]] else []
  }

  lemma PathInjective(a: string, b: string)
    requires Path(a) == Path(b)
    ensures a == b
  {
    assert Path(a)[..|a|] == a && Path(b)[..|b|] == b;
  }

  lemma OrderedAppend(o: Order, names: seq<string>, n: string)
    requires Ordered(o, names) && forall i :: 0 <= i < |names| ==> Less(Key(o, names[i]), Key(o, n))
    ensures Ordered(o, names + [n])
  {}

  lemma {:induction false} KeepListing(o: Order, names: seq<string>, keys: set<string>)
    requires Ordered(o, names)
    ensures Ordered(o, Keep(names, keys))
    ensures forall n :: n in Keep(names, keys) <==> n in names && n in keys
  {
    hide Less, Key, Ordered;
    if names == [] {
      NothingOrdered(o);
    } else {
      var init, last := names[..|names| - 1], names[|names| - 1];
      assert names == init + [last];
      LastBehind(o, init, last);
      KeepListing(o, init, keys);
      var kept := Keep(init, keys);
      assert forall i :: 0 <= i < |kept| ==> kept[i] in kept;
      OrderedAppend(o, kept, last);
      assert kept + [] == kept;
    }
  }

  lemma NothingOrdered(o: Order)
    ensures Ordered(o, [])
  {}

  lemma LastBehind(o: Order, init: seq<string>, last: string)
    requires Ordered(o, init + [last])
    ensures Ordered(o, init) && forall n :: n in init ==> Less(Key(o, n), Key(o, last))
  {
    hide Less, Key;
    var names := init + [last];
    assert names[|init|] == last && forall i :: 0 <= i < |init| ==> names[i] == init[i];
  }

  lemma {:induction false} WalkKeeps(feeds: map<string, Sidecar>, names: seq<string>, urls: Urls)
    ensures WalkOf(feeds, names, urls) == WalkOf(feeds, Keep(names, feeds.Keys), urls)
  {
    if names != [] {
      var init, last := names[..|names| - 1], names[|names| - 1];
      WalkKeeps(feeds, init, urls);
      if last in feeds {
        var kept := Keep(init, feeds.Keys) + [last];
        assert kept[..|kept| - 1] == Keep(init, feeds.Keys);
      } else {
        assert Keep(names, feeds.Keys) == Keep(init, feeds.Keys);
      }
    }
  }

  function Paths(names: seq<string>): (paths: seq<string>)
    ensures |paths| == |names|
    ensures forall i :: 0 <= i < |names| ==> paths[i] == Path(names[i])
  {
    seq(|names|, i requires 0 <= i < |names| => Path(names[i]))
  }

  lemma ListingUnique(o: Order, a: seq<string>, b: seq<string>, keys: set<string>)
    requires Listing(o, a, keys) && Listing(o, b, keys)
    ensures a == b
  {
    if o == ByName {
      assert Increasing(a) by { assert forall i :: 0 <= i < |a| ==> Key(o, a[i]) == a[i]; }
      assert Increasing(b) by { assert forall i :: 0 <= i < |b| ==> Key(o, b[i]) == b[i]; }
      IncreasingUnique(a, b);
    } else {
      forall p ensures p in Paths(a) <==> p in Paths(b) {
        PathMembers(a, p);
        PathMembers(b, p);
      }
      assert Increasing(Paths(a)) by { assert forall i :: 0 <= i < |a| ==> Key(o, a[i]) == Paths(a)[i]; }
      assert Increasing(Paths(b)) by { assert forall i :: 0 <= i < |b| ==> Key(o, b[i]) == Paths(b)[i]; }
      IncreasingUnique(Paths(a), Paths(b));
      forall i | 0 <= i < |a| ensures a[i] == b[i] {
        assert Paths(a)[i] == Paths(b)[i];
        PathInjective(a[i], b[i]);
      }
    }
  }

  lemma PathMembers(names: seq<string>, p: string)
    ensures p in Paths(names) <==> exists n :: n in names && Path(n) == p
  {
    if p in Paths(names) {
      var i :| 0 <= i < |names| && Paths(names)[i] == p;
      assert names[i] in names && Path(names[i]) == p;
    }
    if n :| n in names && Path(n) == p {
      var i :| 0 <= i < |names| && names[i] == n;
      assert Paths(names)[i] == p;
    }
  }

  /** A walk over more names than there are feeds sees the same visits. */
  lemma WiderWalk(o: Order, feeds: map<string, Sidecar>, names: seq<string>, wider: seq<string>, urls: Urls)
    requires Listing(o, names, feeds.Keys) && Ordered(o, wider) && forall n :: n in feeds ==> n in wider
    ensures WalkOf(feeds, names, urls) == WalkOf(feeds, wider, urls)
  {
    KeepListing(o, wider, feeds.Keys);
    ListingUnique(o, names, Keep(wider, feeds.Keys), feeds.Keys);
    WalkKeeps(feeds, wider, urls);
  }

  lemma SameListing(names: seq<string>, paths: seq<string>, keys: set<string>)
    requires Listing(ByName, names, keys) && Listing(ByPath, paths, keys) && OrdersAgree(keys)
    ensures names == paths
  {
    forall i, j | 0 <= i < j < |paths| ensures Less(Key(ByName, paths[i]), Key(ByName, paths[j])) {
      assert Less(Key(ByPath, paths[i]), Key(ByPath, paths[j]));
      assert paths[i] in paths && paths[j] in paths;
    }
    ListingUnique(ByName, names, paths, keys);
  }

  // ----------------------------------------------------------- consistency

  /** The details are exactly those aggregated from the feed sidecars. */
  ghost predicate ConsistentAlong(s: Store, names: seq<string>, urls: Urls) {
    && (forall code :: Lookup(s.countries, code) == CountryDetail(code, WalkOf(s.feeds, names, urls)))
    && (forall asn :: Lookup(s.asns, asn) == AsnDetail(asn, WalkOf(s.feeds, names, urls)))
  }

  ghost predicate Consistent(o: Order, s: Store, urls: Urls) {
    exists names :: Listing(o, names, s.feeds.Keys) && ConsistentAlong(s, names, urls)
  }

  /** Feeds determine a consistent store. */
  lemma ConsistentUnique(o: Order, a: Store, b: Store, urls: Urls)
    requires Consistent(o, a, urls) && Consistent(o, b, urls) && a.feeds == b.feeds
    ensures a == b
  {
    var na :| Listing(o, na, a.feeds.Keys) && ConsistentAlong(a, na, urls);
    var nb :| Listing(o, nb, b.feeds.Keys) && ConsistentAlong(b, nb, urls);
    ListingUnique(o, na, nb, a.feeds.Keys);
    forall code ensures code in a.countries <==> code in b.countries
      ensures code in a.countries ==> a.countries[code] == b.countries[code]
    {
      assert Lookup(a.countries, code) == Lookup(b.countries, code);
    }
    forall asn ensures asn in a.asns <==> asn in b.asns
      ensures asn in a.asns ==> a.asns[asn] == b.asns[asn]
    {
      assert Lookup(a.asns, asn) == Lookup(b.asns, asn);
    }
    assert a.countries == b.countries && a.asns == b.asns;
  }

  // ---------------------------------------------------- what a write must do

  function Codes(s: Sidecar): set<string> {
    set i | 0 <= i < |s.countries| && s.countries[i].code != "" :: s.countries[i].code
  }

  function Numbers(s: Sidecar): set<Asn> {
    set i | 0 <= i < |s.asns| && s.asns[i].asn != 0 :: s.asns[i].asn
  }

  function CodesOf(s: Option<Sidecar>): set<string> {
    if s.Some? then Codes(s.value) else {}
  }

  function NumbersOf(s: Option<Sidecar>): set<Asn> {
    if s.Some? then Numbers(s.value) else {}
  }

  /** A rebuilt target takes its new sidecar, or goes away without one. */
  function FeedsAfter(feeds: map<string, Sidecar>, targets: set<string>, built: map<string, Sidecar>)
    : map<string, Sidecar>
  {
    (feeds - targets) + map n | n in built && n in targets :: built[n]
  }

  function Changed(feeds: map<string, Sidecar>, targets: set<string>, built: map<string, Sidecar>): set<string> {
    set n | n in targets && Lookup(feeds, n) != Lookup(built, n)
  }

  ghost predicate TouchesCountry(feeds: map<string, Sidecar>, built: map<string, Sidecar>, changed: set<string>,
                                 code: string) {
    exists n :: n in changed && (code in CodesOf(Lookup(feeds, n)) || code in CodesOf(Lookup(built, n)))
  }

  ghost predicate TouchesAsn(feeds: map<string, Sidecar>, built: map<string, Sidecar>, changed: set<string>, asn: Asn) {
    exists n :: n in changed && (asn in NumbersOf(Lookup(feeds, n)) || asn in NumbersOf(Lookup(built, n)))
  }

  ghost predicate TouchedRebuilt(before: Store, targets: set<string>, built: map<string, Sidecar>, urls: Urls,
                                 names: seq<string>, after: Store) {
    var changed := Changed(before.feeds, targets, built);
    && (forall code :: Lookup(after.countries, code) ==
          if TouchesCountry(before.feeds, built, changed, code)
          then CountryDetail(code, WalkOf(after.feeds, names, urls))
          else Lookup(before.countries, code))
    && (forall asn :: Lookup(after.asns, asn) ==
          if TouchesAsn(before.feeds, built, changed, asn) then AsnDetail(asn, WalkOf(after.feeds, names, urls))
          else Lookup(before.asns, asn))
  }

  /** An incremental write: touched details re-aggregated over the merged walk
      in name order, the others left as they were. */
  ghost predicate IncrementalWrite(before: Store, targets: set<string>, built: map<string, Sidecar>, urls: Urls,
                                   after: Store) {
    && after.feeds == FeedsAfter(before.feeds, targets, built)
    && exists names ::
      Listing(ByName, names, after.feeds.Keys) && TouchedRebuilt(before, targets, built, urls, names, after)
  }

  /** A full write: whatever was there, the new sidecars and their aggregate. */
  ghost predicate FullWrite(targets: set<string>, built: map<string, Sidecar>, urls: Urls, after: Store) {
    after.feeds == FeedsAfter(map[], targets, built) && Consistent(ByPath, after, urls)
  }

  // -------------------------------------------------- incremental equals full

  lemma UntouchedVisit(s: Option<Sidecar>, name: string, urls: Urls, cb: CountryBuilder, ab: AsnBuilder)
    ensures cb.code != "" && cb.code !in CodesOf(s) && s.Some? ==>
      CountryRows(cb, VisitOf(name, s.value, urls), s.value.countries) == cb
    ensures ab.asn != 0 && ab.asn !in NumbersOf(s) && s.Some? ==> AsnVisit(ab, VisitOf(name, s.value, urls)) == ab
  {
    if s.Some? {
      var v := VisitOf(name, s.value, urls);
      if cb.code != "" && cb.code !in Codes(s.value) {
        assert !MentionsCountry(s.value.countries, cb.code);
        CountryRowsEffect(cb, v, s.value.countries);
      }
      if ab.asn != 0 && ab.asn !in Numbers(s.value) {
        assert !ListsAsn(s.value.asns, ab.asn) && !MentionsAsn(s.value.asns, ab.asn);
        AsnFeedsEffect(ab, v, s.value.asns);
        AsnSharesEffect(ab, v, s.value.asns);
      }
    }
  }

  /** Two sets of sidecars that differ only in feeds not mentioning an entity
      give that entity the same detail, along any common list of names. */
  lemma {:induction false} UntouchedFold(
    f: map<string, Sidecar>, g: map<string, Sidecar>, names: seq<string>, urls: Urls, code: string, asn: Asn)
    ensures code != "" && (forall n :: n in names && Lookup(f, n) != Lookup(g, n) ==>
        code !in CodesOf(Lookup(f, n)) && code !in CodesOf(Lookup(g, n)))
      ==> CountryFold(code, WalkOf(f, names, urls)) == CountryFold(code, WalkOf(g, names, urls))
    ensures asn != 0 && (forall n :: n in names && Lookup(f, n) != Lookup(g, n) ==>
        asn !in NumbersOf(Lookup(f, n)) && asn !in NumbersOf(Lookup(g, n)))
      ==> AsnFold(asn, WalkOf(f, names, urls)) == AsnFold(asn, WalkOf(g, names, urls))
  {
    if names != [] {
      var init, last := names[..|names| - 1], names[|names| - 1];
      UntouchedFold(f, g, init, urls, code, asn);
      OneMoreVisit(f, init, last, urls, code, asn);
      OneMoreVisit(g, init, last, urls, code, asn);
      assert forall n :: n in init ==> n in names;
      assert last in names;
    }
  }

  lemma OneMoreVisit(f: map<string, Sidecar>, init: seq<string>, last: string, urls: Urls, code: string, asn: Asn)
    ensures
      var walk, wider := WalkOf(f, init, urls), WalkOf(f, init + [last], urls);
      && CountryFold(code, wider) ==
        (if last in f then CountryRows(CountryFold(code, walk), VisitOf(last, f[last], urls), f[last].countries)
         else CountryFold(code, walk))
      && AsnFold(asn, wider) ==
        (if last in f then AsnVisit(AsnFold(asn, walk), VisitOf(last, f[last], urls)) else AsnFold(asn, walk))
      && (code != "" && code !in CodesOf(Lookup(f, last)) ==> CountryFold(code, wider) == CountryFold(code, walk))
      && (asn != 0 && asn !in NumbersOf(Lookup(f, last)) ==> AsnFold(asn, wider) == AsnFold(asn, walk))
  {
    var walk, wider := WalkOf(f, init, urls), WalkOf(f, init + [last], urls);
    assert (init + [last])[..|init + [last]| - 1] == init;
    FoldsKeepNames(code, asn, walk);
    if last in f {
      assert wider[..|wider| - 1] == walk;
      UntouchedVisit(Some(f[last]), last, urls, CountryFold(code, walk), AsnFold(asn, walk));
    } else {
      assert wider == walk;
    }
  }

  lemma UntouchedDetail(o: Order, before: map<string, Sidecar>, targets: set<string>, built: map<string, Sidecar>,
                        names: seq<string>, newNames: seq<string>, union: seq<string>, urls: Urls, code: string,
                        asn: Asn)
    requires Listing(o, names, before.Keys) && Listing(o, newNames, FeedsAfter(before, targets, built).Keys)
    requires Ordered(o, union) && forall n :: n in before || n in built ==> n in union
    ensures
      var after, changed := FeedsAfter(before, targets, built), Changed(before, targets, built);
      && (!TouchesCountry(before, built, changed, code) ==>
            CountryDetail(code, WalkOf(before, names, urls)) == CountryDetail(code, WalkOf(after, newNames, urls)))
      && (!TouchesAsn(before, built, changed, asn) ==>
            AsnDetail(asn, WalkOf(before, names, urls)) == AsnDetail(asn, WalkOf(after, newNames, urls)))
  {
    hide WalkOf, Ordered, Listing, CountryFold, AsnFold, TouchesCountry, TouchesAsn;
    var after, changed := FeedsAfter(before, targets, built), Changed(before, targets, built);
    WiderWalk(o, before, names, union, urls);
    WiderWalk(o, after, newNames, union, urls);
    UntouchedFold(before, after, union, urls, code, asn);
    OnlyChangedDiffer(before, targets, built, code, asn);
  }

  lemma OnlyChangedDiffer(before: map<string, Sidecar>, targets: set<string>, built: map<string, Sidecar>,
                          code: string, asn: Asn)
    ensures
      var after, changed := FeedsAfter(before, targets, built), Changed(before, targets, built);
      forall n :: Lookup(before, n) != Lookup(after, n) ==>
        && (!TouchesCountry(before, built, changed, code) ==>
              code !in CodesOf(Lookup(before, n)) && code !in CodesOf(Lookup(after, n)))
        && (!TouchesAsn(before, built, changed, asn) ==>
              asn !in NumbersOf(Lookup(before, n)) && asn !in NumbersOf(Lookup(after, n)))
  {
    var after, changed := FeedsAfter(before, targets, built), Changed(before, targets, built);
    forall n | Lookup(before, n) != Lookup(after, n) ensures n in changed && Lookup(after, n) == Lookup(built, n) {}
  }

  /** Any finite set of names can be listed in either order. */
  lemma {:induction false} ListingExists(o: Order, keys: set<string>) returns (names: seq<string>)
    ensures Listing(o, names, keys)
  {
    if keys == {} {
      names := [];
    } else {
      var m := GreatestBy(o, keys);
      var rest := ListingExists(o, keys - {m});
      forall i | 0 <= i < |rest| ensures Less(Key(o, rest[i]), Key(o, m)) {
        assert rest[i] in rest;
        if o == ByPath && Path(rest[i]) == Path(m) { PathInjective(rest[i], m); }
      }
      names := rest + [m];
    }
  }

  lemma {:induction false} GreatestBy(o: Order, keys: set<string>) returns (m: string)
    requires keys != {}
    ensures m in keys && forall n :: n in keys ==> Leq(Key(o, n), Key(o, m))
  {
    m :| m in keys;
    LeqReflexive(Key(o, m));
    if keys != {m} {
      var g := GreatestBy(o, keys - {m});
      LeqReflexive(Key(o, g));
      LeqTotal(Key(o, g), Key(o, m));
      if Leq(Key(o, g), Key(o, m)) {
        forall n | n in keys ensures Leq(Key(o, n), Key(o, m)) {
          if n != m { LeqTransitive(Key(o, n), Key(o, g), Key(o, m)); }
        }
      } else {
        m := g;
      }
    }
  }

  lemma EntityAfter(before: Store, targets: set<string>, built: map<string, Sidecar>, urls: Urls, after: Store,
                    was: seq<string>, paths: seq<string>, union: seq<string>, code: string, asn: Asn)
    requires after.feeds == FeedsAfter(before.feeds, targets, built)
    requires Listing(ByPath, was, before.feeds.Keys) && ConsistentAlong(before, was, urls)
    requires Listing(ByPath, paths, after.feeds.Keys) && TouchedRebuilt(before, targets, built, urls, paths, after)
    requires Ordered(ByPath, union) && forall n :: n in before.feeds || n in built ==> n in union
    ensures Lookup(after.countries, code) == CountryDetail(code, WalkOf(after.feeds, paths, urls))
    ensures Lookup(after.asns, asn) == AsnDetail(asn, WalkOf(after.feeds, paths, urls))
  {
    UntouchedDetail(ByPath, before.feeds, targets, built, was, paths, union, urls, code, asn);
  }

  lemma EntitiesAfter(before: Store, targets: set<string>, built: map<string, Sidecar>, urls: Urls, after: Store,
                      was: seq<string>, paths: seq<string>)
    requires after.feeds == FeedsAfter(before.feeds, targets, built)
    requires Listing(ByPath, was, before.feeds.Keys) && ConsistentAlong(before, was, urls)
    requires Listing(ByPath, paths, after.feeds.Keys) && TouchedRebuilt(before, targets, built, urls, paths, after)
    ensures ConsistentAlong(after, paths, urls)
  {
    var union := ListingExists(ByPath, before.feeds.Keys + built.Keys);
    forall code ensures Lookup(after.countries, code) == CountryDetail(code, WalkOf(after.feeds, paths, urls)) {
      EntityAfter(before, targets, built, urls, after, was, paths, union, code, 0);
    }
    forall asn ensures Lookup(after.asns, asn) == AsnDetail(asn, WalkOf(after.feeds, paths, urls)) {
      EntityAfter(before, targets, built, urls, after, was, paths, union, "", asn);
    }
  }

  /** The core claim: over names on which the two walk orders agree, an
      incremental write of a consistent store leaves a consistent store, for
      every entity, touched, untouched or gone. */
  lemma IncrementalKeepsConsistent(before: Store, targets: set<string>, built: map<string, Sidecar>, urls: Urls,
                                   after: Store)
    requires Consistent(ByPath, before, urls) && IncrementalWrite(before, targets, built, urls, after)
    requires OrdersAgree(after.feeds.Keys)
    ensures Consistent(ByPath, after, urls)
  {
    var was :| Listing(ByPath, was, before.feeds.Keys) && ConsistentAlong(before, was, urls);
    var names :| Listing(ByName, names, after.feeds.Keys) && TouchedRebuilt(before, targets, built, urls, names, after);
    var paths := ListingExists(ByPath, after.feeds.Keys);
    SameListing(names, paths, after.feeds.Keys);
    EntitiesAfter(before, targets, built, urls, after, was, paths);
  }

  /** One write of either kind. */
  datatype Run = Run(full: bool, targets: set<string>, built: map<string, Sidecar>)

  ghost predicate Wrote(before: Store, r: Run, urls: Urls, after: Store) {
    if r.full then FullWrite(r.targets, r.built, urls, after)
    else IncrementalWrite(before, r.targets, r.built, urls, after)
  }

  /** After a write every target has its new sidecar, or none; an incremental
      write leaves the others as they were, a full one drops them. */
  lemma WritesReplaceTargets(before: Store, r: Run, urls: Urls, after: Store, n: string)
    requires Wrote(before, r, urls, after)
    ensures Lookup(after.feeds, n) ==
      if n in r.targets then Lookup(r.built, n) else if r.full then None else Lookup(before.feeds, n)
  {
    hide Consistent, TouchedRebuilt, Listing;
  }

  /** Any run of writes that begins consistent, or with a full write, ends
      where one full rebuild of the final sidecars would. */
  lemma {:induction false} RunsEndWhereFullWould(
    stores: seq<Store>, runs: seq<Run>, urls: Urls, rebuilt: Store)
    requires |stores| == |runs| + 1
    requires forall i :: 0 <= i < |runs| ==> Wrote(stores[i], runs[i], urls, stores[i + 1])
    requires forall i :: 0 <= i < |stores| ==> OrdersAgree(stores[i].feeds.Keys)
    requires Consistent(ByPath, stores[0], urls) || (|runs| > 0 && runs[0].full)
    requires FullWrite(rebuilt.feeds.Keys, stores[|runs|].feeds, urls, rebuilt) && rebuilt.feeds == stores[|runs|].feeds
    ensures stores[|runs|] == rebuilt
  {
    RunsKeepConsistent(stores, runs, urls);
    ConsistentUnique(ByPath, stores[|runs|], rebuilt, urls);
  }

  lemma {:induction false} RunsKeepConsistent(stores: seq<Store>, runs: seq<Run>, urls: Urls)
    requires |stores| == |runs| + 1
    requires forall i :: 0 <= i < |runs| ==> Wrote(stores[i], runs[i], urls, stores[i + 1])
    requires forall i :: 0 <= i < |stores| ==> OrdersAgree(stores[i].feeds.Keys)
    requires Consistent(ByPath, stores[0], urls) || (|runs| > 0 && runs[0].full)
    ensures Consistent(ByPath, stores[|runs|], urls)
  {
    var n := |runs| - 1;
    if n >= 0 {
      assert Wrote(stores[n], runs[n], urls, stores[n + 1]);
      if !runs[n].full {
        RunsKeepConsistent(stores[..n + 1], runs[..n], urls);
        IncrementalKeepsConsistent(stores[n], runs[n].targets, runs[n].built, urls, stores[n + 1]);
      }
    }
  }

  // ------------------------------------------- when the two orders disagree

  function NamedFeed(feed: string, asnName: string): Sidecar {
    Sidecar(FeedInfo(feed, "", "", "", 0, 0), [], [AsnRow(7, asnName, 1)])
  }

  lemma OneRowVisit(b: AsnBuilder, v: Visit, name: string)
    requires v.sidecar.asns == [AsnRow(b.asn, name, 1)] && v.sidecar.countries == []
    ensures AsnVisit(b, v) == AddAsnRow(b, v, AsnRow(b.asn, name, 1))
  {
    var rows := v.sidecar.asns;
    assert rows[..|rows| - 1] == [];
    assert AsnFeeds(b, v, []) == b;
    var fed := AddAsnRow(b, v, AsnRow(b.asn, name, 1));
    assert AsnFeeds(b, v, rows) == fed;
    assert AsnShares(fed, v, []) == fed;
    assert AsnShares(fed, v, rows) == AddShares(fed, Shares([], b.asn));
  }

  lemma NamedFold(v: Visit, w: Visit, a: string, b: string)
    requires v.sidecar.asns == [AsnRow(7, a, 1)] && w.sidecar.asns == [AsnRow(7, b, 1)]
    requires v.sidecar.countries == w.sidecar.countries == [] && a != ""
    ensures AsnDetail(7, [v, w]).Some? && AsnDetail(7, [v, w]).value.name == a
  {
    var pair, one := [v, w], [v];
    assert pair[..|pair| - 1] == one && one[..|one| - 1] == [];
    assert AsnFold(7, []) == NewAsn(7);
    OneRowVisit(NewAsn(7), v, a);
    assert AsnFold(7, one) == AddAsnRow(NewAsn(7), v, AsnRow(7, a, 1));
    OneRowVisit(AsnFold(7, one), w, b);
  }

  lemma PairWalk(feeds: map<string, Sidecar>, x: string, y: string, urls: Urls)
    requires x in feeds && y in feeds
    ensures WalkOf(feeds, [x, y], urls) == [VisitOf(x, feeds[x], urls), VisitOf(y, feeds[y], urls)]
  {
    assert [x, y][..1] == [x] && [x][..0] == [];
    assert WalkOf(feeds, [x], urls) == [VisitOf(x, feeds[x], urls)];
  }

  const EMPTY := Store(map[], map[], map[])

  function Pair(a: string, b: string): map<string, Sidecar> {
    map[a := NamedFeed(a, "A"), b := NamedFeed(b, "B")]
  }

  /** Two feeds the orders disagree on can be given contents for which the
      incremental write names an ASN after the wrong feed. */
  lemma DisagreementShows(a: string, b: string, urls: Urls)
    requires a != b && Leq(a, b) && Leq(Path(b), Path(a))
    ensures exists after ::
      && IncrementalWrite(EMPTY, {a, b}, Pair(a, b), urls, after) && after.feeds.Keys == {a, b}
      && !Consistent(ByPath, after, urls)
  {
    hide IncrementalWrite, Consistent, WalkOf, AsnDetail, Leq, Path;
    var built := Pair(a, b);
    NamesByOrder(built, a, b, urls);
    NamesByOrder(built, b, a, urls);
    var after := Store(built, map[], map[7 := AsnDetail(7, WalkOf(built, [a, b], urls)).value]);
    PairRebuilt(a, b, urls, after);
    PairListing(b, a);
    WrongNameInconsistent(b, a, after, urls);
  }

  lemma PairListing(first: string, second: string)
    requires first != second && Leq(Path(first), Path(second))
    ensures Listing(ByPath, [first, second], {first, second})
  {
    if Path(first) == Path(second) { PathInjective(first, second); }
  }

  lemma PairRebuilt(a: string, b: string, urls: Urls, after: Store)
    requires a != b && Leq(a, b)
    requires after.feeds == Pair(a, b) && after.countries == map[]
    requires after.asns.Keys == {7} && AsnDetail(7, WalkOf(after.feeds, [a, b], urls)) == Some(after.asns[7])
    ensures IncrementalWrite(EMPTY, {a, b}, Pair(a, b), urls, after)
  {
    PairTouches(a, b);
    assert Listing(ByName, [a, b], after.feeds.Keys);
    assert TouchedRebuilt(EMPTY, {a, b}, Pair(a, b), urls, [a, b], after);
  }

  lemma WrongNameInconsistent(first: string, second: string, after: Store, urls: Urls)
    requires Listing(ByPath, [first, second], after.feeds.Keys)
    requires Lookup(after.asns, 7) != AsnDetail(7, WalkOf(after.feeds, [first, second], urls))
    ensures !Consistent(ByPath, after, urls)
  {
    forall paths | Listing(ByPath, paths, after.feeds.Keys) ensures !ConsistentAlong(after, paths, urls) {
      ListingUnique(ByPath, paths, [first, second], after.feeds.Keys);
    }
  }

  lemma PairTouches(a: string, b: string)
    requires a != b
    ensures FeedsAfter(map[], {a, b}, Pair(a, b)) == Pair(a, b)
    ensures forall asn :: TouchesAsn(map[], Pair(a, b), Changed(map[], {a, b}, Pair(a, b)), asn) <==> asn == 7
    ensures forall code :: !TouchesCountry(map[], Pair(a, b), Changed(map[], {a, b}, Pair(a, b)), code)
  {
    var built := Pair(a, b);
    assert built[a].asns[0].asn == 7;
    assert 7 in NumbersOf(Lookup(built, a)) && a in Changed(map[], {a, b}, built);
  }

  /** Incremental runs keep every store over some feed names consistent exactly
      when sorting the names and sorting their file paths agree. */
  lemma IncrementalExactWhen(keys: set<string>, urls: Urls)
    ensures OrdersAgree(keys) <==>
      (forall before, targets, built, after ::
        Consistent(ByPath, before, urls) && IncrementalWrite(before, targets, built, urls, after)
          && after.feeds.Keys <= keys
        ==> Consistent(ByPath, after, urls))
  {
    hide IncrementalWrite, Consistent, Leq, Path;
    if OrdersAgree(keys) {
      forall before, targets, built, after |
        Consistent(ByPath, before, urls) && IncrementalWrite(before, targets, built, urls, after)
          && after.feeds.Keys <= keys
        ensures Consistent(ByPath, after, urls)
      {
        IncrementalKeepsConsistent(before, targets, built, urls, after);
      }
    } else {
      var a, b :| a in keys && b in keys && !(Leq(a, b) <==> Leq(Path(a), Path(b)));
      LeqTotal(a, b);
      LeqTotal(Path(a), Path(b));
      LeqReflexive(a);
      LeqReflexive(Path(a));
      EmptyConsistent(urls);
      var x, y := if Leq(a, b) then a else b, if Leq(a, b) then b else a;
      DisagreementShows(x, y, urls);
      var after :| IncrementalWrite(EMPTY, {x, y}, Pair(x, y), urls, after) && after.feeds.Keys == {x, y}
        && !Consistent(ByPath, after, urls);
    }
  }

  /** The smallest feed names that show it: the hyphen sorts before the dot. */
  lemma HyphenDisagrees(urls: Urls)
    ensures !OrdersAgree({"a", "a-b"})
    ensures exists after ::
      IncrementalWrite(EMPTY, {"a", "a-b"}, Pair("a", "a-b"), urls, after) && !Consistent(ByPath, after, urls)
  {
    assert "a"[1..] == "" && "a-b"[1..] == "-b" && Leq("a", "a-b");
    assert Path("a-b")[1..] == "-b.json" && Path("a")[1..] == ".json";
    assert !Leq(".json", "-b.json") && Leq("-b.json", ".json");
    assert Leq(Path("a-b"), Path("a")) && !Leq(Path("a"), Path("a-b"));
    var keys := {"a", "a-b"};
    assert "a" in keys && "a-b" in keys;
    DisagreementShows("a", "a-b", urls);
  }

  lemma EmptyConsistent(urls: Urls)
    ensures Consistent(ByPath, EMPTY, urls)
  {
    assert WalkOf(EMPTY.feeds, [], urls) == [];
    assert Listing(ByPath, [], EMPTY.feeds.Keys) && ConsistentAlong(EMPTY, [], urls);
  }

  lemma NamesByOrder(built: map<string, Sidecar>, x: string, y: string, urls: Urls)
    requires x in built && y in built && built[x].asns != [] && built[y].asns != []
    requires built[x] == NamedFeed(x, built[x].asns[0].name) && built[y] == NamedFeed(y, built[y].asns[0].name)
    requires built[x].asns[0].name != ""
    ensures
      var d := AsnDetail(7, WalkOf(built, [x, y], urls));
      d.Some? && d.value.name == built[x].asns[0].name
  {
    PairWalk(built, x, y, urls);
    NamedFold(VisitOf(x, built[x], urls), VisitOf(y, built[y], urls), built[x].asns[0].name, built[y].asns[0].name);
  }
}
