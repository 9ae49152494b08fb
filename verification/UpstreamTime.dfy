/** What the last upstream change of a feed is, said of the whole graph and not
    of the recursion (pkg/engine/effective_entry.go:79-118): the newest time
    among the feeds it is made of, found where nothing below has one. */
module UpstreamTime {
  import opened Wrappers
  import opened Catalog
  import opened Derivation
  import opened LastChange
  import opened QueryOrder

  /** A feed's own time: the source's date if there is one, else when it was
      processed; a feed without an entry has none. */
  ghost predicate IsOwnTime(w: World, f: string, t: int) {
    if f == "" || f !in w.entries then t == 0
    else if w.entries[f].sourceDate <= 0 then t == w.entries[f].processedDate
    else t == w.entries[f].sourceDate
  }

  ghost predicate HasTime(w: World, f: string) {
    exists t :: IsOwnTime(w, f, t) && t > 0
  }

  ghost predicate AtOrBelow(w: World, n: string, f: string) {
    n == f || Reaches(Edges(w), n, f)
  }

  /** Of the feeds it is made of, `f` has a time and nothing below it does. */
  ghost predicate Speaks(w: World, n: string, f: string) {
    AtOrBelow(w, n, f) && HasTime(w, f) && forall g :: Reaches(Edges(w), f, g) ==> !HasTime(w, g)
  }

  /** `ts` is the newest time of those that speak for `n`, and `n`'s own if
      there are none. */
  ghost predicate IsUpstreamTime(w: World, n: string, ts: int) {
    if exists f :: AtOrBelow(w, n, f) && HasTime(w, f) then
      && (exists f :: Speaks(w, n, f) && IsOwnTime(w, f, ts))
      && (forall f, t :: Speaks(w, n, f) && IsOwnTime(w, f, t) ==> t <= ts)
    else IsOwnTime(w, n, ts)
  }

  lemma OwnTimeIsBase(w: World, f: string)
    ensures IsOwnTime(w, f, if f == "" then 0 else Base(w, f))
    ensures HasTime(w, f) <==> f != "" && Base(w, f) > 0
  {}

  /** Who a feed asks: the parents of a merge or window, nobody otherwise. */
  lemma WhoIsAsked(w: World, n: string, p: string)
    ensures Edge(Edges(w), n, p) <==>
      && n != "" && n in w.sources && w.sources[n].Some?
      && (w.sources[n].value.provenance == SecondaryMerge || w.sources[n].value.provenance == SecondaryRetention)
      && p in w.sources[n].value.derivedFrom
  {}

  lemma BelowParent(w: World, n: string, p: string, f: string)
    requires Edge(Edges(w), n, p) && AtOrBelow(w, p, f)
    ensures Reaches(Edges(w), n, f)
  {
    if p == f { EdgeReaches(Edges(w), n, p); } else { ReachesThrough(Edges(w), n, p, f); }
  }

  lemma ThroughParent(w: World, n: string, f: string)
    requires Reaches(Edges(w), n, f)
    ensures exists p :: Edge(Edges(w), n, p) && AtOrBelow(w, p, f)
  {
    LeadsIsKey(Edges(w), n, f);
    var p :| p in Edges(w)[n] && (p == f || Reaches(Edges(w), p, f));
    assert Edge(Edges(w), n, p);
  }

  lemma {:induction false} NewestIsMax(w: World, rank: map<string, nat>, child: string, parents: seq<string>)
    requires Ranked(Edges(w), rank) && child in rank
    requires forall p :: p in parents ==> p in rank && rank[p] < rank[child]
    ensures Newest(w, rank, child, parents) >= 0
    ensures forall p :: p in parents ==> Value(w, rank, p) <= Newest(w, rank, child, parents)
    ensures Newest(w, rank, child, parents) > 0 ==>
      exists p :: p in parents && Value(w, rank, p) == Newest(w, rank, child, parents)
  {
    if parents != [] {
      var init, last := parents[..|parents| - 1], parents[|parents| - 1];
      NewestIsMax(w, rank, child, init);
      assert forall p :: p in parents <==> p in init || p == last;
      if Newest(w, rank, child, init) > 0 && Newest(w, rank, child, init) >= Value(w, rank, last) {
        var p :| p in init && Value(w, rank, p) == Newest(w, rank, child, init);
        assert p in parents;
      } else {
        assert last in parents;
      }
    }
  }

  /** Positive exactly where some feed at or below has a time. */
  lemma PositiveWhenTimed(w: World, n: string, ts: int)
    requires IsUpstreamTime(w, n, ts)
    ensures ts > 0 <==> exists f :: AtOrBelow(w, n, f) && HasTime(w, f)
  {
    if exists f :: AtOrBelow(w, n, f) && HasTime(w, f) {
      var f :| Speaks(w, n, f) && IsOwnTime(w, f, ts);
    } else {
      assert AtOrBelow(w, n, n) && !HasTime(w, n);
    }
  }

  lemma NobodyBelow(w: World, n: string)
    requires n == "" || !Derives(w, n)
    ensures forall f :: !Reaches(Edges(w), n, f)
  {
    forall f ensures !Reaches(Edges(w), n, f) {
      if Reaches(Edges(w), n, f) { LeadsIsKey(Edges(w), n, f); }
    }
  }

  lemma AloneIsUpstream(w: World, n: string)
    requires forall f :: !Reaches(Edges(w), n, f)
    ensures IsUpstreamTime(w, n, if n == "" then 0 else Base(w, n))
  {
    OwnTimeIsBase(w, n);
    assert AtOrBelow(w, n, n);
    assert HasTime(w, n) ==> Speaks(w, n, n);
  }

  /** A feed whose parents have a time lets the newest of them speak. */
  lemma ParentsSpeak(w: World, n: string, ps: seq<string>, values: map<string, int>, ts: int)
    requires forall p :: Edge(Edges(w), n, p) <==> p in ps
    requires forall p :: p in ps ==> p in values && IsUpstreamTime(w, p, values[p]) && values[p] <= ts
    requires ts > 0 && exists p :: p in ps && values[p] == ts
    ensures IsUpstreamTime(w, n, ts)
  {
    hide IsOwnTime, HasTime, IsUpstreamTime, Reaches, Edge;
    var p :| p in ps && values[p] == ts;
    PositiveWhenTimed(w, p, ts);
    var f := SpeakerOf(w, p, ts);
    BelowParent(w, n, p, f);
    SpeaksAbove(w, n, f);
    forall g, t | Speaks(w, n, g) && IsOwnTime(w, g, t) ensures t <= ts {
      if g == n { assert false; }
      ThroughParent(w, n, g);
      var q :| Edge(Edges(w), n, q) && AtOrBelow(w, q, g);
      SpeaksBelow(w, q, g, values[q], t);
    }
    UpstreamBySpeaker(w, n, f, ts);
  }

  lemma SpeakerOf(w: World, p: string, ts: int) returns (f: string)
    requires IsUpstreamTime(w, p, ts) && ts > 0
    ensures Speaks(w, p, f) && IsOwnTime(w, f, ts)
  {
    PositiveWhenTimed(w, p, ts);
    f :| Speaks(w, p, f) && IsOwnTime(w, f, ts);
  }

  lemma SpeaksAbove(w: World, n: string, f: string)
    requires Reaches(Edges(w), n, f) && HasTime(w, f) && forall g :: Reaches(Edges(w), f, g) ==> !HasTime(w, g)
    ensures Speaks(w, n, f)
  {}

  lemma SpeaksBelow(w: World, q: string, g: string, ts: int, t: int)
    requires AtOrBelow(w, q, g) && HasTime(w, g) && (forall h :: Reaches(Edges(w), g, h) ==> !HasTime(w, h))
    requires IsUpstreamTime(w, q, ts) && IsOwnTime(w, g, t)
    ensures t <= ts
  {
    assert Speaks(w, q, g);
  }

  lemma UpstreamBySpeaker(w: World, n: string, f: string, ts: int)
    requires Speaks(w, n, f) && IsOwnTime(w, f, ts)
    requires forall g, t :: Speaks(w, n, g) && IsOwnTime(w, g, t) ==> t <= ts
    ensures IsUpstreamTime(w, n, ts)
  {}

  /** Where no parent has a time, neither has anything below. */
  lemma SilentBelow(w: World, n: string, ps: seq<string>, values: map<string, int>)
    requires forall p :: Edge(Edges(w), n, p) <==> p in ps
    requires forall p :: p in ps ==> p in values && IsUpstreamTime(w, p, values[p]) && values[p] <= 0
    requires n != ""
    ensures IsUpstreamTime(w, n, Base(w, n))
  {
    hide IsUpstreamTime, Reaches;
    forall f | Reaches(Edges(w), n, f) ensures !HasTime(w, f) {
      ThroughParent(w, n, f);
      var p :| Edge(Edges(w), n, p) && AtOrBelow(w, p, f);
      PositiveWhenTimed(w, p, values[p]);
    }
    OwnOnly(w, n);
  }

  lemma OwnOnly(w: World, n: string)
    requires n != "" && forall f :: Reaches(Edges(w), n, f) ==> !HasTime(w, f)
    ensures IsUpstreamTime(w, n, Base(w, n))
  {
    hide Reaches;
    OwnTimeIsBase(w, n);
    assert AtOrBelow(w, n, n);
    assert HasTime(w, n) ==> Speaks(w, n, n);
  }

  /** On a graph without cycles the plain recursion, and with it every answer of
      the resolver, is that time. */
  lemma {:induction false} ValueIsUpstreamTime(w: World, rank: map<string, nat>, n: string)
    requires Ranked(Edges(w), rank)
    ensures IsUpstreamTime(w, n, Value(w, rank, n))
    decreases Height(rank, n)
  {
    hide IsUpstreamTime, Reaches;
    if n == "" || !Derives(w, n) {
      NobodyBelow(w, n);
      AloneIsUpstream(w, n);
    } else {
      assert n in Edges(w);
      var ps := Edges(w)[n];
      NewestIsMax(w, rank, n, ps);
      var values := map p | p in ps :: Value(w, rank, p);
      forall p | p in ps ensures IsUpstreamTime(w, p, values[p]) { ValueIsUpstreamTime(w, rank, p); }
      var newest := Newest(w, rank, n, ps);
      if newest > 0 {
        var p :| p in ps && Value(w, rank, p) == newest;
        assert values[p] == newest;
        ParentsSpeak(w, n, ps, values, newest);
      } else {
        SilentBelow(w, n, ps, values);
      }
    }
  }

  /** Every series of queries to the resolver, over a catalog whose merges and
      windows form no cycle, is answered with the times upstream. */
  method AnswerQueries(w: World, queries: seq<string>) returns (answers: seq<int>)
    requires Acyclic(Edges(w))
    ensures |answers| == |queries| && forall i :: 0 <= i < |queries| ==> IsUpstreamTime(w, queries[i], answers[i])
  {
    hide IsUpstreamTime;
    ghost var rank;
    answers, rank := AnswerAll(w, queries);
    forall i | 0 <= i < |queries| ensures IsUpstreamTime(w, queries[i], answers[i]) {
      ValueIsUpstreamTime(w, rank, queries[i]);
    }
  }
}
