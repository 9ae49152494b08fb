/** The memoised "last upstream change" resolver (pkg/engine/effective_entry.go). */
module LastChange {
  import opened Wrappers
  import opened Catalog
  import opened Derivation

  datatype Entry = Entry(sourceDate: int, processedDate: int)

  datatype World = World(sources: Sources, entries: map<string, Entry>)

  /** `baseLastChange`. */
  function Base(w: World, name: string): int {
    if name !in w.entries then 0
    else if w.entries[name].sourceDate > 0 then w.entries[name].sourceDate
    else w.entries[name].processedDate
  }

  /** Merges and retention windows answer for their parents. */
  predicate Derives(w: World, name: string) {
    SourceAt(w.sources, name).Some? &&
    var s := SourceAt(w.sources, name).value;
    |s.derivedFrom| > 0 && (s.provenance == SecondaryMerge || s.provenance == SecondaryRetention)
  }

  /** The graph the resolver descends. Parents of other sources are not asked,
      and the empty name is answered at once. */
  function Edges(w: World): Graph {
    map n | n in w.sources && n != "" && Derives(w, n) :: ParentsOf(w.sources[n])
  }

  /** A catalog that passed the cycle check of the loader is acyclic here. */
  lemma CheckedIsAcyclic(w: World)
    requires Acyclic(DerivedFrom(w.sources))
    ensures Acyclic(Edges(w))
  {
    forall p ensures !ClosedWalk(Edges(w), p) {
      if ClosedWalk(Edges(w), p) {
        forall i | 0 <= i < |p| - 1 ensures Edge(DerivedFrom(w.sources), p[i], p[i + 1]) {
          assert Edge(Edges(w), p[i], p[i + 1]);
        }
        assert ClosedWalk(DerivedFrom(w.sources), p);
      }
    }
  }

  function Max(a: int, b: int): int { if b > a then b else a }

  // ------------------------------------------------- the plain recursion

  ghost function Height(rank: map<string, nat>, name: string): nat {
    if name in rank then rank[name] else 0
  }

  /** The reference on an acyclic graph: the newest parent if any has a time,
      else the feed's own. No memo, no visiting set. */
  ghost function Value(w: World, rank: map<string, nat>, name: string): int
    requires Ranked(Edges(w), rank)
    decreases Height(rank, name), 1, 0
  {
    if name == "" then 0
    else if Derives(w, name) then
      assert name in Edges(w);
      var newest := Newest(w, rank, name, Edges(w)[name]);
      if newest > 0 then newest else Base(w, name)
    else Base(w, name)
  }

  ghost function Newest(w: World, rank: map<string, nat>, child: string, parents: seq<string>): int
    requires Ranked(Edges(w), rank) && child in rank
    requires forall p :: p in parents ==> p in rank && rank[p] < rank[child]
    decreases Height(rank, child), 0, |parents|
  {
    if parents == [] then 0
    else Max(Newest(w, rank, child, parents[..|parents| - 1]), Value(w, rank, parents[|parents| - 1]))
  }

  /** The reference does not depend on which ranking shows acyclicity. */
  lemma {:induction false} ValueRankFree(w: World, r1: map<string, nat>, r2: map<string, nat>, name: string)
    requires Ranked(Edges(w), r1) && Ranked(Edges(w), r2)
    ensures Value(w, r1, name) == Value(w, r2, name)
    decreases Height(r1, name), 1, 0
  {
    if name != "" && Derives(w, name) {
      assert name in Edges(w);
      NewestRankFree(w, r1, r2, name, Edges(w)[name]);
    }
  }

  lemma {:induction false} NewestRankFree(w: World, r1: map<string, nat>, r2: map<string, nat>, child: string,
                                          parents: seq<string>)
    requires Ranked(Edges(w), r1) && Ranked(Edges(w), r2) && child in r1 && child in r2
    requires forall p :: p in parents ==> p in r1 && r1[p] < r1[child] && p in r2 && r2[p] < r2[child]
    ensures Newest(w, r1, child, parents) == Newest(w, r2, child, parents)
    decreases Height(r1, child), 0, |parents|
  {
    if parents != [] {
      NewestRankFree(w, r1, r2, child, parents[..|parents| - 1]);
      ValueRankFree(w, r1, r2, parents[|parents| - 1]);
    }
  }

  // ----------------------------------------- the resolver, as a function

  datatype Answer = Answer(ts: int, memo: map<string, int>)

  function Resolve(w: World, name: string, memo: map<string, int>, visiting: set<string>): Answer
    decreases w.sources.Keys - visiting, 1, 0
  {
    if name == "" then Answer(0, memo)
    else if name in memo then Answer(memo[name], memo)
    else if name in visiting then Answer(Base(w, name), memo)
    else if Derives(w, name) then
      var parents := SourceAt(w.sources, name).value.derivedFrom;
      var a := ResolveNewest(w, parents, memo, visiting + {name});
      var ts := if a.ts > 0 then a.ts else Base(w, name);
      Answer(ts, a.memo[name := ts])
    else Answer(Base(w, name), memo[name := Base(w, name)])
  }

  function ResolveNewest(w: World, parents: seq<string>, memo: map<string, int>, visiting: set<string>): Answer
    decreases w.sources.Keys - visiting, 2, |parents|
  {
    if parents == [] then Answer(0, memo)
    else
      var before := ResolveNewest(w, parents[..|parents| - 1], memo, visiting);
      var last := Resolve(w, parents[|parents| - 1], before.memo, visiting);
      Answer(Max(before.ts, last.ts), last.memo)
  }

  ghost predicate MemoCorrect(w: World, rank: map<string, nat>, memo: map<string, int>)
    requires Ranked(Edges(w), rank)
  {
    forall n :: n in memo ==> memo[n] == Value(w, rank, n)
  }

  /** Everything being visited lies strictly above the name at hand. */
  ghost predicate Below(rank: map<string, nat>, name: string, visiting: set<string>) {
    forall v :: v in visiting ==> name in rank && v in rank && rank[name] < rank[v]
  }

  /** On an acyclic graph memoising changes no answer, and every memo entry is
      the plain recursion's value. */
  lemma {:induction false} ResolveIsValue(w: World, rank: map<string, nat>, name: string, memo: map<string, int>,
                                          visiting: set<string>)
    requires Ranked(Edges(w), rank) && MemoCorrect(w, rank, memo) && Below(rank, name, visiting)
    ensures Resolve(w, name, memo, visiting).ts == Value(w, rank, name)
    ensures MemoCorrect(w, rank, Resolve(w, name, memo, visiting).memo)
    decreases w.sources.Keys - visiting, 1, 0
  {
    if name != "" && name !in memo && name !in visiting && Derives(w, name) {
      assert name in Edges(w);
      ResolveNewestIsNewest(w, rank, name, Edges(w)[name], memo, visiting + {name});
    }
  }

  lemma {:induction false} ResolveNewestIsNewest(
    w: World, rank: map<string, nat>, child: string, parents: seq<string>, memo: map<string, int>,
    visiting: set<string>)
    requires Ranked(Edges(w), rank) && MemoCorrect(w, rank, memo) && child in rank
    requires forall v :: v in visiting ==> v in rank && rank[child] <= rank[v]
    requires forall p :: p in parents ==> p in rank && rank[p] < rank[child]
    ensures ResolveNewest(w, parents, memo, visiting).ts == Newest(w, rank, child, parents)
    ensures MemoCorrect(w, rank, ResolveNewest(w, parents, memo, visiting).memo)
    decreases w.sources.Keys - visiting, 2, |parents|
  {
    if parents != [] {
      var init, last := parents[..|parents| - 1], parents[|parents| - 1];
      ResolveNewestIsNewest(w, rank, child, init, memo, visiting);
      ResolveIsValue(w, rank, last, ResolveNewest(w, init, memo, visiting).memo, visiting);
    }
  }

  /** The memo after a series of queries from an empty one. */
  function MemoAfter(w: World, queries: seq<string>): map<string, int> {
    if queries == [] then map[]
    else Resolve(w, queries[|queries| - 1], MemoAfter(w, queries[..|queries| - 1]), {}).memo
  }

  lemma {:induction false} MemoAfterCorrect(w: World, rank: map<string, nat>, queries: seq<string>)
    requires Ranked(Edges(w), rank)
    ensures MemoCorrect(w, rank, MemoAfter(w, queries))
  {
    if queries != [] {
      MemoAfterCorrect(w, rank, queries[..|queries| - 1]);
      ResolveIsValue(w, rank, queries[|queries| - 1], MemoAfter(w, queries[..|queries| - 1]), {});
    }
  }

  /** On an acyclic graph no answer depends on what was asked before. */
  lemma QueryOrderIrrelevant(w: World, rank: map<string, nat>, before: seq<string>, instead: seq<string>, name: string)
    requires Ranked(Edges(w), rank)
    ensures Resolve(w, name, MemoAfter(w, before), {}).ts == Resolve(w, name, MemoAfter(w, instead), {}).ts
  {
    MemoAfterCorrect(w, rank, before);
    MemoAfterCorrect(w, rank, instead);
    ResolveIsValue(w, rank, name, MemoAfter(w, before), {});
    ResolveIsValue(w, rank, name, MemoAfter(w, instead), {});
  }

  // ------------------------------------------------ the resolver itself

  class EffectiveEntryResolver {
    const world: World
    var memo: map<string, int>
    var visiting: set<string>

    constructor (w: World)
      ensures world == w && memo == map[] && visiting == {}
    {
      world, memo, visiting := w, map[], {};
    }

    /** `lastChange`; it terminates on any graph, since the visiting set grows
        inside the catalog. */
    method LastChange(name: string) returns (ts: int)
      modifies this
      ensures visiting == old(visiting)
      ensures Answer(ts, memo) == Resolve(world, name, old(memo), old(visiting))
      decreases world.sources.Keys - visiting
    {
      if name == "" {
        return 0;
      }
      if name in memo {
        return memo[name];
      }
      if name in visiting {
        return Base(world, name);
      }
      visiting := visiting + {name};
      ts := Base(world, name);
      if Derives(world, name) {
        var parents := SourceAt(world.sources, name).value.derivedFrom;
        var derivedTS := 0;
        for i := 0 to |parents|
          invariant visiting == old(visiting) + {name}
          invariant Answer(derivedTS, memo) == ResolveNewest(world, parents[..i], old(memo), visiting)
        {
          assert parents[..i + 1][..i] == parents[..i];
          var parentTS := LastChange(parents[i]);
          if parentTS > derivedTS {
            derivedTS := parentTS;
          }
        }
        assert parents[..|parents|] == parents;
        if derivedTS > 0 {
          ts := derivedTS;
        }
      }
      memo := memo[name := ts];
      visiting := visiting - {name};
      assert visiting == old(visiting);
    }
  }

  /** A resolver over a catalog without cycles of merges and windows answers
      every series of queries with the plain recursion. */
  method AnswerAll(w: World, queries: seq<string>) returns (answers: seq<int>, ghost rank: map<string, nat>)
    ensures |answers| == |queries|
    ensures Acyclic(Edges(w)) ==>
      Ranked(Edges(w), rank) && forall i :: 0 <= i < |queries| ==> answers[i] == Value(w, rank, queries[i])
  {
    rank := map[];
    if Acyclic(Edges(w)) { rank := AcyclicIsRanked(Edges(w)); }
    var resolver := new EffectiveEntryResolver(w);
    answers := [];
    for i := 0 to |queries|
      invariant |answers| == i && resolver.world == w && resolver.visiting == {}
      invariant Acyclic(Edges(w)) ==> MemoCorrect(w, rank, resolver.memo)
      invariant Acyclic(Edges(w)) ==> forall j :: 0 <= j < i ==> answers[j] == Value(w, rank, queries[j])
    {
      if Acyclic(Edges(w)) { ResolveIsValue(w, rank, queries[i], resolver.memo, {}); }
      var ts := resolver.LastChange(queries[i]);
      answers := answers + [ts];
    }
  }
}
