/** When the answers of the last-change resolver depend on the order of the
    queries (pkg/engine/effective_entry.go). */
module QueryOrder {
  import opened Wrappers
  import opened Catalog
  import opened Derivation
  import opened LastChange

  /** Whatever the cache holds and whatever was asked before, every feed gets
      one answer. */
  ghost predicate OrderNeverMatters(sources: Sources) {
    forall entries, before, instead, name ::
      Resolve(World(sources, entries), name, MemoAfter(World(sources, entries), before), {}).ts
      == Resolve(World(sources, entries), name, MemoAfter(World(sources, entries), instead), {}).ts
  }

  function Descends(sources: Sources): Graph {
    Edges(World(sources, map[]))
  }

  ghost predicate NoSelfLoop(g: Graph) {
    forall n :: !Edge(g, n, n)
  }

  // -------------------------------------------------- what a query memoises

  ghost predicate Grows(older: map<string, int>, newer: map<string, int>) {
    forall n :: n in older ==> n in newer && newer[n] == older[n]
  }

  lemma {:induction false} MemoGrows(w: World, name: string, memo: map<string, int>, visiting: set<string>)
    ensures Grows(memo, Resolve(w, name, memo, visiting).memo)
    decreases w.sources.Keys - visiting, 1, 0
  {
    if name != "" && name !in memo && name !in visiting && Derives(w, name) {
      MemoGrowsAlong(w, SourceAt(w.sources, name).value.derivedFrom, 0, memo, visiting + {name});
    }
  }

  /** Later parents leave what earlier ones memoised. */
  lemma {:induction false} MemoGrowsAlong(w: World, parents: seq<string>, i: nat, memo: map<string, int>,
                                          visiting: set<string>)
    requires i <= |parents|
    ensures Grows(ResolveNewest(w, parents[..i], memo, visiting).memo, ResolveNewest(w, parents, memo, visiting).memo)
    ensures Grows(memo, ResolveNewest(w, parents, memo, visiting).memo)
    decreases w.sources.Keys - visiting, 2, |parents|
  {
    if i < |parents| {
      var init, last := parents[..|parents| - 1], parents[|parents| - 1];
      assert init[..i] == parents[..i];
      MemoGrowsAlong(w, init, i, memo, visiting);
      MemoGrows(w, last, ResolveNewest(w, init, memo, visiting).memo, visiting);
    } else {
      assert parents[..i] == parents;
      if parents != [] {
        var init, last := parents[..|parents| - 1], parents[|parents| - 1];
        MemoGrowsAlong(w, init, |init|, memo, visiting);
        MemoGrows(w, last, ResolveNewest(w, init, memo, visiting).memo, visiting);
      }
    }
  }

  /** A walk of which every name but the last is neither memoised nor being
      visited. */
  ghost predicate Open(g: Graph, avoid: set<string>, p: seq<string>) {
    Walk(g, p) && forall i :: 0 <= i < |p| - 1 ==> p[i] !in avoid
  }

  ghost predicate Sees(g: Graph, avoid: set<string>, n: string, x: string) {
    exists p :: Open(g, avoid, p) && p[0] == n && p[|p| - 1] == x
  }

  lemma SeesItself(g: Graph, avoid: set<string>, n: string)
    ensures Sees(g, avoid, n, n)
  {
    assert Open(g, avoid, [n]) && [n][0] == n;
  }

  lemma SeesThrough(g: Graph, avoid: set<string>, n: string, m: string, x: string)
    requires n !in avoid && Edge(g, n, m) && Sees(g, avoid, m, x)
    ensures Sees(g, avoid, n, x)
  {
    var p :| Open(g, avoid, p) && p[0] == m && p[|p| - 1] == x;
    PrependWalk(g, n, p);
    assert Open(g, avoid, [n] + p) && ([n] + p)[0] == n && ([n] + p)[|p|] == x;
  }

  lemma SeesTransitive(g: Graph, avoid: set<string>, n: string, m: string, x: string)
    requires Sees(g, avoid, n, m) && Sees(g, avoid, m, x)
    ensures Sees(g, avoid, n, x)
  {
    var p :| Open(g, avoid, p) && p[0] == n && p[|p| - 1] == m;
    var q :| Open(g, avoid, q) && q[0] == m && q[|q| - 1] == x;
    JoinWalks(g, p, q);
    var r := p + q[1..];
    assert forall i :: |p| - 1 <= i < |r| ==> r[i] == q[i - |p| + 1];
    assert Open(g, avoid, r) && r[0] == n && r[|r| - 1] == x;
  }

  /** Evaluating a name memoises only what it sees. */
  lemma {:induction false} MemoisedIsSeen(w: World, name: string, memo: map<string, int>, visiting: set<string>,
                                          v: string)
    requires v in Resolve(w, name, memo, visiting).memo && v !in memo
    ensures v !in visiting && Sees(Edges(w), memo.Keys + visiting, name, v)
    decreases w.sources.Keys - visiting, 1, 0
  {
    var g := Edges(w);
    if v == name {
      SeesItself(g, memo.Keys + visiting, v);
    } else {
      assert name != "" && Derives(w, name) && name in g;
      MemoisedIsSeenFrom(w, g[name], memo, visiting + {name}, v);
      var q :| q in g[name] && v !in visiting && Sees(g, memo.Keys + (visiting + {name}), q, v);
      SeesThrough(g, memo.Keys + visiting, name, q, v);
    }
  }

  lemma {:induction false} MemoisedIsSeenFrom(w: World, parents: seq<string>, memo: map<string, int>,
                                              visiting: set<string>, v: string)
    requires v in ResolveNewest(w, parents, memo, visiting).memo && v !in memo
    ensures exists q :: q in parents && v !in visiting && Sees(Edges(w), memo.Keys + visiting, q, v)
    decreases w.sources.Keys - visiting, 2, |parents|
  {
    var init, last := parents[..|parents| - 1], parents[|parents| - 1];
    var before := ResolveNewest(w, init, memo, visiting).memo;
    if v in before {
      MemoisedIsSeenFrom(w, init, memo, visiting, v);
      var q :| q in init && v !in visiting && Sees(Edges(w), memo.Keys + visiting, q, v);
      assert q in parents;
    } else {
      MemoisedIsSeen(w, last, before, visiting, v);
      MemoGrowsAlong(w, init, |init|, memo, visiting);
      assert last in parents;
    }
  }

  // -------------------------------------------- answers travel along cycles

  /** A walk can be left at the last visit of its first name. */
  lemma {:induction false} LeavesOnce(g: Graph, avoid: set<string>, p: seq<string>)
    requires Open(g, avoid, p) && |p| >= 2
    ensures exists q :: q in Parents(g, p[0]) && Sees(g, avoid + {p[0]}, q, p[|p| - 1])
    decreases |p|
  {
    if j :| 1 <= j < |p| - 1 && p[j] == p[0] {
      LeavesOnce(g, avoid, p[j..]);
    } else {
      assert Edge(g, p[0], p[1]);
      assert Open(g, avoid + {p[0]}, p[1..]) && p[1..][0] == p[1] && p[1..][|p| - 2] == p[|p| - 1];
    }
  }

  /** While `x` is being visited, a name that sees it answers at least its own
      time. */
  lemma {:induction false} SeesAnswers(w: World, name: string, memo: map<string, int>, visiting: set<string>, x: string)
    requires x != "" && x in visiting && x !in memo && Base(w, x) > 0
    requires Sees(Edges(w), memo.Keys + visiting, name, x)
    ensures Resolve(w, name, memo, visiting).ts >= Base(w, x)
    decreases w.sources.Keys - visiting, 1, 0
  {
    if name != x {
      var g := Edges(w);
      var p :| Open(g, memo.Keys + visiting, p) && p[0] == name && p[|p| - 1] == x;
      assert Edge(g, p[0], p[1]);
      LeavesOnce(g, memo.Keys + visiting, p);
      var q :| q in g[name] && Sees(g, memo.Keys + visiting + {name}, q, x);
      assert memo.Keys + visiting + {name} == memo.Keys + (visiting + {name});
      SeesAnswersFrom(w, g[name], memo, visiting + {name}, x, q);
    }
  }

  lemma {:induction false} SeesAnswersFrom(
    w: World, parents: seq<string>, memo: map<string, int>, visiting: set<string>, x: string, q: string)
    requires x != "" && x in visiting && x !in memo && Base(w, x) > 0
    requires q in parents && Sees(Edges(w), memo.Keys + visiting, q, x)
    ensures ResolveNewest(w, parents, memo, visiting).ts >= Base(w, x)
    decreases w.sources.Keys - visiting, 2, |parents|
  {
    hide Sees;
    var init, last := parents[..|parents| - 1], parents[|parents| - 1];
    var before := ResolveNewest(w, init, memo, visiting).memo;
    if r :| r in init && Sees(Edges(w), memo.Keys + visiting, r, x) {
      SeesAnswersFrom(w, init, memo, visiting, x, r);
    } else {
      assert q == last;
      StillSees(w, init, memo, visiting, last, x);
      SeesAnswers(w, last, before, visiting, x);
    }
  }

  /** What earlier parents memoise does not stand between a later one and `x`,
      or else an earlier one saw `x` too. */
  lemma StillSees(w: World, init: seq<string>, memo: map<string, int>, visiting: set<string>, last: string, x: string)
    requires x in visiting && Sees(Edges(w), memo.Keys + visiting, last, x)
    requires forall r :: r in init ==> !Sees(Edges(w), memo.Keys + visiting, r, x)
    ensures
      var before := ResolveNewest(w, init, memo, visiting).memo;
      Sees(Edges(w), before.Keys + visiting, last, x) && (x !in memo ==> x !in before)
  {
    hide Resolve, ResolveNewest, Edges;
    var g, avoid := Edges(w), memo.Keys + visiting;
    var before := ResolveNewest(w, init, memo, visiting).memo;
    if x in before && x !in memo { MemoisedIsSeenFrom(w, init, memo, visiting, x); }
    var p :| Open(g, avoid, p) && p[0] == last && p[|p| - 1] == x;
    forall i | 0 <= i < |p| - 1 ensures p[i] !in before.Keys + visiting {
      if p[i] in before {
        MemoisedIsSeenFrom(w, init, memo, visiting, p[i]);
        var r :| r in init && Sees(g, avoid, r, p[i]);
        assert p[i..][0] == p[i] && p[i..][|p| - i - 1] == x;
        SeesTransitive(g, avoid, r, p[i], x);
      }
    }
    assert Open(g, before.Keys + visiting, p);
  }

  /** Asked first, a feed on a cycle answers at least its own time. */
  lemma OwnTimeFirst(w: World, x: string)
    requires Reaches(Edges(w), x, x) && Base(w, x) > 0
    ensures Resolve(w, x, map[], {}).ts >= Base(w, x)
  {
    var g := Edges(w);
    var none: map<string, int> := map[];
    var p :| Walk(g, p) && |p| >= 2 && p[0] == x && p[|p| - 1] == x;
    assert Open(g, {}, p) && Edge(g, p[0], p[1]);
    LeavesOnce(g, {}, p);
    var q :| q in g[x] && Sees(g, {} + {x}, q, x);
    var idle: set<string> := {};
    assert none.Keys + (idle + {x}) == {} + {x};
    SeesAnswersFrom(w, g[x], none, idle + {x}, x, q);
  }

  // --------------------------------------- what the first to finish never sees

  /** Every feed's own time is 1, except that of `x`, which is 2. */
  ghost predicate Marked(w: World, x: string) {
    forall n :: n in Universe(Edges(w)) ==> Base(w, n) == if n == x then 2 else 1
  }

  /** Nothing that leads to `c` is memoised, and no time above 1. */
  ghost predicate Low(g: Graph, memo: map<string, int>, c: string) {
    forall n :: n in memo ==> memo[n] <= 1 && !Reaches(g, n, c)
  }

  /** A name that does not lead to `c` never learns the time of one that does. */
  lemma {:induction false} OutsideIsLow(w: World, name: string, memo: map<string, int>, visiting: set<string>,
                                        c: string, x: string)
    requires Marked(w, x) && Reaches(Edges(w), x, c) && Low(Edges(w), memo, c)
    requires name in Universe(Edges(w)) && !Reaches(Edges(w), name, c)
    ensures Resolve(w, name, memo, visiting).ts <= 1 && Low(Edges(w), Resolve(w, name, memo, visiting).memo, c)
    decreases w.sources.Keys - visiting, 1, 0
  {
    var g := Edges(w);
    if name != "" && name !in memo && name !in visiting && Derives(w, name) {
      forall p | p in g[name] ensures p in Universe(g) && !Reaches(g, p, c) {
        assert Edge(g, name, p);
        if Reaches(g, p, c) { ReachesThrough(g, name, p, c); }
      }
      BlockedIsLow(w, g[name], memo, visiting + {name}, c, x);
    }
  }

  /** Nor do parents that lead to `c` but are all being visited, `x` not among
      them. */
  lemma {:induction false} BlockedIsLow(
    w: World, parents: seq<string>, memo: map<string, int>, visiting: set<string>, c: string, x: string)
    requires Marked(w, x) && Reaches(Edges(w), x, c) && Low(Edges(w), memo, c)
    requires forall p :: p in parents ==> p in Universe(Edges(w))
    requires forall p :: p in parents && Reaches(Edges(w), p, c) ==> p in visiting && p != x
    ensures ResolveNewest(w, parents, memo, visiting).ts <= 1
    ensures Low(Edges(w), ResolveNewest(w, parents, memo, visiting).memo, c)
    ensures (exists p :: p in parents && Reaches(Edges(w), p, c)) ==> ResolveNewest(w, parents, memo, visiting).ts == 1
    decreases w.sources.Keys - visiting, 2, |parents|
  {
    if parents != [] {
      var init, last := parents[..|parents| - 1], parents[|parents| - 1];
      BlockedIsLow(w, init, memo, visiting, c, x);
      assert parents == init + [last];
      if Reaches(Edges(w), last, c) {
        LeadsIsKey(Edges(w), last, c);
      } else {
        OutsideIsLow(w, last, ResolveNewest(w, init, memo, visiting).memo, visiting, c, x);
      }
    }
  }

  lemma LeadsIsKey(g: Graph, n: string, c: string)
    requires Reaches(g, n, c)
    ensures n in g && exists p :: p in g[n] && (p == c || Reaches(g, p, c))
  {
    var p :| Walk(g, p) && |p| >= 2 && p[0] == n && p[|p| - 1] == c;
    assert Edge(g, p[0], p[1]);
    if |p| > 2 {
      WalkParts(g, p);
      assert p[1..][0] == p[1] && p[1..][|p| - 2] == c;
    }
  }

  /** With only its own time at 2, `x` is memoised at 1 or less by `name`. */
  ghost predicate FinishesLow(sources: Sources, name: string, visiting: set<string>, c: string, x: string) {
    forall entries, memo :: Marked(World(sources, entries), x) && Low(Descends(sources), memo, c) ==>
      LowIn(Resolve(World(sources, entries), name, memo, visiting).memo, x)
  }

  /** A feed on the way from `name` to `c` that `name` finishes low. */
  ghost predicate FinishedFirst(sources: Sources, name: string, visiting: set<string>, c: string, x: string) {
    && x !in visiting && Reaches(Descends(sources), x, c)
    && (x == name || Reaches(Descends(sources), name, x))
    && FinishesLow(sources, name, visiting, c, x)
  }

  ghost predicate LowIn(memo: map<string, int>, x: string) {
    x in memo && memo[x] <= 1
  }

  ghost predicate LeadsOn(g: Graph, p: string, c: string, visiting: set<string>) {
    Reaches(g, p, c) && p !in visiting
  }

  /** Of the names that lead to `c`, the first to be finished has all its
      parents among them on the way from `c`, and does not see itself. */
  lemma {:induction false} FirstFinished(sources: Sources, name: string, visiting: set<string>, c: string)
    requires NoSelfLoop(Descends(sources)) && Reaches(Descends(sources), c, c)
    requires Reaches(Descends(sources), name, c) && name !in visiting
    ensures exists x :: FinishedFirst(sources, name, visiting, c, x)
    decreases sources.Keys - visiting
  {
    var g := Descends(sources);
    LeadsIsKey(g, name, c);
    var parents := g[name];
    var i := 0;
    while i < |parents| && !LeadsOn(g, parents[i], c, visiting + {name})
      invariant i <= |parents| && forall j :: 0 <= j < i ==> !LeadsOn(g, parents[j], c, visiting + {name})
    {
      i := i + 1;
    }
    if i == |parents| {
      LastIsLow(sources, name, visiting, c);
      assert FinishedFirst(sources, name, visiting, c, name);
    } else {
      FirstFinished(sources, parents[i], visiting + {name}, c);
      var x :| FinishedFirst(sources, parents[i], visiting + {name}, c, x);
      assert Edge(g, name, parents[i]);
      if x == parents[i] { EdgeReaches(g, name, x); } else { ReachesThrough(g, name, parents[i], x); }
      NextIsLow(sources, name, visiting, c, x, i);
      assert FinishedFirst(sources, name, visiting, c, x);
    }
  }

  lemma LastIsLow(sources: Sources, x: string, visiting: set<string>, c: string)
    requires NoSelfLoop(Descends(sources)) && Reaches(Descends(sources), c, c)
    requires Reaches(Descends(sources), x, c) && x !in visiting && x in Descends(sources)
    requires forall p :: p in Descends(sources)[x] ==> !LeadsOn(Descends(sources), p, c, visiting + {x})
    ensures FinishesLow(sources, x, visiting, c, x)
  {
    var g := Descends(sources);
    LeadsIsKey(g, x, c);
    forall entries, memo | Marked(World(sources, entries), x) && Low(g, memo, c)
      ensures LowIn(Resolve(World(sources, entries), x, memo, visiting).memo, x)
    {
      var w := World(sources, entries);
      assert Edges(w) == g;
      forall p | p in g[x] ensures p in Universe(g) && p != x { assert Edge(g, x, p); }
      BlockedIsLow(w, g[x], memo, visiting + {x}, c, x);
    }
  }

  lemma NextIsLow(sources: Sources, name: string, visiting: set<string>, c: string, x: string, i: nat)
    requires Reaches(Descends(sources), x, c) && x !in visiting + {name} && name !in visiting
    requires Reaches(Descends(sources), name, c) && name in Descends(sources) && i < |Descends(sources)[name]|
    requires forall j :: 0 <= j < i ==> !LeadsOn(Descends(sources), Descends(sources)[name][j], c, visiting + {name})
    requires FinishesLow(sources, Descends(sources)[name][i], visiting + {name}, c, x)
    ensures FinishesLow(sources, name, visiting, c, x)
  {
    hide Resolve, ResolveNewest, Reaches, Marked, Low, LeadsOn, Universe;
    forall entries, memo | Marked(World(sources, entries), x) && Low(Descends(sources), memo, c)
      ensures LowIn(Resolve(World(sources, entries), name, memo, visiting).memo, x)
    {
      assert Edges(World(sources, entries)) == Descends(sources);
      NextIsLowIn(World(sources, entries), name, memo, visiting, c, x, i);
    }
  }

  lemma NextIsLowIn(w: World, name: string, memo: map<string, int>, visiting: set<string>, c: string, x: string, i: nat)
    requires Reaches(Edges(w), x, c) && x !in visiting + {name} && name !in visiting
    requires Reaches(Edges(w), name, c) && name in Edges(w) && i < |Edges(w)[name]|
    requires forall j :: 0 <= j < i ==> !LeadsOn(Edges(w), Edges(w)[name][j], c, visiting + {name})
    requires FinishesLow(w.sources, Edges(w)[name][i], visiting + {name}, c, x)
    requires Marked(w, x) && Low(Edges(w), memo, c)
    ensures LowIn(Resolve(w, name, memo, visiting).memo, x)
  {
    hide Resolve, ResolveNewest, Reaches, Marked, Low;
    var g, inside := Edges(w), visiting + {name};
    var parents := g[name];
    forall p | p in parents[..i] ensures p in Universe(g) && (Reaches(g, p, c) ==> p in inside && p != x) {
      assert p in parents && !LeadsOn(g, p, c, inside);
    }
    BlockedIsLow(w, parents[..i], memo, inside, c, x);
    var before := ResolveNewest(w, parents[..i], memo, inside).memo;
    assert w == World(w.sources, w.entries) && Descends(w.sources) == g;
    assert LowIn(Resolve(w, parents[i], before, inside).memo, x);
    OneMoreParent(w, parents, i, memo, inside);
    MemoGrowsAlong(w, parents, i + 1, memo, inside);
    NoMemoStopsIt(w, name, memo, c);
    DescendsInto(w, name, memo, visiting);
  }

  lemma OneMoreParent(w: World, parents: seq<string>, i: nat, memo: map<string, int>, visiting: set<string>)
    requires i < |parents|
    ensures ResolveNewest(w, parents[..i + 1], memo, visiting).memo
         == Resolve(w, parents[i], ResolveNewest(w, parents[..i], memo, visiting).memo, visiting).memo
  {
    assert parents[..i + 1][..i] == parents[..i];
  }

  lemma NoMemoStopsIt(w: World, name: string, memo: map<string, int>, c: string)
    requires Low(Edges(w), memo, c) && Reaches(Edges(w), name, c)
    ensures name !in memo
  {}

  /** What is memoised below a feed that derives stays memoised with it. */
  lemma DescendsInto(w: World, name: string, memo: map<string, int>, visiting: set<string>)
    requires name in Edges(w) && name !in memo && name !in visiting
    ensures
      var below := ResolveNewest(w, Edges(w)[name], memo, visiting + {name}).memo;
      forall x :: x in below && x != name ==>
        x in Resolve(w, name, memo, visiting).memo && Resolve(w, name, memo, visiting).memo[x] == below[x]
  {}

  // -------------------------------------------------------------- the theorem

  lemma MemoAfterOne(w: World, c: string)
    ensures MemoAfter(w, []) == map[] && MemoAfter(w, [c]) == Resolve(w, c, map[], {}).memo
  {
    assert [c][..0] == [];
  }

  lemma MarkedEntries(sources: Sources, x: string)
    requires x in Descends(sources)
    ensures exists w: World :: w.sources == sources && Edges(w) == Descends(sources) && Marked(w, x) && Base(w, x) == 2
  {
    var g := Descends(sources);
    var w := World(sources, map n | n in Universe(g) :: Entry(if n == x then 2 else 1, 0));
    assert Edges(w) == g && Marked(w, x) && Base(w, x) == 2;
  }

  lemma MemoisedAnswer(w: World, memo: map<string, int>, x: string)
    requires x != "" && x in memo
    ensures Resolve(w, x, memo, {}).ts == memo[x]
  {}

  /** Asked after `c`, the first feed finished by `c` misses its own time; asked
      at once, it does not. */
  lemma CycleShows(sources: Sources, c: string)
    requires NoSelfLoop(Descends(sources)) && Reaches(Descends(sources), c, c)
    ensures !OrderNeverMatters(sources)
  {
    hide Resolve, MemoAfter, Edges, Walk, Base, Marked;
    var g := Descends(sources);
    FirstFinished(sources, c, {}, c);
    var x :| FinishedFirst(sources, c, {}, c, x);
    if x != c { ReachesJoined(g, x, c, x); }
    LeadsIsKey(g, x, x);
    KeysAreNamed(sources, x);
    MarkedEntries(sources, x);
    var w: World :| w.sources == sources && Edges(w) == g && Marked(w, x) && Base(w, x) == 2;
    OwnTimeFirst(w, x);
    MemoAfterOne(w, c);
    assert Low(g, MemoAfter(w, []), c);
    assert w == World(sources, w.entries) && LowIn(MemoAfter(w, [c]), x);
    MemoisedAnswer(w, MemoAfter(w, [c]), x);
    assert Resolve(w, x, MemoAfter(w, [c]), {}).ts < Resolve(w, x, MemoAfter(w, []), {}).ts;
  }

  lemma KeysAreNamed(sources: Sources, x: string)
    ensures x in Descends(sources) ==> x != ""
  {}

  lemma ReachesJoined(g: Graph, a: string, b: string, c: string)
    requires Reaches(g, a, b) && Reaches(g, b, c)
    ensures Reaches(g, a, c)
  {
    var p :| Walk(g, p) && |p| >= 2 && p[0] == a && p[|p| - 1] == b;
    var q :| Walk(g, q) && |q| >= 2 && q[0] == b && q[|q| - 1] == c;
    JoinWalks(g, p, q);
    var r := p + q[1..];
    assert r[0] == a && r[|r| - 1] == c;
  }

  /** In a catalog where no merge or window derives from itself, no answer ever
      depends on the order of the queries if and only if merges and windows do
      not derive from each other in a circle. */
  lemma OrderMattersExactlyOnCycles(sources: Sources)
    requires NoSelfLoop(Descends(sources))
    ensures OrderNeverMatters(sources) <==> Acyclic(Descends(sources))
  {
    var g := Descends(sources);
    if Acyclic(g) {
      var rank := AcyclicIsRanked(g);
      forall entries, before, instead, name
        ensures Resolve(World(sources, entries), name, MemoAfter(World(sources, entries), before), {}).ts
             == Resolve(World(sources, entries), name, MemoAfter(World(sources, entries), instead), {}).ts
      {
        assert Edges(World(sources, entries)) == g;
        QueryOrderIrrelevant(World(sources, entries), rank, before, instead, name);
      }
    } else {
      var p :| ClosedWalk(g, p);
      assert Reaches(g, p[0], p[0]);
      CycleShows(sources, p[0]);
    }
  }

  // ---------------------------------------------------------- smallest cycles

  function Loop(parent: string): Source {
    Source("", Plain(""), 0, [], [], [parent], [], [], SecondaryMerge, None, "", 0, "", false, None, "")
  }

  /** The smallest such catalog, which the loader does not let through: asking
      for either end of a two-merge cycle first fixes both answers. */
  lemma CyclicOrderMatters()
    ensures
      var w := World(map["a" := Some(Loop("b")), "b" := Some(Loop("a"))], map["a" := Entry(5, 0), "b" := Entry(7, 0)]);
      Resolve(w, "a", map[], {}).ts == 5 && Resolve(w, "a", MemoAfter(w, ["b"]), {}).ts == 7
  {
    var w := World(map["a" := Some(Loop("b")), "b" := Some(Loop("a"))], map["a" := Entry(5, 0), "b" := Entry(7, 0)]);
    assert ["a"][..0] == [] && ["b"][..0] == [];
    assert ResolveNewest(w, ["a"], map[], {"a", "b"}) == Answer(5, map[]);
    assert {"a"} + {"b"} == {"a", "b"} == {"b"} + {"a"};
    assert Resolve(w, "b", map[], {"a"}) == Answer(5, map["b" := 5]);
    assert ResolveNewest(w, ["b"], map[], {"a"}) == Answer(5, map["b" := 5]);
    assert {} + {"a"} == {"a"} && {} + {"b"} == {"b"};
    assert ResolveNewest(w, ["b"], map[], {"a", "b"}) == Answer(7, map[]);
    assert Resolve(w, "a", map[], {"b"}) == Answer(7, map["a" := 7]);
    assert ResolveNewest(w, ["a"], map[], {"b"}) == Answer(7, map["a" := 7]);
    assert Resolve(w, "b", map[], {}).memo["a"] == 7;
    assert MemoAfter(w, ["b"]) == Resolve(w, "b", MemoAfter(w, []), {}).memo;
  }

  function SelfDerived(): Sources {
    map["a" := Some(Loop("a"))]
  }

  ghost predicate OwnTimes(w: World, memo: map<string, int>) {
    forall n :: n in memo ==> memo[n] == Base(w, n)
  }

  lemma SelfDerivedAnswers(w: World, name: string, memo: map<string, int>)
    requires w.sources == SelfDerived() && OwnTimes(w, memo)
    ensures Resolve(w, name, memo, {}).ts == (if name == "" then 0 else Base(w, name))
    ensures OwnTimes(w, Resolve(w, name, memo, {}).memo)
  {
    if name == "a" && name !in memo {
      var busy: set<string> := {} + {"a"};
      var parents := ["a"];
      assert parents[..|parents| - 1] == [] && parents[|parents| - 1] == "a";
      assert ResolveNewest(w, [], memo, busy) == Answer(0, memo);
      assert Resolve(w, "a", memo, busy) == Answer(Base(w, "a"), memo);
      assert ResolveNewest(w, parents, memo, busy) == Answer(Max(0, Base(w, "a")), memo);
      assert Derives(w, "a") && SourceAt(w.sources, "a").value.derivedFrom == parents;
    }
  }

  lemma {:induction false} SelfDerivedMemo(w: World, queries: seq<string>)
    requires w.sources == SelfDerived()
    ensures OwnTimes(w, MemoAfter(w, queries))
  {
    if queries != [] {
      SelfDerivedMemo(w, queries[..|queries| - 1]);
      SelfDerivedAnswers(w, queries[|queries| - 1], MemoAfter(w, queries[..|queries| - 1]));
    }
  }

  /** A feed that derives from itself alone answers its own time in any order,
      so the class above leaves such feeds out. */
  lemma SelfLoopIsHarmless()
    ensures OrderNeverMatters(SelfDerived()) && !Acyclic(Descends(SelfDerived()))
  {
    forall entries, before, instead, name
      ensures Resolve(World(SelfDerived(), entries), name, MemoAfter(World(SelfDerived(), entries), before), {}).ts
           == Resolve(World(SelfDerived(), entries), name, MemoAfter(World(SelfDerived(), entries), instead), {}).ts
    {
      var w := World(SelfDerived(), entries);
      SelfDerivedMemo(w, before);
      SelfDerivedMemo(w, instead);
      SelfDerivedAnswers(w, name, MemoAfter(w, before));
      SelfDerivedAnswers(w, name, MemoAfter(w, instead));
    }
    assert Edge(Descends(SelfDerived()), "a", "a");
    assert ClosedWalk(Descends(SelfDerived()), ["a", "a"]);
  }
}
