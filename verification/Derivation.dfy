/** The derived-from graph and its cycle detector (pkg/config/dependents.go).
    A node is a source name; its edges are the parents it declares. Parents
    that name no source are nodes without edges. */
module Derivation {
  import opened Names

  type Graph = map<string, seq<string>>

  function Parents(g: Graph, n: string): seq<string> {
    if n in g then g[n] else []
  }

  ghost predicate Edge(g: Graph, a: string, b: string) {
    b in Parents(g, a)
  }

  ghost predicate Walk(g: Graph, p: seq<string>) {
    p != [] && forall i :: 0 <= i < |p| - 1 ==> Edge(g, p[i], p[i + 1])
  }

  /** A cycle: at least one edge, ending where it starts (a self-loop counts). */
  ghost predicate ClosedWalk(g: Graph, p: seq<string>) {
    |p| >= 2 && Walk(g, p) && p[0] == p[|p| - 1]
  }

  ghost predicate Acyclic(g: Graph) {
    forall p :: !ClosedWalk(g, p)
  }

  lemma PrependWalk(g: Graph, n: string, p: seq<string>)
    requires Walk(g, p) && Edge(g, n, p[0])
    ensures Walk(g, [n] + p)
  {
    var q := [n] + p;
    forall i | 0 <= i < |q| - 1 ensures Edge(g, q[i], q[i + 1]) {
      if i > 0 { assert Edge(g, p[i - 1], p[i]); }
    }
  }

  lemma WalkParts(g: Graph, p: seq<string>)
    requires Walk(g, p) && |p| >= 2
    ensures Walk(g, p[1..]) && Edge(g, p[0], p[1])
    ensures Walk(g, p[..|p| - 1]) && Edge(g, p[|p| - 2], p[|p| - 1])
  {
    var tail, front := p[1..], p[..|p| - 1];
    forall i | 0 <= i < |tail| - 1 ensures Edge(g, tail[i], tail[i + 1]) { assert Edge(g, p[i + 1], p[i + 2]); }
    forall i | 0 <= i < |front| - 1 ensures Edge(g, front[i], front[i + 1]) { assert Edge(g, p[i], p[i + 1]); }
    assert Edge(g, p[0], p[1]) && Edge(g, p[|p| - 2], p[|p| - 1]);
  }

  lemma SubWalk(g: Graph, p: seq<string>, i: nat, j: nat)
    requires Walk(g, p) && i < j <= |p|
    ensures Walk(g, p[i..j])
  {
    var q := p[i..j];
    forall k | 0 <= k < |q| - 1 ensures Edge(g, q[k], q[k + 1]) { assert Edge(g, p[i + k], p[i + k + 1]); }
  }

  /** A walk of at least one edge. */
  ghost predicate Reaches(g: Graph, a: string, b: string) {
    exists p :: Walk(g, p) && |p| >= 2 && p[0] == a && p[|p| - 1] == b
  }

  lemma EdgeReaches(g: Graph, a: string, b: string)
    requires Edge(g, a, b)
    ensures Reaches(g, a, b)
  {
    assert Walk(g, [a, b]) && [a, b][0] == a;
  }

  lemma ReachesOneMore(g: Graph, a: string, b: string, c: string)
    requires Reaches(g, a, b) && Edge(g, b, c)
    ensures Reaches(g, a, c)
  {
    var p :| Walk(g, p) && |p| >= 2 && p[0] == a && p[|p| - 1] == b;
    var q := p + [c];
    forall i | 0 <= i < |q| - 1 ensures Edge(g, q[i], q[i + 1]) {
      if i < |p| - 1 { assert Edge(g, p[i], p[i + 1]); }
    }
    assert Walk(g, q) && q[0] == a && q[|q| - 1] == c;
  }

  lemma ReachesThrough(g: Graph, a: string, b: string, c: string)
    requires Edge(g, a, b) && Reaches(g, b, c)
    ensures Reaches(g, a, c)
  {
    var p :| Walk(g, p) && |p| >= 2 && p[0] == b && p[|p| - 1] == c;
    PrependWalk(g, a, p);
    assert ([a] + p)[0] == a && ([a] + p)[|p|] == c;
  }

  lemma JoinWalks(g: Graph, p: seq<string>, q: seq<string>)
    requires Walk(g, p) && Walk(g, q) && p[|p| - 1] == q[0]
    ensures Walk(g, p + q[1..])
  {
    var r := p + q[1..];
    forall i | 0 <= i < |r| - 1 ensures Edge(g, r[i], r[i + 1]) {
      if i < |p| - 1 { assert Edge(g, p[i], p[i + 1]); } else { assert Edge(g, q[i - |p| + 1], q[i - |p| + 2]); }
    }
  }

  /** A certificate of acyclicity: every edge leads to a strictly smaller rank. */
  ghost predicate Ranked(g: Graph, rank: map<string, nat>) {
    forall n | n in g ::
      n in rank && forall m | m in g[n] :: m in rank && rank[m] < rank[n]
  }

  lemma {:induction false} RankFallsAlongWalk(g: Graph, rank: map<string, nat>, p: seq<string>)
    requires Ranked(g, rank) && Walk(g, p) && |p| >= 2
    ensures p[0] in rank && p[|p| - 1] in rank && rank[p[|p| - 1]] < rank[p[0]]
  {
    WalkParts(g, p);
    if |p| > 2 { RankFallsAlongWalk(g, rank, p[1..]); }
  }

  lemma RankedIsAcyclic(g: Graph, rank: map<string, nat>)
    requires Ranked(g, rank)
    ensures Acyclic(g)
  {
    forall p ensures !ClosedWalk(g, p) {
      if ClosedWalk(g, p) { RankFallsAlongWalk(g, rank, p); }
    }
  }

  // ------------------------------------------- acyclic graphs have a ranking

  lemma {:induction false} WalkStaysInside(g: Graph, p: seq<string>)
    requires Walk(g, p) && p[0] in Universe(g)
    ensures forall i :: 0 <= i < |p| ==> p[i] in Universe(g)
  {
    if |p| > 1 {
      WalkParts(g, p);
      WalkStaysInside(g, p[1..]);
    }
  }

  lemma {:induction false} DistinctFits<T(!new)>(p: seq<T>, names: set<T>)
    requires forall i :: 0 <= i < |p| ==> p[i] in names
    requires forall i, j :: 0 <= i < j < |p| ==> p[i] != p[j]
    ensures |p| <= |names|
  {
    if p != [] {
      var last := p[|p| - 1];
      DistinctFits(p[..|p| - 1], names - {last});
    }
  }

  /** No walk of an acyclic graph is longer than there are names. */
  lemma WalksAreShort(g: Graph, p: seq<string>)
    requires Acyclic(g) && Walk(g, p) && p[0] in Universe(g)
    ensures |p| <= |Universe(g)|
  {
    forall i, j | 0 <= i < j < |p| ensures p[i] != p[j] {
      SubWalk(g, p, i, j + 1);
      assert !ClosedWalk(g, p[i..j + 1]);
    }
    WalkStaysInside(g, p);
    DistinctFits(p, Universe(g));
  }

  ghost predicate WalkFrom(g: Graph, n: string, length: nat) {
    exists p :: Walk(g, p) && p[0] == n && |p| == length
  }

  /** The length of the longest walk from `n` within the bound. */
  ghost function Longest(g: Graph, n: string, bound: nat): nat {
    if bound == 0 || WalkFrom(g, n, bound) then bound else Longest(g, n, bound - 1)
  }

  lemma {:induction false} LongestIsGreatest(g: Graph, n: string, bound: nat, length: nat)
    requires length <= bound && WalkFrom(g, n, length)
    ensures length <= Longest(g, n, bound)
  {
    if bound > 0 && !WalkFrom(g, n, bound) { LongestIsGreatest(g, n, bound - 1, length); }
  }

  lemma {:induction false} LongestIsWalk(g: Graph, n: string, bound: nat)
    ensures Longest(g, n, bound) <= bound && (Longest(g, n, bound) > 0 ==> WalkFrom(g, n, Longest(g, n, bound)))
  {
    if bound > 0 && !WalkFrom(g, n, bound) { LongestIsWalk(g, n, bound - 1); }
  }

  /** Ranked by their longest walks, the names of an acyclic graph fall along
      every edge. */
  lemma AcyclicIsRanked(g: Graph) returns (rank: map<string, nat>)
    requires Acyclic(g)
    ensures Ranked(g, rank)
  {
    var bound := |Universe(g)|;
    rank := map n | n in Universe(g) :: Longest(g, n, bound);
    forall n, m | n in g && m in Parents(g, n) ensures m in rank && Longest(g, m, bound) < Longest(g, n, bound) {
      assert Edge(g, n, m);
      LongestIsWalk(g, m, bound);
      assert Walk(g, [n, m]) && [n, m][0] == n;
      WalksAreShort(g, [n, m]);
      LongestIsGreatest(g, n, bound, 2) by { assert |[n, m]| == 2; }
      if Longest(g, m, bound) > 0 {
        var p :| Walk(g, p) && p[0] == m && |p| == Longest(g, m, bound);
        PrependWalk(g, n, p);
        WalksAreShort(g, [n] + p);
        LongestIsGreatest(g, n, bound, |p| + 1) by { assert ([n] + p)[0] == n; }
      }
    }
  }

  /** Every name the search can meet. */
  function Universe(g: Graph): set<string> {
    g.Keys + set n, m | n in g && m in g[n] :: m
  }

  lemma ParentsInUniverse(g: Graph, n: string, m: string)
    requires Edge(g, n, m)
    ensures m in Universe(g)
  {
    assert n in g && m in g[n];
  }

  ghost predicate Keeps(older: map<string, nat>, newer: map<string, nat>) {
    forall n :: n in older ==> n in newer && newer[n] == older[n]
  }

  datatype Color = White | Grey | Black

  function ColorIn(color: map<string, Color>, n: string): Color {
    if n in color then color[n] else White
  }

  /** The stack is a path of distinct names, the grey ones. */
  ghost predicate GreyPath(g: Graph, stack: seq<string>, color: map<string, Color>) {
    && (forall i :: 0 <= i < |stack| - 1 ==> Edge(g, stack[i], stack[i + 1]))
    && (forall i, j :: 0 <= i < j < |stack| ==> stack[i] != stack[j])
    && (forall n :: n in stack <==> ColorIn(color, n) == Grey)
  }

  /** The black names were ranked before `clock`, below them only lower ones
      unless a cycle was found. */
  ghost predicate BlackRanked(g: Graph, color: map<string, Color>, rank: map<string, nat>, clock: nat, cyclic: bool) {
    && (forall n :: n in rank <==> ColorIn(color, n) == Black)
    && (forall n :: n in rank ==> rank[n] < clock)
    && (!cyclic ==> forall n, m :: n in rank && Edge(g, n, m) ==> m in rank && rank[m] < rank[n])
  }

  lemma PushedPath(g: Graph, stack: seq<string>, color: map<string, Color>, name: string)
    requires GreyPath(g, stack, color) && ColorIn(color, name) != Grey
    requires stack != [] ==> Edge(g, stack[|stack| - 1], name)
    ensures GreyPath(g, stack + [name], color[name := Grey])
  {
    hide Edge;
    var longer := stack + [name];
    assert forall i :: 0 <= i < |stack| ==> longer[i] == stack[i] && stack[i] in stack;
    assert longer[|stack|] == name && name !in stack;
    assert forall n :: n in longer <==> n in stack || n == name;
  }

  lemma PoppedPath(g: Graph, stack: seq<string>, color: map<string, Color>, name: string)
    requires GreyPath(g, stack, color) && stack != [] && stack[|stack| - 1] == name
    ensures GreyPath(g, stack[..|stack| - 1], color[name := Black]) && ColorIn(color, name) == Grey
  {
    hide Edge;
    var shorter := stack[..|stack| - 1];
    DropLast(stack);
    assert forall i :: 0 <= i < |shorter| ==> shorter[i] == stack[i];
    assert name in stack;
    var popped := color[name := Black];
    assert forall n :: n in shorter <==> ColorIn(popped, n) == Grey by {
      assert forall n :: n != name ==> ColorIn(popped, n) == ColorIn(color, n);
    }
  }

  /** Only grey turns black here: what is in the ranking stays what it was. */
  lemma GreyedRanked(g: Graph, color: map<string, Color>, rank: map<string, nat>, clock: nat, cyclic: bool,
                     name: string)
    requires BlackRanked(g, color, rank, clock, cyclic) && ColorIn(color, name) == White
    ensures BlackRanked(g, color[name := Grey], rank, clock, cyclic)
  {
    hide Edge;
  }

  lemma BlackIsRanked(g: Graph, color: map<string, Color>, rank: map<string, nat>, clock: nat, cyclic: bool)
    requires BlackRanked(g, color, rank, clock, cyclic)
    ensures forall n :: n in rank <==> ColorIn(color, n) == Black
  {}

  lemma DropLast(s: seq<string>)
    requires s != [] && forall i, j :: 0 <= i < j < |s| ==> s[i] != s[j]
    ensures forall n :: n in s[..|s| - 1] <==> n in s && n != s[|s| - 1]
  {}

  lemma BlackenedRanked(g: Graph, color: map<string, Color>, rank: map<string, nat>, clock: nat, cyclic: bool,
                        name: string)
    requires BlackRanked(g, color, rank, clock, cyclic) && ColorIn(color, name) == Grey
    requires !cyclic ==> forall m :: Edge(g, name, m) ==> m in rank
    ensures BlackRanked(g, color[name := Black], rank[name := clock], clock + 1, cyclic)
    ensures Keeps(rank, rank[name := clock])
  {
    hide Edge;
  }

  /** The closure state of `DetectCycles`: colours, the explicit stack and the
      cycles found so far. `rank` records, in finishing order, why the black
      part of the graph is acyclic while no cycle has been found. */
  class CycleSearch {
    const graph: Graph
    var color: map<string, Color>
    var stack: seq<string>
    var cycles: seq<seq<string>>
    ghost var rank: map<string, nat>
    ghost var clock: nat

    constructor (g: Graph)
      ensures Valid() && graph == g && stack == [] && cycles == [] && color == map[]
    {
      graph := g;
      color, stack, cycles := map[], [], [];
      rank, clock := map[], 0;
    }

    function ColorOf(n: string): Color
      reads this
    {
      ColorIn(color, n)
    }

    ghost predicate Valid()
      reads this
    {
      && GreyPath(graph, stack, color)
      && BlackRanked(graph, color, rank, clock, cycles != [])
      && (forall n :: n in color ==> color[n] != White)
      && (forall c :: c in cycles ==> ClosedWalk(graph, c))
    }

    /** What one visit may do to the state: blacken more nodes and report more
        cycles, leaving the stack and everything already finished alone. */
    twostate predicate Extended()
      reads this
    {
      && stack == old(stack)
      && old(color).Keys <= color.Keys
      && Keeps(old(rank), rank)
      && old(cycles) <= cycles
    }

    method Visit(name: string) returns (found: bool)
      requires Valid() && name in Universe(graph)
      requires stack != [] ==> Edge(graph, stack[|stack| - 1], name)
      modifies this
      ensures Valid() && Extended()
      ensures found <==> old(ColorOf(name)) == Grey
      ensures ColorOf(name) == Black || cycles != []
      ensures old(ColorOf(name)) == White ==> ColorOf(name) == Black
      decreases Universe(graph) - color.Keys, 0
    {
      hide GreyPath, BlackRanked, ClosedWalk, Universe, Edge;
      if ColorOf(name) == Grey {
        ReportCycle(name);
        return true;
      }
      if ColorOf(name) == Black {
        return false;
      }
      Push(name);
      VisitParents(name);
      Pop(name);
      return false;
    }

    /** The loop over `src.DerivedFrom` inside a visit. */
    method VisitParents(name: string)
      requires Valid() && stack != [] && stack[|stack| - 1] == name
      modifies this
      ensures Valid() && Extended()
      ensures cycles == [] ==> forall m :: Edge(graph, name, m) ==> m in rank
      decreases Universe(graph) - color.Keys, 1
    {
      hide GreyPath, BlackRanked, ClosedWalk, Universe;
      var parents := Parents(graph, name);
      for i := 0 to |parents|
        invariant Valid() && Extended()
        invariant cycles == [] ==> forall j :: 0 <= j < i ==> parents[j] in rank
      {
        ParentsInUniverse(graph, name, parents[i]);
        ghost var before := rank;
        var _ := Visit(parents[i]);
        assert Keeps(before, rank);
        BlackIsRanked(graph, color, rank, clock, cycles != []);
      }
    }

    method ReportCycle(name: string)
      requires Valid() && ColorOf(name) == Grey
      requires stack != [] ==> Edge(graph, stack[|stack| - 1], name)
      modifies this`cycles
      ensures Valid() && old(cycles) < cycles
    {
      for i := 0 to |stack|
        invariant forall j :: 0 <= j < i ==> stack[j] != name
        invariant cycles == old(cycles)
      {
        if stack[i] == name {
          var cycle := stack[i..] + [name];
          forall k | 0 <= k < |cycle| - 1 ensures Edge(graph, cycle[k], cycle[k + 1]) {
            if k < |cycle| - 2 { assert Edge(graph, stack[i + k], stack[i + k + 1]); }
          }
          cycles := cycles + [cycle];
          return;
        }
      }
    }

    method Push(name: string)
      requires Valid() && ColorOf(name) == White
      requires stack != [] ==> Edge(graph, stack[|stack| - 1], name)
      modifies this`color, this`stack
      ensures Valid()
      ensures stack == old(stack) + [name] && color.Keys == old(color).Keys + {name}
      ensures forall n :: n != name ==> ColorOf(n) == old(ColorOf(n))
    {
      hide Edge, ClosedWalk, GreyPath, BlackRanked;
      PushedPath(graph, stack, color, name);
      GreyedRanked(graph, color, rank, clock, cycles != [], name);
      color := color[name := Grey];
      stack := stack + [name];
    }

    method Pop(name: string)
      requires Valid() && stack != [] && stack[|stack| - 1] == name
      requires cycles == [] ==> forall m :: Edge(graph, name, m) ==> m in rank
      modifies this`color, this`stack, this`rank, this`clock
      ensures Valid()
      ensures stack == old(stack)[..|old(stack)| - 1] && ColorOf(name) == Black
      ensures forall n :: n != name ==> ColorOf(n) == old(ColorOf(n))
      ensures color.Keys == old(color).Keys
      ensures Keeps(old(rank), rank)
    {
      hide Edge, ClosedWalk, GreyPath, BlackRanked, Keeps;
      PoppedPath(graph, stack, color, name);
      BlackenedRanked(graph, color, rank, clock, cycles != [], name);
      stack := stack[..|stack| - 1];
      color := color[name := Black];
      rank := rank[name := clock];
      clock := clock + 1;
    }
  }

  /** `DetectCycles`: the cycles listed in its error, none when it returns nil. */
  method DetectCycles(g: Graph) returns (cycles: seq<seq<string>>, ghost rank: map<string, nat>)
    ensures cycles == [] <==> Acyclic(g)
    ensures cycles == [] ==> Ranked(g, rank)
    ensures forall c :: c in cycles ==> ClosedWalk(g, c)
  {
    var search := new CycleSearch(g);
    var names := SortedKeys(g.Keys);
    for i := 0 to |names|
      invariant search.Valid() && search.stack == []
      invariant forall j :: 0 <= j < i ==> search.ColorOf(names[j]) == Black
    {
      assert names[i] !in search.stack;
      if search.ColorOf(names[i]) == White {
        assert names[i] in g.Keys;
        var _ := search.Visit(names[i]);
      }
    }
    cycles, rank := search.cycles, search.rank;
    if cycles == [] {
      forall n | n in g ensures n in rank && forall m | m in g[n] :: m in rank && rank[m] < rank[n] {
        assert n in names;
        assert forall m | m in g[n] :: Edge(g, n, m);
      }
      RankedIsAcyclic(g, rank);
    } else {
      assert cycles[0] in cycles;
    }
  }
}
