/** Go strings are byte strings; here a string holds one char per byte, so
    the order of `slices.Sort` is the lexicographic order of the chars. */
module Names {

  predicate Leq(a: string, b: string) {
    || a == ""
    || (b != "" && (a[0] < b[0] || (a[0] == b[0] && Leq(a[1..], b[1..]))))
  }

  predicate Less(a: string, b: string) {
    a != b && Leq(a, b)
  }

  lemma {:induction false} LeqReflexive(a: string)
    ensures Leq(a, a)
  {
    if a != "" { LeqReflexive(a[1..]); }
  }

  lemma {:induction false} LeqTotal(a: string, b: string)
    ensures Leq(a, b) || Leq(b, a)
  {
    if a != "" && b != "" { LeqTotal(a[1..], b[1..]); }
  }

  lemma {:induction false} LeqAntisymmetric(a: string, b: string)
    requires Leq(a, b) && Leq(b, a)
    ensures a == b
  {
    if a != "" && b != "" {
      LeqAntisymmetric(a[1..], b[1..]);
      assert a == [a[0]] + a[1..] && b == [b[0]] + b[1..];
    }
  }

  lemma {:induction false} LeqTransitive(a: string, b: string, c: string)
    requires Leq(a, b) && Leq(b, c)
    ensures Leq(a, c)
  {
    if a != "" && b != "" && c != "" && a[0] == b[0] == c[0] {
      LeqTransitive(a[1..], b[1..], c[1..]);
    }
  }

  /** Strictly increasing: sorted and without duplicates. */
  ghost predicate Increasing(s: seq<string>) {
    forall i, j :: 0 <= i < j < |s| ==> Less(s[i], s[j])
  }

  ghost predicate IsLeast(m: string, s: set<string>) {
    m in s && forall x :: x in s ==> Leq(m, x)
  }

  method TakeLeast(s: set<string>) returns (m: string)
    requires s != {}
    ensures IsLeast(m, s)
  {
    var rest := s;
    m :| m in rest;
    rest := rest - {m};
    LeqReflexive(m);
    while rest != {}
      invariant rest <= s
      invariant IsLeast(m, s - rest)
      decreases rest
    {
      var x :| x in rest;
      var done := s - rest;
      assert s - (rest - {x}) == done + {x};
      LeqTotal(m, x);
      if Leq(m, x) {
        forall y | y in done + {x} ensures Leq(m, y) {}
      } else {
        LeqReflexive(x);
        forall y | y in done + {x} ensures Leq(x, y) {
          if y in done { LeqTransitive(x, m, y); }
        }
        m := x;
      }
      rest := rest - {x};
    }
    assert s - rest == s;
  }

  /** The keys of a Go map, collected and sorted. */
  method SortedKeys(s: set<string>) returns (names: seq<string>)
    ensures Increasing(names)
    ensures forall n :: n in names <==> n in s
  {
    names := [];
    var rest := s;
    while rest != {}
      invariant rest <= s
      invariant Increasing(names)
      invariant forall n :: n in names <==> n in s - rest
      invariant forall n, r :: n in names && r in rest ==> Less(n, r)
      decreases rest
    {
      var m := TakeLeast(rest);
      var grown := names + [m];
      forall i, j | 0 <= i < j < |grown| ensures Less(grown[i], grown[j]) {
        if j == |names| { assert grown[i] in names; }
      }
      forall n, r | n in grown && r in rest - {m} ensures Less(n, r) {
        if n == m { assert Leq(m, r); }
      }
      names, rest := grown, rest - {m};
    }
  }

  lemma IncreasingDistinct(s: seq<string>)
    requires Increasing(s)
    ensures forall i, j :: 0 <= i < j < |s| ==> s[i] != s[j]
  {}

  /** Two increasing listings of the same set are the same list. */
  lemma {:induction false} IncreasingUnique(a: seq<string>, b: seq<string>)
    requires Increasing(a) && Increasing(b)
    requires forall n :: n in a <==> n in b
    ensures a == b
  {
    assert b == [] || b[0] in b;
    if a != [] {
      assert a[0] in a;
      LeastHead(a);
      LeastHead(b);
      LeqAntisymmetric(a[0], b[0]);
      forall n ensures n in a[1..] <==> n in b[1..] {
        TailMembers(a, n);
        TailMembers(b, n);
      }
      IncreasingUnique(a[1..], b[1..]);
      assert a == [a[0]] + a[1..] && b == [b[0]] + b[1..];
    }
  }

  lemma LeastHead(s: seq<string>)
    requires Increasing(s) && s != []
    ensures forall n :: n in s ==> Leq(s[0], n)
  {
    LeqReflexive(s[0]);
  }

  lemma TailMembers(s: seq<string>, n: string)
    requires Increasing(s) && s != []
    ensures n in s[1..] <==> n in s && n != s[0]
  {
    if n in s && n != s[0] {
      var i :| 0 <= i < |s| && s[i] == n;
      assert s[1..][i - 1] == n;
    }
    if n in s[1..] {
      var i :| 0 <= i < |s[1..]| && s[1..][i] == n;
      assert Less(s[0], s[i + 1]);
    }
  }

  // ---------------------------------------------------- the first name seen

  /** `name` is the first of the names that is not empty, or empty if all are. */
  ghost predicate FirstNonEmpty(name: string, names: seq<string>) {
    if name == "" then forall i :: 0 <= i < |names| ==> names[i] == ""
    else exists i :: 0 <= i < |names| && names[i] == name && forall j :: 0 <= j < i ==> names[j] == ""
  }

  lemma OneMoreName(name: string, names: seq<string>, next: string)
    requires FirstNonEmpty(name, names)
    ensures FirstNonEmpty(if name == "" then next else name, names + [next])
  {
    var grown := names + [next];
    if name != "" {
      var i :| 0 <= i < |names| && names[i] == name && forall j :: 0 <= j < i ==> names[j] == "";
      assert grown[i] == name && forall j :: 0 <= j < i ==> grown[j] == "";
    } else if next != "" {
      assert grown[|names|] == next && forall j :: 0 <= j < |names| ==> grown[j] == "";
    }
  }

  /** Only one name is the first. */
  lemma FirstNonEmptyUnique(a: string, b: string, names: seq<string>)
    requires FirstNonEmpty(a, names) && FirstNonEmpty(b, names)
    ensures a == b
  {}
}
