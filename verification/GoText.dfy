/** Go's text functions on byte strings (one char per byte): `strings.TrimSpace`
    and `strings.Fields`, which recognise the Unicode White_Space characters in
    their UTF-8 encoding, upper-casing, and decimal numbers. */
module GoText {
  import opened Wrappers

  /** A Go string: one char per byte. */
  ghost predicate Bytes(s: string) {
    forall i :: 0 <= i < |s| ==> (s[i] as int) < 256
  }

  function Byte(s: string, i: nat): int
    requires i < |s|
  {
    s[i] as int
  }

  predicate AsciiSpace(b: int) {
    9 <= b <= 13 || b == 32
  }

  /** U+0085 and U+00A0. */
  predicate TwoByteSpace(a: int, b: int) {
    a == 0xC2 && (b == 0x85 || b == 0xA0)
  }

  /** U+1680, U+2000 to U+200A, U+2028, U+2029, U+202F, U+205F and U+3000. */
  predicate ThreeByteSpace(a: int, b: int, c: int) {
    || (a == 0xE1 && b == 0x9A && c == 0x80)
    || (a == 0xE2 && b == 0x80 && (0x80 <= c <= 0x8A || c == 0xA8 || c == 0xA9 || c == 0xAF))
    || (a == 0xE2 && b == 0x81 && c == 0x9F)
    || (a == 0xE3 && b == 0x80 && c == 0x80)
  }

  /** The width of the white-space character at the front, 0 if there is none. */
  function LeadSpace(s: string): (n: nat)
    ensures n <= |s|
  {
    if |s| >= 1 && AsciiSpace(Byte(s, 0)) then 1
    else if |s| >= 2 && TwoByteSpace(Byte(s, 0), Byte(s, 1)) then 2
    else if |s| >= 3 && ThreeByteSpace(Byte(s, 0), Byte(s, 1), Byte(s, 2)) then 3
    else 0
  }

  /** The width of the white-space character at the end, 0 if there is none. */
  function TrailSpace(s: string): (n: nat)
    ensures n <= |s|
  {
    if |s| >= 1 && AsciiSpace(Byte(s, |s| - 1)) then 1
    else if |s| >= 2 && TwoByteSpace(Byte(s, |s| - 2), Byte(s, |s| - 1)) then 2
    else if |s| >= 3 && ThreeByteSpace(Byte(s, |s| - 3), Byte(s, |s| - 2), Byte(s, |s| - 1)) then 3
    else 0
  }

  // ------------------------------------------------ which characters these are

  /** The UTF-8 encoding of a code point below U+10000 (RFC 3629, section 3). */
  function Utf8(p: nat): string
    requires p < 0x1_0000
  {
    if p < 0x80 then [p as char]
    else if p < 0x800 then [(0xC0 + p / 64) as char, (0x80 + p % 64) as char]
    else [(0xE0 + p / 4096) as char, (0x80 + p / 64 % 64) as char, (0x80 + p % 64) as char]
  }

  /** The code points with the Unicode property White_Space. */
  predicate WhiteSpace(p: nat) {
    || 9 <= p <= 13 || p == 0x20 || p == 0x85 || p == 0xA0 || p == 0x1680 || 0x2000 <= p <= 0x200A
    || p == 0x2028 || p == 0x2029 || p == 0x202F || p == 0x205F || p == 0x3000
  }

  lemma SpaceAtFront(s: string, p: nat)
    requires p < 0x1_0000 && WhiteSpace(p) && Utf8(p) <= s
    ensures LeadSpace(s) == |Utf8(p)|
  {
    assert forall i :: 0 <= i < |Utf8(p)| ==> s[i] == Utf8(p)[i];
  }

  lemma FrontIsSpace(s: string) returns (p: nat)
    requires LeadSpace(s) > 0
    ensures p < 0x1_0000 && WhiteSpace(p) && Utf8(p) == s[..LeadSpace(s)]
  {
    if LeadSpace(s) == 1 {
      p := Byte(s, 0);
    } else if LeadSpace(s) == 2 {
      p := Byte(s, 1);
    } else {
      p := (Byte(s, 0) - 0xE0) * 4096 + (Byte(s, 1) - 0x80) * 64 + (Byte(s, 2) - 0x80);
    }
  }

  /** What is trimmed and split at is the encoding of a White_Space character. */
  lemma LeadSpaceIsWhiteSpace(s: string)
    ensures LeadSpace(s) > 0 <==> exists p: nat :: p < 0x1_0000 && WhiteSpace(p) && Utf8(p) <= s
  {
    if LeadSpace(s) > 0 {
      var p := FrontIsSpace(s);
    }
    if p: nat :| p < 0x1_0000 && WhiteSpace(p) && Utf8(p) <= s {
      SpaceAtFront(s, p);
    }
  }

  lemma TrailSpaceIsWhiteSpace(s: string)
    ensures TrailSpace(s) > 0 <==>
      exists p: nat :: p < 0x1_0000 && WhiteSpace(p) && |Utf8(p)| <= |s| && s[|s| - |Utf8(p)|..] == Utf8(p)
  {
    if TrailSpace(s) > 0 {
      EndIsSpace(s);
    }
    if p: nat :| p < 0x1_0000 && WhiteSpace(p) && |Utf8(p)| <= |s| && s[|s| - |Utf8(p)|..] == Utf8(p) {
      SpaceAtEnd(s, p);
    }
  }

  lemma SpaceAtEnd(s: string, p: nat)
    requires p < 0x1_0000 && WhiteSpace(p) && |Utf8(p)| <= |s| && s[|s| - |Utf8(p)|..] == Utf8(p)
    ensures TrailSpace(s) > 0
  {
    var t := s[|s| - |Utf8(p)|..];
    assert forall i :: |s| - |t| <= i < |s| ==> s[i] == t[i - (|s| - |t|)];
  }

  lemma EndIsSpace(s: string)
    requires TrailSpace(s) > 0
    ensures exists p: nat :: p < 0x1_0000 && WhiteSpace(p) && |Utf8(p)| <= |s| && s[|s| - |Utf8(p)|..] == Utf8(p)
  {
    var n := TrailSpace(s);
    var t := s[|s| - n..];
    assert forall i :: 0 <= i < n ==> t[i] == s[|s| - n + i];
    assert LeadSpace(t) == n && t[..n] == t;
    var p := FrontIsSpace(t);
    assert |Utf8(p)| == n;
  }

  /** White-space characters only, one after the other. */
  ghost predicate Blank(s: string)
    decreases |s|
  {
    s == "" || (LeadSpace(s) > 0 && Blank(s[LeadSpace(s)..]))
  }

  lemma {:induction false} BlankEnd(a: string, b: string)
    requires Blank(a) && Blank(b)
    ensures Blank(a + b)
    decreases |a|
  {
    if a == "" {
      assert a + b == b;
    } else {
      var n := LeadSpace(a);
      assert (a + b)[n..] == a[n..] + b;
      LeadsOn(a, b);
      BlankEnd(a[n..], b);
    }
  }

  lemma LeadsOn(a: string, b: string)
    requires LeadSpace(a) > 0
    ensures LeadSpace(a + b) == LeadSpace(a)
  {
    var p := FrontIsSpace(a);
    assert Utf8(p) <= a + b by { assert (a + b)[..LeadSpace(a)] == a[..LeadSpace(a)]; }
    SpaceAtFront(a + b, p);
    SpaceAtFront(a, p);
  }

  function TrimLeft(s: string): (t: string)
    ensures LeadSpace(t) == 0
  {
    if LeadSpace(s) > 0 then TrimLeft(s[LeadSpace(s)..]) else s
  }

  function TrimRight(s: string): (t: string)
    ensures TrailSpace(t) == 0 && t <= s
  {
    if TrailSpace(s) > 0 then TrimRight(s[..|s| - TrailSpace(s)]) else s
  }

  function TrimSpace(s: string): string {
    TrimRight(TrimLeft(s))
  }

  lemma TrimIdempotent(s: string)
    ensures TrimSpace(TrimSpace(s)) == TrimSpace(s)
  {}

  lemma {:induction false} LeftTrimmed(s: string) returns (a: string)
    ensures Blank(a) && s == a + TrimLeft(s)
    decreases |s|
  {
    hide LeadSpace, Blank;
    var n := LeadSpace(s);
    if n == 0 {
      a := "";
      NothingIsBlank();
    } else {
      var b := LeftTrimmed(s[n..]);
      a := s[..n] + b;
      OneBlank(s);
      BlankEnd(s[..n], b);
      Regrouped(s[..n], b, TrimLeft(s[n..]));
      assert s == s[..n] + s[n..];
    }
  }

  lemma NothingIsBlank()
    ensures Blank("")
  {}

  lemma Regrouped(a: string, b: string, c: string)
    ensures a + (b + c) == a + b + c
  {}

  lemma OneBlank(s: string)
    requires LeadSpace(s) > 0
    ensures Blank(s[..LeadSpace(s)])
  {
    var p := FrontIsSpace(s);
    var t := s[..LeadSpace(s)];
    SpaceAtFront(t, p);
    assert t[|t|..] == "";
  }

  lemma {:induction false} RightTrimmed(s: string) returns (b: string)
    ensures Blank(b) && s == TrimRight(s) + b
    decreases |s|
  {
    hide LeadSpace, TrailSpace, Blank;
    var n := TrailSpace(s);
    if n == 0 {
      b := "";
      NothingIsBlank();
    } else {
      var c := RightTrimmed(s[..|s| - n]);
      LastBlank(s);
      b := c + s[|s| - n..];
      BlankEnd(c, s[|s| - n..]);
      Regrouped(TrimRight(s[..|s| - n]), c, s[|s| - n..]);
      assert s == s[..|s| - n] + s[|s| - n..];
    }
  }

  lemma LastBlank(s: string)
    requires TrailSpace(s) > 0
    ensures Blank(s[|s| - TrailSpace(s)..])
  {
    var t := s[|s| - TrailSpace(s)..];
    assert forall i :: |s| - |t| <= i < |s| ==> s[i] == t[i - (|s| - |t|)];
    assert LeadSpace(t) == |t| && t[|t|..] == "";
  }

  /** Trimming takes white space off both ends, all of it, and nothing else. */
  lemma TrimSpaceIs(s: string) returns (a: string, b: string)
    ensures Blank(a) && Blank(b) && s == a + TrimSpace(s) + b
    ensures LeadSpace(TrimSpace(s)) == 0 && TrailSpace(TrimSpace(s)) == 0
  {
    hide LeadSpace, TrailSpace, Blank;
    a := LeftTrimmed(s);
    b := RightTrimmed(TrimLeft(s));
    var t, u := TrimSpace(s), TrimLeft(s);
    if LeadSpace(t) > 0 {
      assert u == t + b;
      LeadsOn(t, b);
      assert false;
    }
  }

  // ------------------------------------------------------------------ fields

  /** The length of the leading run of bytes at which no white space starts. */
  function TokenLength(s: string): (n: nat)
    ensures n <= |s|
    ensures s != "" && LeadSpace(s) == 0 ==> n > 0
    ensures n < |s| ==> LeadSpace(s[n..]) > 0
    ensures forall i :: 0 <= i < n ==> LeadSpace(s[i..]) == 0
  {
    if s == "" || LeadSpace(s) > 0 then 0
    else
      assert forall i :: 0 < i < |s| ==> s[i..] == s[1..][i - 1..];
      1 + TokenLength(s[1..])
  }

  function Fields(s: string): seq<string>
    decreases |s|
  {
    if s == "" then []
    else if LeadSpace(s) > 0 then Fields(s[LeadSpace(s)..])
    else [s[..TokenLength(s)]] + Fields(s[TokenLength(s)..])
  }

  /** `strings.Join(fields, " ")`. */
  function JoinSpace(fields: seq<string>): string {
    if |fields| == 0 then ""
    else if |fields| == 1 then fields[0]
    else fields[0] + " " + JoinSpace(fields[1..])
  }

  /** The text with its fields in order: white space before, between and after
      them, at least one such character between any two. */
  ghost predicate Woven(s: string, fields: seq<string>)
    decreases |fields|
  {
    if fields == [] then Blank(s)
    else
      exists gap, rest ::
        && s == gap + fields[0] + rest && Blank(gap) && IsToken(fields[0])
        && (rest == "" || LeadSpace(rest) > 0) && Woven(rest, fields[1..])
  }

  /** Splitting loses nothing but white space and splits nowhere else. */
  lemma {:induction false} FieldsWoven(s: string)
    ensures Woven(s, Fields(s))
    decreases |s|
  {
    hide LeadSpace, TokenLength, Woven, IsToken;
    if s == "" {
      NothingWoven();
    } else if LeadSpace(s) > 0 {
      var n := LeadSpace(s);
      FieldsWoven(s[n..]);
      OneBlank(s);
      assert s == s[..n] + s[n..];
      WovenLater(s[..n], s[n..], Fields(s[n..]));
    } else {
      var n := TokenLength(s);
      FieldsWoven(s[n..]);
      FirstIsToken(s);
      assert s == s[..n] + s[n..];
      WovenFirst(s[..n], s[n..], Fields(s[n..]));
    }
  }

  lemma NothingWoven()
    ensures Fields("") == [] && Woven("", [])
  {}

  lemma FirstIsToken(s: string)
    requires s != "" && LeadSpace(s) == 0
    ensures IsToken(s[..TokenLength(s)])
  {
    var n := TokenLength(s);
    forall i | 0 <= i < n ensures LeadSpace(s[..n][i..]) == 0 {
      assert s[..n][i..] == s[i..n] && s[i..n] <= s[i..];
    }
  }

  lemma WovenFirst(field: string, rest: string, fields: seq<string>)
    requires IsToken(field) && (rest == "" || LeadSpace(rest) > 0) && Woven(rest, fields)
    ensures Woven(field + rest, [field] + fields)
  {
    hide LeadSpace, IsToken;
    var all := [field] + fields;
    assert all[0] == field && all[1..] == fields;
    assert field + rest == "" + all[0] + rest && Blank("");
  }

  lemma WovenLater(blank: string, s: string, fields: seq<string>)
    requires Blank(blank) && Woven(s, fields)
    ensures Woven(blank + s, fields)
  {
    hide LeadSpace, IsToken, Blank;
    if fields == [] {
      BlankEnd(blank, s);
    } else {
      var gap, rest :| s == gap + fields[0] + rest && Blank(gap) && IsToken(fields[0])
        && (rest == "" || LeadSpace(rest) > 0) && Woven(rest, fields[1..]);
      BlankEnd(blank, gap);
      Regrouped(blank, gap, fields[0] + rest);
      Regrouped(gap, fields[0], rest);
      Regrouped(blank + gap, fields[0], rest);
    }
  }

  /** A non-empty run of bytes at none of which white space starts. */
  ghost predicate IsToken(t: string) {
    t != "" && forall i :: 0 <= i < |t| ==> LeadSpace(t[i..]) == 0
  }

  ghost predicate AllTokens(fields: seq<string>) {
    forall i :: 0 <= i < |fields| ==> IsToken(fields[i])
  }

  lemma {:induction false} FieldsAreTokens(s: string)
    ensures AllTokens(Fields(s))
    decreases |s|
  {
    if s != "" {
      if LeadSpace(s) > 0 {
        FieldsAreTokens(s[LeadSpace(s)..]);
      } else {
        var n := TokenLength(s);
        FieldsAreTokens(s[n..]);
        forall i | 0 <= i < n ensures LeadSpace(s[..n][i..]) == 0 {
          assert s[..n][i..] == s[i..n] && s[i..n] <= s[i..];
        }
      }
    }
  }

  lemma BlankLeads(s: string)
    requires s != "" && s[0] == ' '
    ensures LeadSpace(s) == 1
  {}

  /** White space does not begin inside a token and end behind it. */
  lemma BlankAfter(t: string, rest: string)
    requires IsToken(t) && (rest == "" || LeadSpace(rest) > 0)
    ensures LeadSpace(t + rest) == 0
  {
    assert t[0..] == t;
  }

  /** A token followed by nothing, or by white space, is read back whole. */
  lemma {:induction false} TokenReadBack(t: string, rest: string)
    requires IsToken(t) && (rest == "" || LeadSpace(rest) > 0)
    ensures LeadSpace(t + rest) == 0 && TokenLength(t + rest) == |t|
    decreases |t|
  {
    hide LeadSpace;
    var s := t + rest;
    BlankAfter(t, rest);
    assert s[1..] == t[1..] + rest;
    if |t| == 1 {
      assert s[1..] == rest;
    } else {
      assert forall i :: 0 <= i < |t[1..]| ==> t[1..][i..] == t[i + 1..];
      TokenReadBack(t[1..], rest);
    }
  }

  lemma {:induction false} FieldsOfJoin(fields: seq<string>)
    requires AllTokens(fields)
    ensures Fields(JoinSpace(fields)) == fields
  {
    hide LeadSpace, TokenLength;
    if fields != [] {
      var rest := if |fields| == 1 then "" else " " + JoinSpace(fields[1..]);
      var s := fields[0] + rest;
      assert JoinSpace(fields) == s;
      if rest != "" { BlankLeads(rest); }
      TokenReadBack(fields[0], rest);
      assert s[..|fields[0]|] == fields[0] && s[|fields[0]|..] == rest;
      FieldsOfJoin(fields[1..]);
      if |fields| > 1 {
        BlankLeads(rest);
        assert rest[1..] == JoinSpace(fields[1..]);
      }
    }
  }

  lemma {:induction false} SkipsBlank(gap: string, rest: string)
    requires Blank(gap)
    ensures Fields(gap + rest) == Fields(rest)
    decreases |gap|
  {
    if gap == "" {
      assert gap + rest == rest;
    } else {
      var n := LeadSpace(gap);
      LeadsOn(gap, rest);
      assert (gap + rest)[n..] == gap[n..] + rest;
      SkipsBlank(gap[n..], rest);
    }
  }

  /** There is one way to split a text into fields. */
  lemma {:induction false} WovenIsFields(s: string, fields: seq<string>)
    requires Woven(s, fields)
    ensures Fields(s) == fields
    decreases |fields|
  {
    hide LeadSpace, TokenLength;
    if fields == [] {
      SkipsBlank(s, "");
      assert s + "" == s;
    } else {
      var gap, rest :| s == gap + fields[0] + rest && Blank(gap) && IsToken(fields[0])
        && (rest == "" || LeadSpace(rest) > 0) && Woven(rest, fields[1..]);
      assert s == gap + (fields[0] + rest);
      SkipsBlank(gap, fields[0] + rest);
      TokenReadBack(fields[0], rest);
      assert (fields[0] + rest)[..|fields[0]|] == fields[0] && (fields[0] + rest)[|fields[0]|..] == rest;
      WovenIsFields(rest, fields[1..]);
    }
  }

  /** Collapsing white space is idempotent. */
  lemma CollapseIdempotent(s: string)
    ensures Fields(JoinSpace(Fields(s))) == Fields(s)
  {
    FieldsAreTokens(s);
    FieldsOfJoin(Fields(s));
  }

  // -------------------------------------------------------- case and numbers

  function UpperChar(c: char): char {
    if 'a' <= c <= 'z' then (c as int - 32) as char else c
  }

  /** `strings.ToUpper` on ASCII. */
  function ToUpper(s: string): string {
    seq(|s|, i requires 0 <= i < |s| => UpperChar(s[i]))
  }

  /** `strconv.FormatUint` in base 10. */
  function Decimal(n: nat): string {
    if n < 10 then [(n + 48) as char] else Decimal(n / 10) + [(n % 10 + 48) as char]
  }

  predicate IsDigit(c: char) {
    '0' <= c <= '9'
  }

  function DigitsValue(s: string): nat {
    if s == "" then 0
    else DigitsValue(s[..|s| - 1]) * 10 + if IsDigit(s[|s| - 1]) then s[|s| - 1] as int - 48 else 0
  }

  /** `strconv.ParseUint` in base 10 and 32 bits. */
  function ParseUint32(s: string): Option<nat> {
    if s == "" || (exists i :: 0 <= i < |s| && !IsDigit(s[i])) || DigitsValue(s) >= 0x1_0000_0000 then None
    else Some(DigitsValue(s))
  }

  lemma {:induction false} DecimalDigits(n: nat)
    ensures Decimal(n) != "" && DigitsValue(Decimal(n)) == n
    ensures forall i :: 0 <= i < |Decimal(n)| ==> IsDigit(Decimal(n)[i])
  {
    if n >= 10 { DecimalDigits(n / 10); }
    var s := Decimal(n);
    assert s[..|s| - 1] == if n < 10 then "" else Decimal(n / 10);
  }

  lemma UpperCaseCodes()
    ensures ToUpper("de") == "DE" && ToUpper("Az-9") == "AZ-9"
  {}

  lemma {:induction false} ZeroInFront(s: string)
    ensures DigitsValue("0" + s) == DigitsValue(s)
  {
    if s == "" {
      assert "0" + s == "0" && "0"[..0] == "";
    } else {
      assert ("0" + s)[..|s|] == "0" + s[..|s| - 1];
      ZeroInFront(s[..|s| - 1]);
    }
  }

  /** Zeros in front of a number change nothing; text that is no number, or does
      not begin as one, is refused. */
  lemma ParsedNumbers(s: string, t: string)
    ensures s != "" ==> ParseUint32("0" + s) == ParseUint32(s)
    ensures ParseUint32("") == None
    ensures t != "" && !IsDigit(t[0]) ==> ParseUint32(s + t) == None
  {
    ZeroInFront(s);
    hide DigitsValue;
    assert forall i :: 0 <= i < |s| ==> s[i] == ("0" + s)[i + 1];
    assert t != "" ==> (s + t)[|s|] == t[0];
  }

  lemma DecimalParses(n: nat)
    ensures ParseUint32(Decimal(n)) == if n < 0x1_0000_0000 then Some(n) else None
  {
    DecimalDigits(n);
  }
}
