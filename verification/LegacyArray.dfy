/** The reader of bash associative arrays in legacy cache files
    (pkg/cache/legacy.go), against a printer that quotes as the Bash Reference
    Manual, sections 3.1.2.2 to 3.1.2.4, describes. The grammar is given as
    functions on the rest of the text, the reader as loops over an index. A
    string holds one char per byte. */
module LegacyArray {
  import opened Wrappers
  import GoText

  /** A quoted string, with what follows it. */
  datatype Scan = Found(value: string, rest: string) | Unterminated

  function Prepend(p: string, r: Scan): Scan {
    if r.Found? then Found(p + r.value, r.rest) else r
  }

  predicate IsShellSpace(c: char) {
    c == ' ' || c == '\t' || c == '\n' || c == '\r'
  }

  predicate IsOctal(c: char) {
    '0' <= c <= '7'
  }

  predicate IsHexDigit(c: char) {
    '0' <= c <= '9' || 'a' <= c <= 'f' || 'A' <= c <= 'F'
  }

  function HexVal(c: char): (n: nat)
    ensures n < 16
  {
    if '0' <= c <= '9' then c as int - '0' as int
    else if 'a' <= c <= 'f' then c as int - 'a' as int + 10
    else if 'A' <= c <= 'F' then c as int - 'A' as int + 10
    else 0
  }

  // ------------------------------------------------- reading, on what is left

  function SkipSpace(s: string): (t: string)
    ensures |t| <= |s|
  {
    if s != "" && IsShellSpace(s[0]) then SkipSpace(s[1..]) else s
  }

  /** What a backslash and `c` stand for inside double quotes. */
  function DoubleEscape(c: char): string {
    if c == '"' || c == '\\' || c == '$' || c == '`' then [c]
    else if c == 'n' then "\n"
    else if c == 'r' then "\r"
    else if c == 't' then "\t"
    else ['\\', c]
  }

  function DoubleQuoted(s: string): (r: Scan)
    ensures r.Found? ==> |r.rest| < |s|
  {
    if s == "" then Unterminated
    else if s[0] == '"' then Found("", s[1..])
    else if s[0] == '\\' && |s| > 1 then Prepend(DoubleEscape(s[1]), DoubleQuoted(s[2..]))
    else Prepend(s[..1], DoubleQuoted(s[1..]))
  }

  function SingleQuoted(s: string): (r: Scan)
    ensures r.Found? ==> |r.rest| < |s|
  {
    if s == "" then Unterminated
    else if s[0] == '\'' then Found("", s[1..])
    else Prepend(s[..1], SingleQuoted(s[1..]))
  }

  /** Up to `k` further octal digits; also how many were read. */
  function OctalRun(s: string, val: nat, k: nat): (r: (nat, nat))
    ensures r.1 <= |s| && r.1 <= k
  {
    if k > 0 && s != "" && IsOctal(s[0]) then
      var r := OctalRun(s[1..], val * 8 + (s[0] as int - '0' as int), k - 1);
      (r.0, r.1 + 1)
    else (val, 0)
  }

  function HexRun(s: string, val: nat, k: nat): (r: (nat, nat))
    ensures r.1 <= |s| && r.1 <= k
  {
    if k > 0 && s != "" && IsHexDigit(s[0]) then
      var r := HexRun(s[1..], val * 16 + HexVal(s[0]), k - 1);
      (r.0, r.1 + 1)
    else (val, 0)
  }

  /** `byte(val)` keeps the low eight bits. */
  function ByteOf(val: nat): char {
    (val % 256) as char
  }

  /** The byte an ANSI-C escape stands for, and its length after the backslash. */
  function AnsiEscape(s: string): (r: (char, nat))
    requires s != ""
    ensures 1 <= r.1 <= |s|
  {
    if s[0] == 'n' then ('\n', 1)
    else if s[0] == 'r' then ('\r', 1)
    else if s[0] == 't' then ('\t', 1)
    else if IsOctal(s[0]) then
      var r := OctalRun(s[1..], s[0] as int - '0' as int, 2);
      (ByteOf(r.0), 1 + r.1)
    else if s[0] == 'x' then
      var r := HexRun(s[1..], 0, 2);
      (ByteOf(r.0), 1 + r.1)
    else (s[0], 1)
  }

  function AnsiC(s: string): (r: Scan)
    ensures r.Found? ==> |r.rest| < |s|
    decreases |s|
  {
    if s == "" then Unterminated
    else if s[0] == '\'' then Found("", s[1..])
    else if s[0] == '\\' && |s| > 1 then
      var e := AnsiEscape(s[1..]);
      Prepend([e.0], AnsiC(s[1 + e.1..]))
    else Prepend(s[..1], AnsiC(s[1..]))
  }

  function Bare(s: string): (r: Scan)
    ensures r.Found? && |r.rest| <= |s|
  {
    if s == "" || IsShellSpace(s[0]) then Found("", s) else Prepend(s[..1], Bare(s[1..]))
  }

  /** `parseLegacyShellValue`. */
  function Value(s: string): (r: Scan)
    ensures r.Found? ==> |r.rest| <= |s|
  {
    var t := SkipSpace(s);
    if t == "" then Found("", "")
    else if t[0] == '"' then DoubleQuoted(t[1..])
    else if t[0] == '\'' then SingleQuoted(t[1..])
    else if |t| > 1 && t[..2] == "$'" then AnsiC(t[2..])
    else Bare(t)
  }

  /** The key up to `]`. */
  function Key(s: string): (r: Scan)
    ensures r.Found? ==> |r.rest| < |s|
  {
    if s == "" then Unterminated
    else if s[0] == ']' then Found("", s[1..])
    else Prepend(s[..1], Key(s[1..]))
  }

  /** One `[key]=value`: the key, the value and what follows. */
  datatype EntryScan = NoMore | Entry(key: string, value: string, rest: string) | Bad

  function ReadEntry(s: string): (r: EntryScan)
    ensures r.Entry? ==> |r.rest| < |s|
  {
    var t := SkipSpace(s);
    if t == "" then NoMore
    else if t[0] != '[' then Bad
    else
      var k := Key(t[1..]);
      if k.Unterminated? || k.rest == "" || k.rest[0] != '=' then Bad
      else
        var v := Value(k.rest[1..]);
        if v.Unterminated? then Bad else Entry(k.value, v.value, v.rest)
  }

  /** `parseLegacyAssocArray`, adding to what was read before; `None` is an error. */
  function Assoc(s: string, out: map<string, string>): Result<map<string, string>>
    decreases |s|
  {
    match ReadEntry(s)
    case NoMore => Ok(out)
    case Bad => Err("malformed associative array")
    case Entry(key, value, rest) => Assoc(rest, out[key := value])
  }

  // ------------------------------------------------------------- the printer

  /** How a value is quoted. In ANSI-C form the bytes in `literal` are printed as
      they are, where the quoting allows it, those in `lower` and `upper` in
      hexadecimal, and the others in octal; `named` says whether the escapes
      \\a, \\b, \\v, \\f and \\E are used. */
  datatype Quoting =
    | Unquoted
    | Double
    | Single
    | Ansi(literal: set<char>, named: bool, lower: set<char>, upper: set<char>)

  function PrintDouble(v: string): string {
    if v == "" then ""
    else
      (if v[0] == '"' || v[0] == '\\' || v[0] == '$' || v[0] == '`' then ['\\', v[0]] else [v[0]])
      + PrintDouble(v[1..])
  }

  /** The letter of a named escape that the reader does not know. */
  function NamedLetter(c: char): char {
    match c as int
    case 7 => 'a'
    case 8 => 'b'
    case 11 => 'v'
    case 12 => 'f'
    case 27 => 'E'
    case _ => c
  }

  predicate HasNamedEscape(c: char) {
    c as int in {7, 8, 11, 12, 27}
  }

  function Digit(d: nat): char
    requires d < 8
  {
    (d + '0' as int) as char
  }

  function HexDigit(d: nat, upper: bool): char
    requires d < 16
  {
    if upper then "0123456789ABCDEF"[d] else "0123456789abcdef"[d]
  }

  function PrintAnsiByte(c: char, q: Quoting): string
    requires q.Ansi? && c as int < 256
  {
    if c == '\n' then "\\n"
    else if c == '\r' then "\\r"
    else if c == '\t' then "\\t"
    else if c == '\\' || c == '\'' then ['\\', c]
    else if q.named && HasNamedEscape(c) then ['\\', NamedLetter(c)]
    else if c in q.literal then [c]
    else if c in q.lower + q.upper then
      ['\\', 'x', HexDigit(c as int / 16, c in q.upper), HexDigit(c as int % 16, c in q.upper)]
    else ['\\', Digit(c as int / 64), Digit(c as int / 8 % 8), Digit(c as int % 8)]
  }

  function PrintAnsi(v: string, q: Quoting): string
    requires q.Ansi? && GoText.Bytes(v)
  {
    if v == "" then "" else PrintAnsiByte(v[0], q) + PrintAnsi(v[1..], q)
  }

  /** One entry of the array: what is stored and how bash prints it. */
  datatype Pair = Pair(key: string, value: string, quoting: Quoting)

  /** What the manual lets each form hold; keys are printed unquoted. */
  ghost predicate Printable(e: Pair) {
    && ']' !in e.key && GoText.Bytes(e.value) && (e.quoting.Single? ==> '\'' !in e.value)
    && (e.quoting.Unquoted? ==> IsWord(e.value))
  }

  /** A word that needs no quotes. */
  ghost predicate IsWord(v: string) {
    && v != "" && (forall i :: 0 <= i < |v| ==> !IsShellSpace(v[i]))
    && v[0] != '"' && v[0] != '\'' && !("$'" <= v)
  }

  function PrintValue(v: string, q: Quoting): string
    requires GoText.Bytes(v)
  {
    match q
    case Unquoted => v
    case Double => "\"" + PrintDouble(v) + "\""
    case Single => "'" + v + "'"
    case Ansi(_, _, _, _) => "$'" + PrintAnsi(v, q) + "'"
  }

  function PrintPair(e: Pair): string
    requires GoText.Bytes(e.value)
  {
    "[" + e.key + "]=" + PrintValue(e.value, e.quoting)
  }

  ghost predicate AllPrintable(es: seq<Pair>) {
    forall i :: 0 <= i < |es| ==> Printable(es[i])
  }

  ghost function PrintAll(es: seq<Pair>): string
    requires AllPrintable(es)
  {
    if es == [] then "" else PrintPair(es[0]) + " " + PrintAll(es[1..])
  }

  // -------------------------------------------------------------- round trips

  lemma {:induction false} DoubleRoundTrip(v: string, rest: string)
    ensures DoubleQuoted(PrintDouble(v) + "\"" + rest) == Found(v, rest)
  {
    var s := PrintDouble(v) + "\"" + rest;
    if v == "" {
      assert s == "\"" + rest;
      assert s[1..] == rest;
    } else {
      DoubleRoundTrip(v[1..], rest);
      var tail := PrintDouble(v[1..]) + "\"" + rest;
      var head := PrintDouble(v)[..|PrintDouble(v)| - |PrintDouble(v[1..])|];
      assert s == head + tail;
      assert s[|head|..] == tail;
      assert v == [v[0]] + v[1..];
    }
  }

  lemma {:induction false} SingleRoundTrip(v: string, rest: string)
    requires '\'' !in v
    ensures SingleQuoted(v + "'" + rest) == Found(v, rest)
  {
    var s := v + "'" + rest;
    if v == "" {
      assert s == "'" + rest;
      assert s[1..] == rest;
    } else {
      assert v[0] in v && s[1..] == v[1..] + "'" + rest;
      SingleRoundTrip(v[1..], rest);
      assert v == [v[0]] + v[1..];
    }
  }

  lemma {:induction false} KeyRoundTrip(k: string, rest: string)
    requires ']' !in k
    ensures Key(k + "]" + rest) == Found(k, rest)
  {
    var s := k + "]" + rest;
    if k == "" {
      assert s == "]" + rest;
      assert s[1..] == rest;
    } else {
      assert k[0] in k && s[1..] == k[1..] + "]" + rest;
      KeyRoundTrip(k[1..], rest);
      assert k == [k[0]] + k[1..];
    }
  }

  /** What the reader makes of one byte printed in ANSI-C form. */
  function ReadByte(c: char, q: Quoting): char
    requires q.Ansi?
  {
    if q.named && HasNamedEscape(c) then NamedLetter(c) else c
  }

  function ReadAnsi(v: string, q: Quoting): string
    requires q.Ansi?
  {
    if v == "" then "" else [ReadByte(v[0], q)] + ReadAnsi(v[1..], q)
  }

  /** Three octal digits are read back whole, whatever follows. */
  lemma OctalRoundTrip(n: nat, rest: string)
    requires n < 256
    ensures
      var digits := [Digit(n / 64), Digit(n / 8 % 8), Digit(n % 8)];
      AnsiEscape(digits + rest) == (n as char, 3)
  {
    var d0, d1, d2 := n / 64, n / 8 % 8, n % 8;
    assert n == d0 * 64 + d1 * 8 + d2;
    var s := [Digit(d0), Digit(d1), Digit(d2)] + rest;
    assert s[1..] == [Digit(d1), Digit(d2)] + rest;
    assert s[1..][1..] == [Digit(d2)] + rest;
    assert s[1..][1..][1..] == rest;
    assert OctalRun(s[1..][1..][1..], n, 0) == (n, 0);
    assert OctalRun(s[1..][1..], d0 * 8 + d1, 1) == (n, 1);
    assert OctalRun(s[1..], d0, 2) == (n, 2);
  }

  /** Two hexadecimal digits are read back whole, in either case. */
  lemma HexRoundTrip(n: nat, upper: bool, rest: string)
    requires n < 256
    ensures
      var digits := ['x', HexDigit(n / 16, upper), HexDigit(n % 16, upper)];
      AnsiEscape(digits + rest) == (n as char, 3)
  {
    hide HexDigit, HexRun;
    HexDigitRead(n / 16, upper);
    HexDigitRead(n % 16, upper);
    var h, l := HexDigit(n / 16, upper), HexDigit(n % 16, upper);
    TwoHexDigits(h, l, rest);
    assert (['x', h, l] + rest)[1..] == [h, l] + rest;
  }

  lemma TwoHexDigits(h: char, l: char, rest: string)
    requires IsHexDigit(h) && IsHexDigit(l)
    ensures HexRun([h, l] + rest, 0, 2) == (16 * HexVal(h) + HexVal(l), 2)
  {
    hide HexVal, IsHexDigit;
    var s := [h, l] + rest;
    assert s[1..] == [l] + rest && s[1..][1..] == rest;
    assert HexRun(rest, 16 * HexVal(h) + HexVal(l), 0) == (16 * HexVal(h) + HexVal(l), 0);
    assert HexRun(s[1..], HexVal(h), 1) == (16 * HexVal(h) + HexVal(l), 1);
  }

  lemma HexDigitRead(d: nat, upper: bool)
    requires d < 16
    ensures IsHexDigit(HexDigit(d, upper)) && HexVal(HexDigit(d, upper)) == d
  {}

  /** What is printed after a backslash is read as one byte. */
  lemma EscapeReadBack(c: char, q: Quoting, rest: string)
    requires q.Ansi? && c as int < 256 && PrintAnsiByte(c, q)[0] == '\\'
    ensures
      var p := PrintAnsiByte(c, q);
      |p| > 1 && AnsiEscape(p[1..] + rest) == (ReadByte(c, q), |p| - 1)
  {
    hide HexDigit, OctalRun, HexRun;
    var p := PrintAnsiByte(c, q);
    if |p| == 4 && p[1] == 'x' {
      HexRoundTrip(c as int, c in q.upper, rest);
    } else if |p| == 4 {
      OctalRoundTrip(c as int, rest);
    }
  }

  lemma PlainReadBack(c: char, q: Quoting)
    requires q.Ansi? && c as int < 256 && PrintAnsiByte(c, q)[0] != '\\'
    ensures PrintAnsiByte(c, q) == [c] && c != '\'' && c != '\\' && ReadByte(c, q) == c
  {
    hide HexDigit, Digit;
  }

  lemma AnsiByteRoundTrip(c: char, q: Quoting, rest: string)
    requires q.Ansi? && c as int < 256
    ensures AnsiC(PrintAnsiByte(c, q) + rest) == Prepend([ReadByte(c, q)], AnsiC(rest))
  {
    hide PrintAnsiByte, ReadByte, AnsiEscape;
    var p := PrintAnsiByte(c, q);
    BytePrinted(c, q);
    var s := p + rest;
    if p[0] == '\\' {
      EscapeReadBack(c, q, rest);
      assert s[1..] == p[1..] + rest && s[|p|..] == rest;
    } else {
      PlainReadBack(c, q);
      assert s[1..] == rest && s[..1] == [c];
    }
  }

  lemma BytePrinted(c: char, q: Quoting)
    requires q.Ansi? && c as int < 256
    ensures PrintAnsiByte(c, q) != ""
  {}

  lemma AnsiEnd(rest: string)
    ensures AnsiC("'" + rest) == Found("", rest)
  {
    assert ("'" + rest)[1..] == rest;
  }

  lemma AnsiHead(v: string, q: Quoting, rest: string)
    requires q.Ansi? && GoText.Bytes(v)
    ensures v == "" ==> PrintAnsi(v, q) + "'" + rest == "'" + rest
    ensures v != "" ==> PrintAnsi(v, q) + "'" + rest == PrintAnsiByte(v[0], q) + (PrintAnsi(v[1..], q) + "'" + rest)
  {
    hide PrintAnsiByte;
  }

  lemma {:induction false} AnsiRoundTrip(v: string, q: Quoting, rest: string)
    requires q.Ansi? && GoText.Bytes(v)
    ensures AnsiC(PrintAnsi(v, q) + "'" + rest) == Found(ReadAnsi(v, q), rest)
  {
    hide AnsiC, PrintAnsi, PrintAnsiByte, ReadByte;
    AnsiHead(v, q, rest);
    if v == "" {
      AnsiEnd(rest);
    } else {
      AnsiRoundTrip(v[1..], q, rest);
      AnsiByteRoundTrip(v[0], q, PrintAnsi(v[1..], q) + "'" + rest);
    }
  }

  /** The value the reader stores for an entry. */
  function Stored(e: Pair): string {
    if e.quoting.Ansi? then ReadAnsi(e.value, e.quoting) else e.value
  }

  /** Unquoted, a word is read up to the next white space. */
  lemma {:induction false} BareRoundTrip(v: string, rest: string)
    requires forall i :: 0 <= i < |v| ==> !IsShellSpace(v[i])
    requires rest == "" || IsShellSpace(rest[0])
    ensures Bare(v + rest) == Found(v, rest)
  {
    var s := v + rest;
    if v == "" {
      assert s == rest;
    } else {
      assert s[1..] == v[1..] + rest && s[..1] == [v[0]];
      BareRoundTrip(v[1..], rest);
      assert v == [v[0]] + v[1..];
    }
  }

  lemma WordRoundTrip(v: string, rest: string)
    requires IsWord(v) && (rest == "" || IsShellSpace(rest[0]))
    ensures Value(v + rest) == Found(v, rest)
  {
    var s := v + rest;
    BareRoundTrip(v, rest);
    assert s[0] == v[0] && SkipSpace(s) == s;
    assert |v| >= 2 ==> s[..2] == v[..2];
    assert |v| == 1 && rest != "" ==> s[..2] == [v[0], rest[0]];
  }

  /** What may follow a value: an unquoted one needs white space or the end. */
  ghost predicate MayFollow(e: Pair, rest: string) {
    e.quoting.Unquoted? ==> rest == "" || IsShellSpace(rest[0])
  }

  lemma ValueRoundTrip(e: Pair, rest: string)
    requires Printable(e) && MayFollow(e, rest)
    ensures Value(PrintValue(e.value, e.quoting) + rest) == Found(Stored(e), rest)
  {
    hide IsWord, PrintDouble, PrintAnsi, ReadAnsi, DoubleQuoted, SingleQuoted, AnsiC, Bare;
    match e.quoting {
      case Unquoted => WordRoundTrip(e.value, rest);
      case Double =>
        DoubleRoundTrip(e.value, rest);
        QuotedValue("\"", PrintDouble(e.value) + "\"" + rest);
        assert PrintValue(e.value, e.quoting) + rest == "\"" + (PrintDouble(e.value) + "\"" + rest);
      case Single =>
        SingleRoundTrip(e.value, rest);
        QuotedValue("'", e.value + "'" + rest);
        assert PrintValue(e.value, e.quoting) + rest == "'" + (e.value + "'" + rest);
      case Ansi(_, _, _, _) =>
        AnsiRoundTrip(e.value, e.quoting, rest);
        QuotedValue("$'", PrintAnsi(e.value, e.quoting) + "'" + rest);
        assert PrintValue(e.value, e.quoting) + rest == "$'" + (PrintAnsi(e.value, e.quoting) + "'" + rest);
    }
  }

  /** The opening quote says how to go on. */
  lemma QuotedValue(quote: string, t: string)
    ensures quote == "\"" ==> Value(quote + t) == DoubleQuoted(t)
    ensures quote == "'" ==> Value(quote + t) == SingleQuoted(t)
    ensures quote == "$'" ==> Value(quote + t) == AnsiC(t)
  {
    hide DoubleQuoted, SingleQuoted, AnsiC, Bare;
    if quote != "" { assert (quote + t)[|quote|..] == t && (quote + t)[..|quote|] == quote; }
  }

  lemma PairRoundTrip(e: Pair, rest: string)
    requires Printable(e) && MayFollow(e, rest)
    ensures ReadEntry(PrintPair(e) + rest) == Entry(e.key, Stored(e), rest)
  {
    hide Value, PrintValue, Stored, Key;
    var after := "=" + PrintValue(e.value, e.quoting) + rest;
    var s := PrintPair(e) + rest;
    assert s == "[" + (e.key + "]" + after);
    assert s[1..] == e.key + "]" + after;
    KeyRoundTrip(e.key, after);
    assert after[1..] == PrintValue(e.value, e.quoting) + rest;
    ValueRoundTrip(e, rest);
  }

  function StoreAll(es: seq<Pair>, out: map<string, string>): map<string, string> {
    if es == [] then out else StoreAll(es[1..], out[es[0].key := Stored(es[0])])
  }

  lemma {:induction false} ArrayReadBack(es: seq<Pair>, out: map<string, string>)
    requires AllPrintable(es)
    ensures Assoc(PrintAll(es), out) == Ok(StoreAll(es, out))
    ensures Assoc(" " + PrintAll(es), out) == Ok(StoreAll(es, out))
    decreases |es|
  {
    hide Stored, PrintPair, Key, Value;
    assert (" " + PrintAll(es))[1..] == PrintAll(es);
    if es != [] {
      var rest := " " + PrintAll(es[1..]);
      assert PrintAll(es) == PrintPair(es[0]) + rest;
      PairRoundTrip(es[0], rest);
      ArrayReadBack(es[1..], out[es[0].key := Stored(es[0])]);
    }
  }

  lemma {:induction false} StoredAt(es: seq<Pair>, out: map<string, string>, k: string)
    requires DistinctKeys(es)
    ensures k in StoreAll(es, out) <==> k in out || exists i :: 0 <= i < |es| && es[i].key == k
    ensures forall i :: 0 <= i < |es| && es[i].key == k ==> StoreAll(es, out)[k] == Stored(es[i])
    ensures k in out && (forall i :: 0 <= i < |es| ==> es[i].key != k) ==> StoreAll(es, out)[k] == out[k]
    decreases |es|
  {
    if es != [] {
      StoredAt(es[1..], out[es[0].key := Stored(es[0])], k);
      assert forall i :: 0 < i < |es| ==> es[i] == es[1..][i - 1];
    }
  }

  ghost predicate DistinctKeys(es: seq<Pair>) {
    forall i, j :: 0 <= i < j < |es| ==> es[i].key != es[j].key
  }

  /** The entries list the map, in some order. */
  ghost predicate Lists(es: seq<Pair>, m: map<string, string>) {
    && DistinctKeys(es)
    && (forall k :: k in m <==> exists i :: 0 <= i < |es| && es[i].key == k)
    && (forall i :: 0 <= i < |es| ==> m[es[i].key] == es[i].value)
  }

  // --------------------------------------------------------- what is rejected

  /** A quoted value cut off before its closing quote is an error. */
  lemma {:induction false} DoubleCutOff(v: string)
    ensures DoubleQuoted(PrintDouble(v)).Unterminated?
  {
    if v != "" {
      DoubleCutOff(v[1..]);
      var s, tail := PrintDouble(v), PrintDouble(v[1..]);
      assert s[|s| - |tail|..] == tail;
    }
  }

  lemma {:induction false} SingleCutOff(v: string)
    requires '\'' !in v
    ensures SingleQuoted(v).Unterminated?
  {
    if v != "" {
      assert v[0] in v && forall c :: c in v[1..] ==> c in v;
      SingleCutOff(v[1..]);
    }
  }

  lemma {:induction false} AnsiCutOff(v: string, q: Quoting)
    requires q.Ansi? && GoText.Bytes(v)
    ensures AnsiC(PrintAnsi(v, q)).Unterminated?
  {
    hide PrintAnsiByte, ReadByte;
    if v != "" {
      AnsiCutOff(v[1..], q);
      AnsiByteRoundTrip(v[0], q, PrintAnsi(v[1..], q));
    }
  }

  lemma {:induction false} KeyCutOff(k: string)
    requires ']' !in k
    ensures Key(k).Unterminated?
  {
    if k != "" {
      assert k[0] in k && forall c :: c in k[1..] ==> c in k;
      KeyCutOff(k[1..]);
    }
  }

  /** An array is an error from its first entry that does not open with a
      bracket, whose key is not closed, that has no equals sign, or whose value
      is cut off; nothing but white space is an empty array. */
  lemma MalformedRejected(k: string, rest: string, out: map<string, string>)
    requires ']' !in k
    ensures rest != "" && rest[0] != '[' && !IsShellSpace(rest[0]) ==> Assoc(rest, out).Err?
    ensures Assoc("[" + k, out).Err?
    ensures rest == "" || rest[0] != '=' ==> Assoc("[" + k + "]" + rest, out).Err?
    ensures Value(rest).Unterminated? ==> Assoc("[" + k + "]=" + rest, out).Err?
    ensures Assoc("", out) == Ok(out)
  {
    hide Value, Key;
    KeyCutOff(k);
    KeyRoundTrip(k, rest);
    KeyRoundTrip(k, "=" + rest);
    assert ("[" + k)[1..] == k && ("[" + k + "]" + rest)[1..] == k + "]" + rest;
    assert ("[" + k + "]=" + rest)[1..] == k + "]" + ("=" + rest) && ("=" + rest)[1..] == rest;
  }

  /** Inside double quotes a backslash also makes a newline, a carriage return
      and a tab of the letters n, r and t, and stays before any other byte. */
  lemma BackslashInDouble(c: char, rest: string)
    ensures
      var r := DoubleQuoted(['\\', c] + rest);
      r == Prepend(
        if c in {'"', '\\', '$', '`'} then [c]
        else if c == 'n' then [10 as char] else if c == 'r' then [13 as char] else if c == 't' then [9 as char]
        else ['\\', c],
        DoubleQuoted(rest))
  {
    assert (['\\', c] + rest)[2..] == rest;
  }

  /** Blanks, tabs, newlines and carriage returns are skipped before an entry and
      end an unquoted value; nothing else is, or does. */
  lemma ShellSpaces(c: char, rest: string)
    ensures SkipSpace([c] + rest) == if c as int in {9, 10, 13, 32} then SkipSpace(rest) else [c] + rest
    ensures Bare([c] + rest)
      == if c as int in {9, 10, 13, 32} then Found("", [c] + rest) else Prepend([c], Bare(rest))
  {
    assert ([c] + rest)[1..] == rest && ([c] + rest)[..1] == [c];
  }

  /** Escapes of the ANSI-C form with fewer digits than they may have. */
  lemma ShortEscapes(d: char, rest: string)
    requires rest != "" && !IsHexDigit(rest[0])
    ensures IsOctal(d) ==> AnsiEscape([d] + rest) == ((d as int - 48) as char, 1)
    ensures AnsiEscape("x" + rest) == (0 as char, 1)
    ensures IsHexDigit(d) ==> AnsiEscape("x" + [d] + rest) == (HexVal(d) as char, 2)
  {
    assert ([d] + rest)[1..] == rest && ("x" + rest)[1..] == rest;
    var s := "x" + [d] + rest;
    assert s[1..] == [d] + rest && s[1..][0] == d && s[1..][1..] == rest && s[0] == 'x';
    assert HexRun(rest, HexVal(d), 1) == (HexVal(d), 0) && HexRun(rest, 0, 2) == (0, 0);
    assert IsHexDigit(d) ==> HexRun(s[1..], 0, 2) == (HexVal(d), 1);
  }

  /** No byte is printed with an escape the reader takes for a plain letter. */
  ghost predicate Faithful(e: Pair) {
    e.quoting.Ansi? && e.quoting.named ==> forall i :: 0 <= i < |e.value| ==> !HasNamedEscape(e.value[i])
  }

  lemma {:induction false} ReadAnsiFaithful(v: string, q: Quoting)
    requires q.Ansi?
    ensures |ReadAnsi(v, q)| == |v|
    ensures forall i :: 0 <= i < |v| ==> ReadAnsi(v, q)[i] == ReadByte(v[i], q)
  {
    if v != "" { ReadAnsiFaithful(v[1..], q); }
  }

  lemma StoredIsValue(e: Pair)
    ensures Stored(e) == e.value <==> Faithful(e)
  {
    if e.quoting.Ansi? {
      ReadAnsiFaithful(e.value, e.quoting);
      if !Faithful(e) {
        var i :| 0 <= i < |e.value| && HasNamedEscape(e.value[i]);
        assert Stored(e)[i] != e.value[i];
      }
    }
  }

  /** Reading a printed array gives the map back exactly when no entry needs
      \a, \b, \v, \f or \E: those the reader decodes as letters. */
  lemma RoundTripExactlyWhen(es: seq<Pair>, m: map<string, string>)
    requires AllPrintable(es) && Lists(es, m)
    ensures Assoc(PrintAll(es), map[]) == Ok(m) <==> forall i :: 0 <= i < |es| ==> Faithful(es[i])
  {
    hide Stored, StoreAll, Faithful, Printable, Assoc, PrintAll, DistinctKeys;
    ArrayReadBack(es, map[]);
    var got := StoreAll(es, map[]);
    forall k ensures k in got <==> k in m { StoredAt(es, map[], k); }
    forall i | 0 <= i < |es| ensures es[i].key in got && (got[es[i].key] == m[es[i].key] <==> Faithful(es[i])) {
      StoredAt(es, map[], es[i].key);
      StoredIsValue(es[i]);
    }
    SameOnKeys(es, got, m);
  }

  lemma SameOnKeys(es: seq<Pair>, a: map<string, string>, b: map<string, string>)
    requires forall k :: k in a <==> k in b
    requires forall k :: k in b <==> exists i :: 0 <= i < |es| && es[i].key == k
    ensures a == b <==> forall i :: 0 <= i < |es| ==> es[i].key in a && es[i].key in b && a[es[i].key] == b[es[i].key]
  {
    forall i | 0 <= i < |es| ensures es[i].key in b {}
  }

  /** A bell, printed \a by bash, comes back as the letter a. */
  lemma BellBecomesLetter()
    ensures
      var bell := [7 as char];
      var es := [Pair("k", bell, Ansi({}, true, {}, {}))];
      && AllPrintable(es) && Lists(es, map["k" := bell])
      && Assoc(PrintAll(es), map[]) == Ok(map["k" := "a"])
  {
    var bell := [7 as char];
    var es := [Pair("k", bell, Ansi({}, true, {}, {}))];
    assert Printable(es[0]) && AllPrintable(es);
    BellRead(es[0].quoting);
    ArrayReadBack(es, map[]);
    hide Assoc, PrintAll, StoreAll, Stored;
    assert Lists(es, map["k" := bell]) by { assert es[0].key == "k"; }
  }

  lemma BellRead(q: Quoting)
    requires q == Ansi({}, true, {}, {})
    ensures ReadAnsi([7 as char], q) == "a"
  {
    assert [7 as char][1..] == "" && HasNamedEscape(7 as char);
  }

  // ------------------------------------------------------------ the index loops

  /** `b` collected so far and the reading position: nothing is lost. */
  lemma Collected(b: string, c: string, r: Scan)
    ensures Prepend(b, Prepend(c, r)) == Prepend(b + c, r)
  {
    if r.Found? { assert b + (c + r.value) == b + c + r.value; }
  }

  method SkipSpaces(raw: string, start: nat) returns (i: nat)
    requires start <= |raw|
    ensures start <= i <= |raw| && raw[i..] == SkipSpace(raw[start..])
  {
    i := start;
    while i < |raw| && IsShellSpace(raw[i])
      invariant start <= i <= |raw| && SkipSpace(raw[i..]) == SkipSpace(raw[start..])
    {
      assert raw[i..][1..] == raw[i + 1..];
      i := i + 1;
    }
  }

  /** The position a scan of `raw[j..]` leaves the reader at. */
  ghost predicate ReadsAs(raw: string, value: string, next: nat, ok: bool, r: Scan) {
    if ok then next <= |raw| && r == Found(value, raw[next..]) else r == Unterminated
  }

  lemma DoubleStep(raw: string, j: nat)
    requires j <= |raw|
    ensures
      DoubleQuoted(raw[j..]) ==
      if j == |raw| then Unterminated
      else if raw[j] == '"' then Found("", raw[j + 1..])
      else if raw[j] == '\\' && j + 1 < |raw| then Prepend(DoubleEscape(raw[j + 1]), DoubleQuoted(raw[j + 2..]))
      else Prepend([raw[j]], DoubleQuoted(raw[j + 1..]))
  {
    if j < |raw| {
      assert raw[j..][1..] == raw[j + 1..] && raw[j..][..1] == [raw[j]];
      if j + 1 < |raw| { assert raw[j..][2..] == raw[j + 2..] && raw[j..][1] == raw[j + 1]; }
    }
  }

  method ReadDouble(raw: string, start: nat) returns (value: string, next: nat, ok: bool)
    requires start <= |raw|
    ensures ReadsAs(raw, value, next, ok, DoubleQuoted(raw[start..])) && (ok ==> next > start)
  {
    hide DoubleQuoted;
    var j := start;
    value := "";
    while j < |raw|
      invariant start <= j <= |raw|
      invariant DoubleQuoted(raw[start..]) == Prepend(value, DoubleQuoted(raw[j..]))
    {
      DoubleStep(raw, j);
      if raw[j] == '"' {
        return value, j + 1, true;
      }
      if raw[j] == '\\' && j + 1 < |raw| {
        Collected(value, DoubleEscape(raw[j + 1]), DoubleQuoted(raw[j + 2..]));
        value := value + DoubleEscape(raw[j + 1]);
        j := j + 2;
        continue;
      }
      Collected(value, [raw[j]], DoubleQuoted(raw[j + 1..]));
      value := value + [raw[j]];
      j := j + 1;
    }
    DoubleStep(raw, j);
    return "", 0, false;
  }

  lemma SingleStep(raw: string, j: nat)
    requires j <= |raw|
    ensures
      SingleQuoted(raw[j..]) ==
      if j == |raw| then Unterminated
      else if raw[j] == '\'' then Found("", raw[j + 1..])
      else Prepend([raw[j]], SingleQuoted(raw[j + 1..]))
  {
    if j < |raw| { assert raw[j..][1..] == raw[j + 1..] && raw[j..][..1] == [raw[j]]; }
  }

  method ReadSingle(raw: string, start: nat) returns (value: string, next: nat, ok: bool)
    requires start <= |raw|
    ensures ReadsAs(raw, value, next, ok, SingleQuoted(raw[start..])) && (ok ==> next > start)
  {
    hide SingleQuoted;
    var j := start;
    assert raw[start..start] == "";
    while j < |raw| && raw[j] != '\''
      invariant start <= j <= |raw|
      invariant SingleQuoted(raw[start..]) == Prepend(raw[start..j], SingleQuoted(raw[j..]))
    {
      SingleStep(raw, j);
      Collected(raw[start..j], [raw[j]], SingleQuoted(raw[j + 1..]));
      assert raw[start..j] + [raw[j]] == raw[start..j + 1];
      j := j + 1;
    }
    SingleStep(raw, j);
    if j >= |raw| {
      return "", 0, false;
    }
    return raw[start..j], j + 1, true;
  }

  /** The digits of an octal escape after its first. */
  method ReadOctal(raw: string, start: nat, first: nat) returns (val: nat, j: nat)
    requires start <= |raw|
    ensures start <= j <= |raw| && (val, j - start) == OctalRun(raw[start..], first, 2)
  {
    val, j := first, start;
    var k := 0;
    while k < 2 && j < |raw| && IsOctal(raw[j])
      invariant 0 <= k <= 2 && j == start + k && j <= |raw|
      invariant
        var r := OctalRun(raw[j..], val, 2 - k);
        OctalRun(raw[start..], first, 2) == (r.0, r.1 + k)
    {
      assert raw[j..][1..] == raw[j + 1..];
      val := val * 8 + (raw[j] as int - '0' as int);
      j := j + 1;
      k := k + 1;
    }
  }

  method ReadHex(raw: string, start: nat) returns (val: nat, j: nat)
    requires start <= |raw|
    ensures start <= j <= |raw| && (val, j - start) == HexRun(raw[start..], 0, 2)
  {
    val, j := 0, start;
    var k := 0;
    while k < 2 && j < |raw| && IsHexDigit(raw[j])
      invariant 0 <= k <= 2 && j == start + k && j <= |raw|
      invariant
        var r := HexRun(raw[j..], val, 2 - k);
        HexRun(raw[start..], 0, 2) == (r.0, r.1 + k)
    {
      assert raw[j..][1..] == raw[j + 1..];
      val := val * 16 + HexVal(raw[j]);
      j := j + 1;
      k := k + 1;
    }
  }

  /** One ANSI-C escape, from the byte after the backslash on. */
  method ReadEscape(raw: string, j: nat) returns (c: char, next: nat)
    requires j < |raw|
    ensures j < next <= |raw| && (c, next - j) == AnsiEscape(raw[j..])
  {
    assert raw[j..][1..] == raw[j + 1..] && raw[j..][0] == raw[j];
    if raw[j] == 'n' {
      return '\n', j + 1;
    } else if raw[j] == 'r' {
      return '\r', j + 1;
    } else if raw[j] == 't' {
      return '\t', j + 1;
    } else if IsOctal(raw[j]) {
      var val;
      val, next := ReadOctal(raw, j + 1, raw[j] as int - '0' as int);
      c := ByteOf(val);
    } else if raw[j] == 'x' {
      var val;
      val, next := ReadHex(raw, j + 1);
      c := ByteOf(val);
    } else {
      return raw[j], j + 1;
    }
  }

  lemma EscapeStep(raw: string, j: nat, c: char, after: nat)
    requires j + 1 < after <= |raw| && raw[j] == '\\' && (c, after - (j + 1)) == AnsiEscape(raw[j + 1..])
    ensures AnsiC(raw[j..]) == Prepend([c], AnsiC(raw[after..]))
  {
    hide AnsiEscape;
    assert raw[j..][1..] == raw[j + 1..] && raw[j..][after - j..] == raw[after..];
  }

  lemma PlainStep(raw: string, j: nat)
    requires j < |raw| && raw[j] != '\'' && (raw[j] == '\\' ==> j + 1 == |raw|)
    ensures AnsiC(raw[j..]) == Prepend([raw[j]], AnsiC(raw[j + 1..]))
  {
    assert raw[j..][1..] == raw[j + 1..] && raw[j..][..1] == [raw[j]];
  }

  lemma LastStep(raw: string, j: nat)
    requires j <= |raw| && (j < |raw| ==> raw[j] == '\'')
    ensures AnsiC(raw[j..]) == if j < |raw| then Found("", raw[j + 1..]) else Unterminated
  {
    if j < |raw| { assert raw[j..][1..] == raw[j + 1..]; }
  }

  method ReadAnsiC(raw: string, start: nat) returns (value: string, next: nat, ok: bool)
    requires start <= |raw|
    ensures ReadsAs(raw, value, next, ok, AnsiC(raw[start..])) && (ok ==> next > start)
  {
    hide AnsiEscape, AnsiC;
    var j := start;
    value := "";
    while j < |raw|
      invariant start <= j <= |raw|
      invariant AnsiC(raw[start..]) == Prepend(value, AnsiC(raw[j..]))
    {
      if raw[j] == '\'' {
        LastStep(raw, j);
        return value, j + 1, true;
      }
      if raw[j] == '\\' && j + 1 < |raw| {
        var c, after := ReadEscape(raw, j + 1);
        EscapeStep(raw, j, c, after);
        Collected(value, [c], AnsiC(raw[after..]));
        value := value + [c];
        j := after;
        continue;
      }
      PlainStep(raw, j);
      Collected(value, [raw[j]], AnsiC(raw[j + 1..]));
      value := value + [raw[j]];
      j := j + 1;
    }
    LastStep(raw, j);
    return "", 0, false;
  }

  lemma BareStep(raw: string, j: nat)
    requires j <= |raw|
    ensures
      Bare(raw[j..]) ==
      if j == |raw| || IsShellSpace(raw[j]) then Found("", raw[j..]) else Prepend([raw[j]], Bare(raw[j + 1..]))
  {
    if j < |raw| { assert raw[j..][1..] == raw[j + 1..] && raw[j..][..1] == [raw[j]]; }
  }

  method ReadBare(raw: string, start: nat) returns (value: string, next: nat)
    requires start <= |raw|
    ensures start <= next <= |raw| && Bare(raw[start..]) == Found(value, raw[next..])
  {
    hide Bare, IsShellSpace;
    var j := start;
    assert raw[start..start] == "";
    while j < |raw| && !IsShellSpace(raw[j])
      invariant start <= j <= |raw|
      invariant Bare(raw[start..]) == Prepend(raw[start..j], Bare(raw[j..]))
    {
      BareStep(raw, j);
      Collected(raw[start..j], [raw[j]], Bare(raw[j + 1..]));
      assert raw[start..j] + [raw[j]] == raw[start..j + 1];
      j := j + 1;
    }
    BareStep(raw, j);
    return raw[start..j], j;
  }

  /** `parseLegacyShellValue`: on any bytes it stays in bounds and never moves
      back. */
  method ParseShellValue(raw: string, start: nat) returns (value: string, next: nat, ok: bool)
    requires start <= |raw|
    ensures ReadsAs(raw, value, next, ok, Value(raw[start..])) && (ok ==> start <= next)
  {
    hide DoubleQuoted, SingleQuoted, AnsiC, Bare, SkipSpace;
    var i := SkipSpaces(raw, start);
    if i >= |raw| {
      return "", i, true;
    }
    assert raw[i..][0] == raw[i] && raw[i..][1..] == raw[i + 1..];
    if raw[i] == '"' {
      value, next, ok := ReadDouble(raw, i + 1);
      return;
    }
    if raw[i] == '\'' {
      value, next, ok := ReadSingle(raw, i + 1);
      return;
    }
    if raw[i] == '$' && i + 1 < |raw| && raw[i + 1] == '\'' {
      assert raw[i..][..2] == "$'" && raw[i..][2..] == raw[i + 2..];
      value, next, ok := ReadAnsiC(raw, i + 2);
      return;
    }
    value, next := ReadBare(raw, i);
    ok := true;
  }

  lemma KeyStep(raw: string, j: nat)
    requires j <= |raw|
    ensures
      Key(raw[j..]) ==
      if j == |raw| then Unterminated
      else if raw[j] == ']' then Found("", raw[j + 1..])
      else Prepend([raw[j]], Key(raw[j + 1..]))
  {
    if j < |raw| { assert raw[j..][1..] == raw[j + 1..] && raw[j..][..1] == [raw[j]]; }
  }

  /** The scan for the `]` that ends a key. */
  method ReadKey(raw: string, start: nat) returns (key: string, next: nat, ok: bool)
    requires start <= |raw|
    ensures ReadsAs(raw, key, next, ok, Key(raw[start..])) && (ok ==> next > start)
  {
    hide Key;
    var i := start;
    assert raw[start..start] == "";
    while i < |raw| && raw[i] != ']'
      invariant start <= i <= |raw|
      invariant Key(raw[start..]) == Prepend(raw[start..i], Key(raw[i..]))
    {
      KeyStep(raw, i);
      Collected(raw[start..i], [raw[i]], Key(raw[i + 1..]));
      assert raw[start..i] + [raw[i]] == raw[start..i + 1];
      i := i + 1;
    }
    KeyStep(raw, i);
    if i >= |raw| {
      return "", 0, false;
    }
    return raw[start..i], i + 1, true;
  }

  /** `parseLegacyAssocArray`: it terminates on any bytes, every round moving
      past at least the brackets and the equals sign. */
  method ParseAssocArray(raw: string) returns (r: Result<map<string, string>>)
    ensures r == Assoc(raw, map[])
  {
    hide Key, Value, SkipSpace;
    var out: map<string, string> := map[];
    var i := 0;
    assert raw[0..] == raw;
    while i < |raw|
      invariant 0 <= i <= |raw| && Assoc(raw, map[]) == Assoc(raw[i..], out)
    {
      var j := SkipSpaces(raw, i);
      if j >= |raw| {
        i := j;
        break;
      }
      assert raw[j..][0] == raw[j] && raw[j..][1..] == raw[j + 1..];
      if raw[j] != '[' {
        return Err("malformed associative array");
      }
      var key, afterKey, closed := ReadKey(raw, j + 1);
      if !closed {
        return Err("malformed associative array");
      }
      if afterKey >= |raw| || raw[afterKey] != '=' {
        return Err("malformed associative array");
      }
      assert raw[afterKey..][1..] == raw[afterKey + 1..];
      var value, next, ok := ParseShellValue(raw, afterKey + 1);
      if !ok {
        return Err("malformed associative array");
      }
      out := out[key := value];
      i := next;
    }
    r := Ok(out);
  }
}
