/** What the sanitized form of a feed is (pkg/downloader/canonical.go:125-175),
    said of its bytes, lines and fields: the mark, carriage returns and surplus
    white space are gone, and so are the lines that would match everything. */
module SanitizedText {
  import opened GoText
  import opened Sanitizer

  // -------------------------------------------------------- marks and returns

  /** Without one byte order mark at the front. */
  ghost predicate Unmarked(file: string, body: string) {
    if |file| >= 3 && file[0] == 0xEF as char && file[1] == 0xBB as char && file[2] == 0xBF as char
    then file == file[..3] + body else body == file
  }

  /** Without the bytes 13, the others in their order: `picks` are their places. */
  ghost predicate WithoutReturns(s: string, t: string, picks: seq<nat>) {
    && |picks| == |t|
    && (forall i, j :: 0 <= i < j < |picks| ==> picks[i] < picks[j])
    && (forall i :: 0 <= i < |picks| ==> picks[i] < |s| && t[i] == s[picks[i]])
    && (forall k :: 0 <= k < |s| ==> (s[k] as int != 13 <==> k in picks))
  }

  lemma StripBomUnmarks(file: string)
    ensures Unmarked(file, StripBom(file))
  {
    if |file| >= 3 { assert file[..3] == [file[0], file[1], file[2]]; }
  }

  lemma {:induction false} RemoveCrPicks(s: string) returns (picks: seq<nat>)
    ensures WithoutReturns(s, RemoveCr(s), picks)
  {
    hide RemoveCr, WithoutReturns;
    if s == "" {
      picks := [];
      NoReturns();
    } else {
      var n := |s| - 1;
      picks := RemoveCrPicks(s[..n]);
      assert s == s[..n] + [s[n]];
      RemoveCrConcat(s[..n], [s[n]]);
      LastPick(s[..n], RemoveCr(s[..n]), picks, s[n]);
      picks := picks + if s[n] as int != 13 then [n] else [];
    }
  }

  lemma NoReturns()
    ensures WithoutReturns("", RemoveCr(""), [])
  {}

  lemma LastPick(s: string, t: string, picks: seq<nat>, c: char)
    requires WithoutReturns(s, t, picks)
    ensures WithoutReturns(s + [c], t + RemoveCr([c]), picks + if c as int != 13 then [|s|] else [])
  {
    var all := s + [c];
    assert [c][1..] == "" && RemoveCr([c]) == if c as int != 13 then [c] else "";
    hide RemoveCr;
    assert forall k :: 0 <= k < |s| ==> all[k] == s[k];
    forall i | 0 <= i < |picks| ensures picks[i] < |s| { assert picks[i] in picks; }
    if c as int == 13 { assert t + "" == t && picks + [] == picks && |s| !in picks; }
  }

  // -------------------------------------------------------------------- lines

  /** The text is these lines, each with its newline; only the last may lack it,
      if it is not empty. */
  ghost predicate IsLines(text: string, lines: seq<string>)
    decreases |lines|
  {
    if lines == [] then text == ""
    else
      && (forall i :: 0 <= i < |lines[0]| ==> lines[0][i] as int != 10)
      && ((|lines| == 1 && text == lines[0] != "")
          || (lines[0] + [10 as char] <= text && IsLines(text[|lines[0]| + 1..], lines[1..])))
  }

  lemma {:induction false} LinesAreLines(text: string, lines: seq<string>)
    requires IsLines(text, lines)
    ensures Lines(text) == lines
    decreases |lines|
  {
    hide Lines;
    if lines == [] {
      assert Lines("") == [] by { NoLines(); }
    } else {
      var line := lines[0];
      assert '\n' !in line;
      FirstLine(line, "");
      if !(|lines| == 1 && text == line) {
        var rest := text[|line| + 1..];
        assert text == line + "\n" + rest;
        FirstLine(line, rest);
        LinesAreLines(rest, lines[1..]);
      }
    }
  }

  lemma NoLines()
    ensures Lines("") == [] && IsLines("", [])
  {}

  lemma LineEnded(line: string, rest: string, lines: seq<string>)
    requires '\n' !in line && IsLines(rest, lines)
    ensures IsLines(line + "\n" + rest, [line] + lines)
  {
    var text, all := line + "\n" + rest, [line] + lines;
    assert all[0] == line && all[1..] == lines && text[|line| + 1..] == rest;
    assert line + [10 as char] == text[..|line| + 1];
  }

  lemma LineOpen(line: string)
    requires '\n' !in line && line != ""
    ensures IsLines(line, [line])
  {}

  lemma {:induction false} EveryTextHasLines(text: string)
    ensures IsLines(text, Lines(text))
    decreases |text|
  {
    hide Lines, IsLines;
    var n := LineLength(text);
    if text == "" {
      NoLines();
    } else if text[n - 1] == '\n' {
      var line, rest := text[..n - 1], text[n..];
      assert text == line + "\n" + rest;
      EveryTextHasLines(rest);
      FirstLine(line, rest);
      LineEnded(line, rest, Lines(rest));
    } else {
      assert text[..n] == text && '\n' !in text;
      FirstLine(text, "");
      LineOpen(text);
    }
  }

  // ------------------------------------------------------------------- fields

  /** The fields of a line with one blank between any two. */
  function Spaced(fields: seq<string>): string {
    if fields == [] then ""
    else if |fields| == 1 then fields[0]
    else Spaced(fields[..|fields| - 1]) + [32 as char] + fields[|fields| - 1]
  }

  /** A line goes when it has no field, is the address of no host, or ends with
      the prefix length 0. */
  ghost predicate Dropped(fields: seq<string>) {
    || fields == []
    || fields == ["0.0.0.0"]
    || (|fields[|fields| - 1]| >= 2 && fields[|fields| - 1][|fields[|fields| - 1]| - 2..] == "/0")
  }

  lemma {:induction false} SpacedIsJoined(fields: seq<string>)
    ensures JoinSpace(fields) == Spaced(fields)
  {
    if |fields| > 1 {
      SpacedIsJoined(fields[1..]);
      SpacedFirst(fields);
    }
  }

  lemma {:induction false} SpacedFirst(fields: seq<string>)
    requires |fields| > 1
    ensures Spaced(fields) == fields[0] + " " + Spaced(fields[1..])
  {
    var n := |fields| - 1;
    var rest := fields[1..];
    if n == 1 {
      assert fields[..1] == [fields[0]] && rest == [fields[1]];
      assert Spaced(fields[..1]) == fields[0];
    } else {
      SpacedFirst(fields[..n]);
      assert fields[..n][1..] == rest[..n - 1] && rest[n - 1] == fields[n];
      assert fields[..n][0] == fields[0];
    }
  }

  lemma {:induction false} SpacedLength(fields: seq<string>)
    requires AllTokens(fields) && |fields| > 1
    ensures ' ' in Spaced(fields)
  {}

  /** The tests on the joined text are tests on the fields. */
  lemma DroppedFields(fields: seq<string>)
    requires AllTokens(fields)
    ensures Sanitizer.Dropped(JoinSpace(fields)) <==> Dropped(fields)
  {
    hide LeadSpace;
    SpacedIsJoined(fields);
    var text := Spaced(fields);
    if fields == [] {
    } else if |fields| == 1 {
      assert IsToken(fields[0]) && text == fields[0];
    } else {
      SpacedLength(fields);
      assert text != "0.0.0.0" by { assert ' ' !in "0.0.0.0"; }
      var n := |fields| - 1;
      assert IsToken(fields[n]) && text == Spaced(fields[..n]) + " " + fields[n];
      EndOfLast(Spaced(fields[..n]), fields[n]);
    }
  }

  lemma EndOfLast(before: string, last: string)
    requires IsToken(last)
    ensures HasSuffix(before + " " + last, "/0") <==> HasSuffix(last, "/0")
  {
    var text := before + " " + last;
    if |last| == 1 {
      assert text[|text| - 2] == ' ';
    } else {
      assert text[|text| - 2..] == last[|last| - 2..];
    }
  }

  // ------------------------------------------------------------- main results

  lemma CleanLine(line: string, fields: seq<string>)
    requires Woven(line, fields)
    ensures Clean(line) == if Dropped(fields) then "" else Spaced(fields) + [10 as char]
  {
    WovenIsFields(line, fields);
    FieldsAreTokens(line);
    DroppedFields(fields);
    SpacedIsJoined(fields);
    hide Spaced, JoinSpace, Fields, Dropped;
  }

  /** The sanitized file, for lines and their fields. */
  ghost function TextOf(fields: seq<seq<string>>): string {
    if fields == [] then ""
    else (if Dropped(fields[0]) then "" else Spaced(fields[0]) + [10 as char]) + TextOf(fields[1..])
  }

  lemma {:induction false} CleanedLines(lines: seq<string>, fields: seq<seq<string>>)
    requires |lines| == |fields| && forall i :: 0 <= i < |lines| ==> Woven(lines[i], fields[i])
    ensures CleanAll(lines) == TextOf(fields)
  {
    if lines != [] {
      hide Clean, Spaced, Dropped, Woven;
      CleanLine(lines[0], fields[0]);
      CleanedLines(lines[1..], fields[1..]);
    }
  }

  /** A sanitized file is, line by line, the fields of the file without its mark
      and carriage returns, one blank between them, dropped lines left out.
      Every reader of the file, whatever its buffers, returns this text. */
  lemma SanitizedIs(file: string, body: string, text: string, picks: seq<nat>, lines: seq<string>,
                    fields: seq<seq<string>>)
    requires Unmarked(file, body) && WithoutReturns(body, text, picks) && IsLines(text, lines)
    requires |lines| == |fields| && forall i :: 0 <= i < |lines| ==> Woven(lines[i], fields[i])
    ensures Transform(file) == TextOf(fields)
  {
    hide Woven, Lines, RemoveCr, CleanAll;
    StripBomUnmarks(file);
    if |file| >= 3 { assert file[3..] == StripBom(file) || StripBom(file) == file; }
    assert body == StripBom(file) by { UnmarkedOnce(file, body, StripBom(file)); }
    var own := RemoveCrPicks(body);
    SamePicks(body, text, picks, RemoveCr(body), own);
    LinesAreLines(text, lines);
    CleanedLines(lines, fields);
  }

  /** Every file has such lines and fields. */
  lemma EveryFileIsSanitized(file: string)
    returns (body: string, text: string, picks: seq<nat>, lines: seq<string>, fields: seq<seq<string>>)
    ensures Unmarked(file, body) && WithoutReturns(body, text, picks) && IsLines(text, lines)
    ensures |lines| == |fields| && forall i :: 0 <= i < |lines| ==> Woven(lines[i], fields[i])
    ensures Transform(file) == TextOf(fields)
  {
    hide Woven, Lines, RemoveCr, CleanAll, Transform, TextOf, IsLines, WithoutReturns, Unmarked;
    StripBomUnmarks(file);
    body := StripBom(file);
    picks := RemoveCrPicks(body);
    text := RemoveCr(body);
    lines := Lines(text);
    EveryTextHasLines(text);
    fields := seq(|lines|, i requires 0 <= i < |lines| => Fields(lines[i]));
    forall i | 0 <= i < |lines| ensures Woven(lines[i], fields[i]) { FieldsWoven(lines[i]); }
    SanitizedIs(file, body, text, picks, lines, fields);
  }

  lemma UnmarkedOnce(file: string, a: string, b: string)
    requires Unmarked(file, a) && Unmarked(file, b)
    ensures a == b
  {
    if |file| >= 3 && file == file[..3] + a && file == file[..3] + b {
      assert a == file[3..] && b == file[3..];
    }
  }

  lemma {:induction false} SamePicks(s: string, a: string, ps: seq<nat>, b: string, qs: seq<nat>)
    requires WithoutReturns(s, a, ps) && WithoutReturns(s, b, qs)
    ensures a == b
  {
    SameIncreasing(ps, qs) by {
      forall k ensures k in ps <==> k in qs {
        if k in ps || k in qs { assert 0 <= k < |s|; }
      }
    }
  }

  lemma {:induction false} SameIncreasing(ps: seq<nat>, qs: seq<nat>)
    requires forall i, j :: 0 <= i < j < |ps| ==> ps[i] < ps[j]
    requires forall i, j :: 0 <= i < j < |qs| ==> qs[i] < qs[j]
    requires forall k :: k in ps <==> k in qs
    ensures ps == qs
  {
    assert ps != [] ==> ps[0] in ps;
    assert qs != [] ==> qs[0] in qs;
    if ps != [] {
      assert ps[0] == qs[0];
      forall k ensures k in ps[1..] <==> k in qs[1..] {
        InTail(ps, k);
        InTail(qs, k);
      }
      SameIncreasing(ps[1..], qs[1..]);
      assert ps == [ps[0]] + ps[1..] && qs == [qs[0]] + qs[1..];
    }
  }

  lemma InTail(ps: seq<nat>, k: nat)
    requires forall i, j :: 0 <= i < j < |ps| ==> ps[i] < ps[j]
    requires ps != []
    ensures k in ps[1..] <==> k in ps && k != ps[0]
  {
    if k in ps && k != ps[0] {
      var i :| 0 <= i < |ps| && ps[i] == k;
      assert ps[1..][i - 1] == k;
    }
  }
}
