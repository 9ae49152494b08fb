/** The line sanitizer of downloaded feeds (pkg/downloader/canonical.go): a
    reader that cleans line by line and hands out as much as the caller has room
    for, against a transformation of the whole file that knows nothing of lines
    read or buffers filled. What one sanitizing leaves is looked at once more
    by a second one. Strings hold one char per byte. */
module Sanitizer {
  import opened GoText

  const BOM := [0xEF as char, 0xBB as char, 0xBF as char]

  /** `bytes.ReplaceAll(line, "\r", nil)`. */
  function RemoveCr(s: string): string {
    if s == "" then "" else Kept(s[0]) + RemoveCr(s[1..])
  }

  function Kept(c: char): string {
    if c == '\r' then "" else [c]
  }

  /** `bytes.TrimRight(line, "\n")`. */
  function TrimNewlines(s: string): (t: string)
    ensures t <= s
  {
    if s != "" && s[|s| - 1] == '\n' then TrimNewlines(s[..|s| - 1]) else s
  }

  predicate HasSuffix(s: string, suffix: string) {
    |s| >= |suffix| && s[|s| - |suffix|..] == suffix
  }

  predicate Dropped(normalized: string) {
    normalized == "" || normalized == "0.0.0.0" || HasSuffix(normalized, "/0")
  }

  /** What one line without its end contributes. */
  function Clean(line: string): string {
    var normalized := JoinSpace(Fields(line));
    if Dropped(normalized) then "" else normalized + "\n"
  }

  /** `ReadBytes('\n')`: up to and with the first newline, or everything. */
  function LineLength(s: string): (n: nat)
    ensures n <= |s| && (s != "" ==> n > 0)
    ensures forall i :: 0 <= i < n - 1 ==> s[i] != '\n'
    ensures n < |s| ==> s[n - 1] == '\n'
  {
    if s == "" then 0 else if s[0] == '\n' then 1 else 1 + LineLength(s[1..])
  }

  // ------------------------------------------------ the whole-file definition

  function StripBom(file: string): string {
    if BOM <= file then file[3..] else file
  }

  /** Split at newlines; text after the last one counts as a line. */
  function Lines(file: string): seq<string> {
    if file == "" then []
    else
      var n := LineLength(file);
      (if file[n - 1] == '\n' then [file[..n - 1]] else [file[..n]]) + Lines(file[n..])
  }

  function CleanAll(lines: seq<string>): string {
    if lines == [] then "" else Clean(lines[0]) + CleanAll(lines[1..])
  }

  /** Byte order mark, carriage returns, then every line on its own. */
  function Transform(file: string): string {
    CleanAll(Lines(RemoveCr(StripBom(file))))
  }

  // ------------------------------------------------------ the reader's version

  /** What the reader makes of one line it has read. */
  function Normalize(line: string, first: bool): string {
    Clean(TrimNewlines(RemoveCr(if first then StripBom(line) else line)))
  }

  predicate Ended(s: string) {
    s != "" && s[|s| - 1] == '\n'
  }

  /** What is still to come from unread input. When the source fails instead of
      ending, an unfinished last line is lost. */
  function Rest(input: string, faulty: bool, first: bool): string
    decreases |input|
  {
    if input == "" then ""
    else
      var n := LineLength(input);
      if faulty && !Ended(input[..n]) then ""
      else Normalize(input[..n], first) + Rest(input[n..], faulty, false)
  }

  datatype Status = More | Eof | Fault

  /** One `Read` into `size` bytes, on what was still to come before it. */
  ghost predicate ReadStep(faulty: bool, size: nat, before: string, out: string, status: Status, after: string) {
    && before == out + after && |out| <= size
    && (status == More && size > 0 ==> out != "")
    && (status == More && |out| < size ==> after == "")
    && (status != More ==> before == "" && size > 0)
    && (status == Eof ==> !faulty) && (status == Fault ==> faulty)
  }

  class SanitizeReader {
    var input: string
    const faulty: bool
    var buf: string
    var firstLine: bool

    constructor (file: string, fails: bool)
      ensures input == file && faulty == fails && buf == "" && firstLine
    {
      input, faulty, buf, firstLine := file, fails, "", true;
    }

    ghost function Remaining(): string
      reads this
    {
      buf + Rest(input, faulty, firstLine)
    }

    method Read(size: nat) returns (out: string, status: Status)
      modifies this
      ensures ReadStep(faulty, size, old(Remaining()), out, status, Remaining())
    {
      hide Rest, Normalize, LineLength, Ended;
      out := "";
      while |out| < size
        invariant |out| <= size && old(Remaining()) == out + Remaining()
        decreases |input|, |buf|
      {
        if |buf| > 0 {
          var copied := if |buf| < size - |out| then |buf| else size - |out|;
          CopyOut(out, buf, copied, Rest(input, faulty, firstLine));
          out := out + buf[..copied];
          buf := buf[copied..];
          continue;
        }
        var line := input[..LineLength(input)];
        OneLine(input, faulty, firstLine);
        if faulty && !Ended(line) {
          input := "";
          OneLine(input, faulty, firstLine);
          return out, if |out| > 0 then More else Fault;
        }
        if |line| == 0 {
          return out, if |out| > 0 then More else Eof;
        }
        buf := Normalize(line, firstLine);
        input, firstLine := input[|line|..], false;
      }
      status := More;
    }
  }

  lemma CopyOut(out: string, buf: string, copied: nat, rest: string)
    requires copied <= |buf|
    ensures out + (buf + rest) == out + buf[..copied] + (buf[copied..] + rest)
  {}

  lemma OneLine(input: string, faulty: bool, first: bool)
    ensures
      var n := LineLength(input);
      && (n == 0 <==> input == "") && (Ended(input[..n]) ==> n > 0)
      && ((faulty && !Ended(input[..n])) || n == 0 ==> Rest(input, faulty, first) == "")
      && (n > 0 && !(faulty && !Ended(input[..n])) ==>
            Rest(input, faulty, first) == Normalize(input[..n], first) + Rest(input[n..], faulty, false))
  {}

  // ------------------------------------------------------------ main results

  lemma RemoveCrFirst(s: string)
    ensures RemoveCr(s) == if s == "" then "" else Kept(s[0]) + RemoveCr(s[1..])
  {}

  lemma {:induction false} RemoveCrConcat(a: string, b: string)
    ensures RemoveCr(a + b) == RemoveCr(a) + RemoveCr(b)
  {
    hide RemoveCr, Kept;
    RemoveCrFirst(a);
    if a == "" {
      assert a + b == b;
    } else {
      RemoveCrConcat(a[1..], b);
      RemoveCrFirst(a + b);
      assert (a + b)[0] == a[0] && (a + b)[1..] == a[1..] + b;
    }
  }

  lemma {:induction false} RemoveCrKeepsLine(s: string)
    ensures '\n' !in s ==> '\n' !in RemoveCr(s)
  {
    if s != "" {
      RemoveCrKeepsLine(s[1..]);
      assert s[0] in s && forall c :: c in s[1..] ==> c in s;
    }
  }

  lemma NoNewlineLeft(s: string)
    requires '\n' !in s
    ensures TrimNewlines(s + "\n") == s && TrimNewlines(s) == s
  {
    assert (s + "\n")[..|s|] == s;
    if s != "" { assert s[|s| - 1] in s; }
  }

  /** A line, with or without its end, is the first of the split. */
  lemma FirstLine(line: string, rest: string)
    requires '\n' !in line
    ensures Lines(line + "\n" + rest) == [line] + Lines(rest)
    ensures line != "" ==> Lines(line) == [line]
  {
    var s := line + "\n" + rest;
    assert s == line + ("\n" + rest) && s[|line|] == '\n' && s[..|line|] == line && s[|line| + 1..] == rest;
    assert line + "" == line && line[..|line|] == line && line[|line|..] == "";
    if line != "" { assert line[|line| - 1] in line; }
  }

  /** The lines of a file after its first, read one by one. */
  lemma {:induction false} RestIsTransform(input: string)
    ensures Rest(input, false, false) == CleanAll(Lines(RemoveCr(input)))
    decreases |input|
  {
    if input != "" {
      var n := LineLength(input);
      RestIsTransform(input[n..]);
      OneCleaned(input);
    }
  }

  lemma EndedLine(line: string, rest: string)
    requires '\n' !in line
    ensures CleanAll(Lines(RemoveCr(line + "\n" + rest)))
         == Normalize(line + "\n", false) + CleanAll(Lines(RemoveCr(rest)))
  {
    RemoveCrKeepsLine(line);
    RemoveCrConcat(line, "\n");
    RemoveCrConcat(line + "\n", rest);
    var body := RemoveCr(line);
    assert RemoveCr("\n") == "\n";
    hide RemoveCr, Clean, Lines, TrimNewlines;
    FirstLine(body, RemoveCr(rest));
    NoNewlineLeft(body);
    assert ([body] + Lines(RemoveCr(rest)))[1..] == Lines(RemoveCr(rest));
  }

  lemma OpenLine(line: string)
    requires '\n' !in line
    ensures CleanAll(Lines(RemoveCr(line))) == Normalize(line, false)
  {
    RemoveCrKeepsLine(line);
    var body := RemoveCr(line);
    NoNewlineLeft(body);
    if body == "" {
      assert Clean(body) == "";
    } else {
      FirstLine(body, "");
      assert [body][1..] == [];
    }
  }

  lemma OneCleaned(input: string)
    requires input != ""
    ensures
      var n := LineLength(input);
      CleanAll(Lines(RemoveCr(input))) == Normalize(input[..n], false) + CleanAll(Lines(RemoveCr(input[n..])))
  {
    var n := LineLength(input);
    assert input == input[..n] + input[n..];
    hide RemoveCr, Clean, Lines, Normalize;
    if input[n - 1] == '\n' {
      assert input[..n] == input[..n - 1] + "\n";
      EndedLine(input[..n - 1], input[n..]);
    } else {
      assert input[..n] == input && input[n..] == "";
      OpenLine(input);
      OpenLine("");
    }
  }

  lemma PlainFirstLine(file: string)
    requires file != "" && !(BOM <= file)
    ensures Rest(file, false, true) == Transform(file)
  {
    hide RemoveCr, Clean, Lines, TrimNewlines, CleanAll;
    var n := LineLength(file);
    assert file == file[..n] + file[n..];
    RestIsTransform(file[n..]);
    OneCleaned(file);
  }

  lemma CutTwice(s: string, k: nat, n: nat)
    requires k <= n <= |s|
    ensures s[..n][k..] == s[k..n] && s[k..][..n - k] == s[k..n] && s[k..][n - k..] == s[n..]
  {}

  lemma MarkedFirstLine(file: string)
    requires BOM <= file
    ensures Rest(file, false, true) == Transform(file)
  {
    hide RemoveCr, Clean, Lines, TrimNewlines, CleanAll, Rest, LineLength;
    OneLine(file, false, true);
    var n := LineLength(file);
    RestIsTransform(file[n..]);
    CutTwice(file, 3, n);
    assert Normalize(file[..n], true) == Normalize(file[3..n], false);
    if n == 3 {
      assert file[3..] == "" == file[n..] && file[3..n] == "";
      OneLine("", false, false);
      OpenLine("");
    } else {
      OneCleaned(file[3..]);
    }
  }

  /** Without a fault the reader delivers exactly the transformed file. */
  lemma ReaderDeliversTransform(file: string)
    ensures Rest(file, false, true) == Transform(file)
  {
    if BOM <= file {
      MarkedFirstLine(file);
    } else if file != "" {
      PlainFirstLine(file);
    }
  }

  /** The finished lines of what the source produced before failing. */
  ghost predicate FinishedLines(input: string, finished: string) {
    finished <= input && (finished == "" || Ended(finished)) && '\n' !in input[|finished|..]
  }

  lemma FinishedBehind(input: string, finished: string, n: nat)
    requires FinishedLines(input, finished) && 0 < n <= |finished|
    ensures finished[..n] == input[..n] && FinishedLines(input[n..], finished[n..])
  {
    assert finished[n..] <= input[n..] by { assert finished == input[..|finished|]; }
    assert input[n..][|finished[n..]|..] == input[|finished|..];
  }

  /** A failing source costs its unfinished last line and nothing else. */
  lemma {:induction false} FaultCostsOpenLine(input: string, finished: string, first: bool)
    requires FinishedLines(input, finished)
    ensures Rest(input, true, first) == Rest(finished, false, first)
    decreases |input|
  {
    hide FinishedLines, Rest, Normalize, LineLength;
    OneLine(input, true, first);
    OneLine(finished, false, first);
    if finished == "" {
      NoneFinished(input);
    } else {
      SameFirstLine(input, finished);
      var n := LineLength(input);
      FinishedBehind(input, finished, n);
      FaultCostsOpenLine(input[n..], finished[n..], false);
    }
  }

  lemma NoneFinished(input: string)
    requires FinishedLines(input, "")
    ensures '\n' !in input
  {
    assert input[0..] == input;
  }

  lemma {:induction false} SameFirstLine(input: string, finished: string)
    requires FinishedLines(input, finished) && finished != ""
    ensures 0 < LineLength(finished) == LineLength(input) <= |finished| && Ended(input[..LineLength(input)])
    decreases |finished|
  {
    if finished[0] != '\n' {
      FinishedBehind(input, finished, 1);
      assert finished[1..][|finished| - 2] == '\n';
      SameFirstLine(input[1..], finished[1..]);
    }
  }

  function Concat(outs: seq<string>): string {
    if outs == [] then "" else Concat(outs[..|outs| - 1]) + outs[|outs| - 1]
  }

  /** A run of reads: what was left before and after each, with its result. */
  ghost predicate Reads(faulty: bool, sizes: seq<nat>, outs: seq<string>, statuses: seq<Status>, left: seq<string>) {
    && |sizes| == |outs| == |statuses| == |left| - 1
    && forall i :: 0 <= i < |sizes| ==>
      sizes[i] > 0 && ReadStep(faulty, sizes[i], left[i], outs[i], statuses[i], left[i + 1])
  }

  lemma {:induction false} ReadsAddUp(faulty: bool, sizes: seq<nat>, outs: seq<string>, statuses: seq<Status>,
                                      left: seq<string>, k: nat)
    requires Reads(faulty, sizes, outs, statuses, left) && k <= |sizes|
    ensures left[0] == Concat(outs[..k]) + left[k]
    ensures (forall i :: 0 <= i < k ==> statuses[i] == More) ==> |Concat(outs[..k])| >= k
    ensures (exists i :: 0 <= i < k && statuses[i] != More) ==> left[k] == ""
  {
    if k > 0 {
      ReadsAddUp(faulty, sizes, outs, statuses, left, k - 1);
      assert outs[..k][..k - 1] == outs[..k - 1];
      assert ReadStep(faulty, sizes[k - 1], left[k - 1], outs[k - 1], statuses[k - 1], left[k]);
    }
  }

  /** Chunk independence: however large the buffers, the reads concatenate to
      what was to come once one of them reports the end, and one does after at
      most as many reads as there are bytes; the end is EOF unless the source
      failed. */
  lemma ChunkIndependence(faulty: bool, sizes: seq<nat>, outs: seq<string>, statuses: seq<Status>, left: seq<string>)
    requires Reads(faulty, sizes, outs, statuses, left)
    ensures Concat(outs) <= left[0]
    ensures (exists i :: 0 <= i < |sizes| && statuses[i] != More) ==> Concat(outs) == left[0]
    ensures |sizes| > |left[0]| ==> exists i :: 0 <= i < |sizes| && statuses[i] != More
    ensures forall i :: 0 <= i < |sizes| && statuses[i] != More ==> statuses[i] == if faulty then Fault else Eof
  {
    ReadsAddUp(faulty, sizes, outs, statuses, left, |sizes|);
    assert outs[..|outs|] == outs;
    forall i | 0 <= i < |sizes| && statuses[i] != More ensures statuses[i] == if faulty then Fault else Eof {
      assert ReadStep(faulty, sizes[i], left[i], outs[i], statuses[i], left[i + 1]);
    }
  }

  /** Read in chunks of any positive sizes, a file that does not fail comes out
      as its whole-file transformation: what the reads return is a beginning of
      it, and all of it once one of them reports the end, as one does after at
      most as many reads as it has bytes. */
  method ReadInChunks(file: string, fails: bool, sizes: seq<nat>) returns (outs: seq<string>, statuses: seq<Status>)
    requires forall i :: 0 <= i < |sizes| ==> sizes[i] > 0
    ensures |outs| == |statuses| == |sizes| && forall i :: 0 <= i < |sizes| ==> |outs[i]| <= sizes[i]
    ensures !fails ==> Concat(outs) <= Transform(file) && Fault !in statuses
    ensures !fails && Eof in statuses ==> Concat(outs) == Transform(file)
    ensures !fails && |sizes| > |Transform(file)| ==> Eof in statuses
    ensures fails ==> Concat(outs) <= Rest(file, true, true) && Eof !in statuses
    ensures fails && Fault in statuses ==> Concat(outs) == Rest(file, true, true)
  {
    hide Rest, Transform, Concat;
    var reader := new SanitizeReader(file, fails);
    outs, statuses := [], [];
    ghost var left := [reader.Remaining()];
    for i := 0 to |sizes|
      invariant |left| == i + 1 && left[0] == Rest(file, fails, true)
      invariant reader.faulty == fails && left[i] == reader.Remaining()
      invariant Reads(fails, sizes[..i], outs, statuses, left)
      invariant forall j :: 0 <= j < i ==> |outs[j]| <= sizes[j]
    {
      var out, status := reader.Read(sizes[i]);
      assert sizes[..i + 1] == sizes[..i] + [sizes[i]];
      outs, statuses, left := outs + [out], statuses + [status], left + [reader.Remaining()];
    }
    assert sizes[..|sizes|] == sizes;
    ChunkIndependence(fails, sizes, outs, statuses, left);
    ReaderDeliversTransform(file);
  }

  // ------------------------------------------------------- a second cleaning

  lemma {:induction false} JoinIsShort(s: string)
    ensures |JoinSpace(Fields(s))| <= |s|
    ensures LeadSpace(s) > 0 && Fields(s) != [] ==> |JoinSpace(Fields(s))| < |s|
    decreases |s|
  {
    if s != "" {
      if LeadSpace(s) > 0 {
        JoinIsShort(s[LeadSpace(s)..]);
      } else {
        JoinIsShort(s[TokenLength(s)..]);
      }
    }
  }

  /** White space never survives inside a field. */
  lemma {:induction false} JoinHasNoBreak(fields: seq<string>)
    requires AllTokens(fields)
    ensures '\n' !in JoinSpace(fields) && '\r' !in JoinSpace(fields)
  {
    if fields != [] {
      TokenHasNoBreak(fields[0]);
      JoinHasNoBreak(fields[1..]);
    }
  }

  lemma TokenHasNoBreak(t: string)
    requires IsToken(t)
    ensures '\n' !in t && '\r' !in t
  {
    forall i | 0 <= i < |t| ensures t[i] != '\n' && t[i] != '\r' {
      assert LeadSpace(t[i..]) == 0 && t[i..][0] == t[i];
    }
  }

  /** A line as the sanitizer writes it, without its end. */
  ghost predicate Normalized(line: string) {
    line == JoinSpace(Fields(line)) && !Dropped(line) && '\n' !in line && '\r' !in line
  }

  lemma CleanIsNormalized(line: string)
    ensures Clean(line) == "" || (exists l :: Normalized(l) && Clean(line) == l + "\n")
  {
    var l := JoinSpace(Fields(line));
    CollapseIdempotent(line);
    FieldsAreTokens(line);
    JoinHasNoBreak(Fields(line));
    assert Dropped(l) || Normalized(l);
  }

  function Unlines(lines: seq<string>): string {
    if lines == [] then "" else lines[0] + "\n" + Unlines(lines[1..])
  }

  ghost predicate AllNormalized(lines: seq<string>) {
    forall i :: 0 <= i < |lines| ==> Normalized(lines[i])
  }

  /** The output is a list of normalized lines. */
  lemma {:induction false} OutputLines(lines: seq<string>) returns (out: seq<string>)
    ensures AllNormalized(out) && CleanAll(lines) == Unlines(out)
  {
    out := [];
    if lines != [] {
      out := OutputLines(lines[1..]);
      CleanIsNormalized(lines[0]);
      if Clean(lines[0]) != "" {
        var l :| Normalized(l) && Clean(lines[0]) == l + "\n";
        assert ([l] + out)[1..] == out;
        out := [l] + out;
      }
    }
  }

  lemma {:induction false} NoCrToRemove(s: string)
    requires '\r' !in s
    ensures RemoveCr(s) == s
  {
    if s != "" {
      assert s[0] in s && forall c :: c in s[1..] ==> c in s;
      NoCrToRemove(s[1..]);
      assert s == [s[0]] + s[1..];
    }
  }

  lemma {:induction false} CleanAgain(out: seq<string>)
    requires AllNormalized(out)
    ensures CleanAll(Lines(RemoveCr(Unlines(out)))) == Unlines(out)
    decreases |out|
  {
    if out != [] {
      var rest := Unlines(out[1..]);
      CleanAgain(out[1..]);
      EndedLine(out[0], rest);
      NormalizedOnce(out[0]);
    }
  }

  lemma NormalizedOnce(l: string)
    requires Normalized(l)
    ensures Normalize(l + "\n", false) == l + "\n"
  {
    hide Fields, JoinSpace;
    assert '\r' !in l + "\n";
    NoCrToRemove(l + "\n");
    NoNewlineLeft(l);
  }

  /** Sanitizing sanitized output changes nothing, exactly when the output does
      not itself begin with a byte order mark (as after two marks in a row). */
  lemma StableExactlyWhen(file: string)
    ensures Transform(Transform(file)) == Transform(file) <==> !(BOM <= Transform(file))
  {
    hide RemoveCr, Clean, Lines, CleanAll, Normalized, Unlines;
    var t := Transform(file);
    var out := OutputLines(Lines(RemoveCr(StripBom(file))));
    CleanAgain(out);
    if BOM <= t { MarkAgain(out, t); }
  }

  /** The shortest such file, two marks and nothing else: the first sanitizing
      leaves a mark on a line of its own, the second one nothing. */
  lemma TwoMarks()
    ensures Transform(BOM + BOM) == BOM + "\n" && Transform(BOM + "\n") == ""
  {
    var file := BOM + BOM;
    assert file[3..] == BOM && BOM <= file;
    OneMarkedLine();
    assert (BOM + "\n")[3..] == "\n" && BOM <= BOM + "\n";
    assert Lines("\n") == [""] && Clean("") == "" && [""][1..] == [];
    assert RemoveCr("\n") == "\n";
  }

  lemma OneMarkedLine()
    ensures CleanAll(Lines(RemoveCr(BOM))) == BOM + "\n"
  {
    hide Fields, JoinSpace;
    MarkHasNoCr();
    MarkIsField();
    assert LineLength(BOM) == 3 && BOM[..3] == BOM && BOM[3..] == "" by {
      assert BOM[0] != '\n' && BOM[1] != '\n' && BOM[2] != '\n';
    }
    assert Lines(BOM) == [BOM] && [BOM][1..] == [];
    assert !HasSuffix(BOM, "/0") by { assert BOM[1] != '/'; }
    assert |BOM| != |"0.0.0.0"|;
    assert Clean(BOM) == BOM + "\n";
  }

  lemma MarkHasNoCr()
    ensures RemoveCr(BOM) == BOM
  {
    assert forall c :: c in BOM ==> c != '\r';
    NoCrToRemove(BOM);
  }

  lemma MarkIsField()
    ensures JoinSpace(Fields(BOM)) == BOM
  {
    hide TokenLength;
    assert BOM[0..] == BOM && BOM[1..] == [BOM[1], BOM[2]] && BOM[2..] == [BOM[2]];
    assert LeadSpace(BOM[0..]) == 0 && LeadSpace(BOM[1..]) == 0 && LeadSpace(BOM[2..]) == 0;
    assert TokenLength(BOM) == 3 && BOM[..3] == BOM && BOM[3..] == "";
    assert Fields(BOM) == [BOM] + Fields("") && Fields("") == [];
  }

  lemma MarkAgain(out: seq<string>, t: string)
    requires AllNormalized(out) && t == Unlines(out) && BOM <= t
    ensures CleanAll(Lines(RemoveCr(t[3..]))) != t
  {
    assert out != [];
    CleanAgain(out[1..]);
    SecondMark(out[0], Unlines(out[1..]), t);
  }

  lemma SecondMark(l: string, rest: string, t: string)
    requires Normalized(l) && t == l + "\n" + rest && BOM <= t
    requires CleanAll(Lines(RemoveCr(rest))) == rest
    ensures CleanAll(Lines(RemoveCr(t[3..]))) != t
  {
    hide RemoveCr, Clean, Lines, CleanAll, Normalize;
    BomInside(l, rest, t);
    hide Normalized;
    ShorterLine(l);
    EndedLine(l[3..], rest);
    DropThree(l, rest);
    assert |Normalize(l[3..] + "\n", false) + rest| < |t|;
  }

  lemma DropThree(l: string, rest: string)
    requires |l| >= 3
    ensures (l + "\n" + rest)[3..] == l[3..] + "\n" + rest
  {}

  lemma BomInside(l: string, rest: string, t: string)
    requires t == l + "\n" + rest && BOM <= t && '\n' !in l
    ensures |l| >= 3 && '\n' !in l[3..]
  {
    assert t[0] == BOM[0] && t[1] == BOM[1] && t[2] == BOM[2];
    assert t[|l|] == '\n';
    assert |l| != 0 && |l| != 1 && |l| != 2;
    assert forall c :: c in l[3..] ==> c in l;
  }

  lemma ShorterLine(l: string)
    requires |l| >= 3 && Normalized(l)
    ensures |Normalize(l[3..] + "\n", false)| < |l| + 1
  {
    assert forall c :: c in l[3..] ==> c in l;
    NoCrToRemove(l[3..] + "\n");
    NoNewlineLeft(l[3..]);
    JoinIsShort(l[3..]);
  }
}
