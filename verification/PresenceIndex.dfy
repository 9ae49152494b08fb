/** The binary index of feeds with entities
    (pkg/engine/entity_feed_presence_index.go): header, count, then each name
    with its length, in little-endian order. Marshalling normalises any list of
    names; parsing accepts the files that marshalling writes and returns the
    normalised list, and nothing else. */
module PresenceIndex {
  import opened Wrappers
  import opened Names
  import GoText

  const MAGIC := "UIPEFPIX"
  const FORMAT := 1
  const HEADER_BYTES := 16
  const MAX_FILE_BYTES := 8 * 0x10_0000
  const MAX_NAME_BYTES := 0xFFFF

  // --------------------------------------------------------- fixed-width words

  function Le16(n: nat): string
    requires n < 0x1_0000
  {
    [(n % 256) as char, (n / 256) as char]
  }

  function Uint16(s: string): (n: nat)
    requires |s| == 2
  {
    s[0] as int + 256 * s[1] as int
  }

  /** Low half first; `uint32(n)` keeps the low 32 bits. */
  function Le32(n: nat): string {
    var low := n % 0x1_0000_0000;
    Le16(low % 0x1_0000) + Le16(low / 0x1_0000)
  }

  function Uint32(s: string): (n: nat)
    requires |s| == 4
  {
    Uint16(s[..2]) + 0x1_0000 * Uint16(s[2..])
  }

  lemma Word16(n: nat)
    requires n < 0x1_0000
    ensures Uint16(Le16(n)) == n && GoText.Bytes(Le16(n)) && |Le16(n)| == 2
  {}

  lemma Word16Back(s: string)
    requires |s| == 2 && GoText.Bytes(s)
    ensures Uint16(s) < 0x1_0000 && Le16(Uint16(s)) == s
  {
    assert s == [s[0], s[1]];
  }

  lemma Word32(n: nat)
    requires n < 0x1_0000_0000
    ensures Uint32(Le32(n)) == n && GoText.Bytes(Le32(n)) && |Le32(n)| == 4
  {
    hide Le16, Uint16;
    Word16(n % 0x1_0000);
    Word16(n / 0x1_0000);
    assert Le32(n)[..2] == Le16(n % 0x1_0000) && Le32(n)[2..] == Le16(n / 0x1_0000);
  }

  lemma Word32Back(s: string)
    requires |s| == 4 && GoText.Bytes(s)
    ensures Uint32(s) < 0x1_0000_0000 && Le32(Uint32(s)) == s
  {
    hide Le16, Uint16;
    Word16Back(s[..2]);
    Word16Back(s[2..]);
    assert s == s[..2] + s[2..];
  }

  // ------------------------------------------------------------------- format

  function Entry(name: string): string
    requires |name| <= MAX_NAME_BYTES
  {
    Le16(|name|) + name
  }

  ghost predicate Short(names: seq<string>) {
    forall i :: 0 <= i < |names| ==> |names[i]| <= MAX_NAME_BYTES
  }

  ghost function Entries(names: seq<string>): string
    requires Short(names)
  {
    if names == [] then "" else Entries(names[..|names| - 1]) + Entry(names[|names| - 1])
  }

  function Header(count: nat): string {
    MAGIC + Le32(FORMAT) + Le32(count)
  }

  /** The file that holds these names. */
  ghost function Encode(names: seq<string>): string
    requires Short(names)
  {
    Header(|names|) + Entries(names)
  }

  predicate Normal(name: string) {
    name != "" && GoText.TrimSpace(name) == name
  }

  /** The lists a file can hold: normalised, strictly sorted, short names. */
  ghost predicate Canonical(names: seq<string>) {
    && Increasing(names) && Short(names) && |names| < 0x1_0000_0000
    && forall i :: 0 <= i < |names| ==> Normal(names[i]) && GoText.Bytes(names[i])
  }

  /** The count guard, with the width the division result is cut to. */
  predicate GuardPasses(count: nat, size: nat) {
    count <= (size / 2) % 0x1_0000_0000
  }

  lemma {:induction false} EntriesSize(names: seq<string>)
    requires Short(names) && forall i :: 0 <= i < |names| ==> names[i] != ""
    ensures |Entries(names)| >= 3 * |names|
  {
    if names != [] { EntriesSize(names[..|names| - 1]); }
  }

  /** The guard never turns away a file below 2^33 bytes that marshalling
      wrote, in particular none below the loader's own size limit. */
  lemma GuardAcceptsMarshalled(names: seq<string>)
    requires Canonical(names) && |Encode(names)| < 0x2_0000_0000
    ensures GuardPasses(|names|, |Encode(names)|)
  {
    EntriesSize(names);
  }

  // -------------------------------------------------------------- normalising

  /** What `uniqueNonEmptyStrings` returns, whatever the order and repetitions. */
  ghost predicate NormalForm(values: seq<string>, names: seq<string>) {
    && Increasing(names)
    && forall n :: n in names <==> n != "" && exists v :: v in values && GoText.TrimSpace(v) == n
  }

  method UniqueNonEmptyStrings(values: seq<string>) returns (names: seq<string>)
    ensures NormalForm(values, names)
  {
    var seen: set<string> := {};
    for i := 0 to |values|
      invariant forall n :: n in seen <==> n != "" && exists j :: 0 <= j < i && GoText.TrimSpace(values[j]) == n
    {
      var value := GoText.TrimSpace(values[i]);
      if value != "" && value !in seen {
        seen := seen + {value};
      }
    }
    names := SortedKeys(seen);
  }

  lemma NormalFormUnique(values: seq<string>, a: seq<string>, b: seq<string>)
    requires NormalForm(values, a) && NormalForm(values, b)
    ensures a == b
  {
    IncreasingUnique(a, b);
  }

  /** Canonical lists are already in normal form. */
  lemma CanonicalIsNormalForm(names: seq<string>)
    requires Canonical(names)
    ensures NormalForm(names, names)
  {
    forall n | n in names ensures n != "" && GoText.TrimSpace(n) == n {
      var i :| 0 <= i < |names| && names[i] == n;
    }
    forall n, v | v in names && GoText.TrimSpace(v) == n ensures n in names {
      var i :| 0 <= i < |names| && names[i] == v;
    }
  }

  // -------------------------------------------------------------- marshalling

  lemma EntriesOneMore(names: seq<string>, name: string)
    requires Short(names) && |name| <= MAX_NAME_BYTES
    ensures Short(names + [name]) && Entries(names + [name]) == Entries(names) + Entry(name)
  {
    assert (names + [name])[..|names|] == names;
  }

  /** The loop that appends the entries. */
  method MarshalEntries(ns: seq<string>) returns (data: string)
    requires Short(ns)
    ensures data == Encode(ns)
  {
    data := MAGIC + Le32(FORMAT) + Le32(|ns|);
    assert ns[..0] == [] && data == Header(|ns|) + Entries([]);
    hide Entries, Header, Le16, Le32;
    for i := 0 to |ns|
      invariant data == Header(|ns|) + Entries(ns[..i])
    {
      EntriesOneMore(ns[..i], ns[i]);
      assert ns[..i] + [ns[i]] == ns[..i + 1];
      data := data + Le16(|ns[i]|);
      data := data + ns[i];
    }
    assert ns[..|ns|] == ns;
  }

  /** `marshalEntityFeedPresenceIndex`. */
  method Marshal(values: seq<string>) returns (r: Result<string>)
    ensures forall names :: NormalForm(values, names) ==>
      r == if Short(names) then Ok(Encode(names)) else Err("name is too long")
  {
    hide NormalForm, Encode;
    var names := UniqueNonEmptyStrings(values);
    forall ns | NormalForm(values, ns) ensures ns == names { NormalFormUnique(values, ns, names); }
    for i := 0 to |names|
      invariant forall j :: 0 <= j < i ==> |names[j]| <= MAX_NAME_BYTES
    {
      if |names[i]| > MAX_NAME_BYTES {
        return Err("name is too long");
      }
    }
    var data := MarshalEntries(names);
    r := Ok(data);
  }

  // ------------------------------------------------------------------ parsing

  ghost predicate Encodes(names: seq<string>, data: string) {
    Canonical(names) && Short(names) && data == Encode(names)
  }

  /** Where the entries after the first `i` begin. */
  ghost function OffsetOf(names: seq<string>, i: nat): nat
    requires Short(names) && i <= |names|
  {
    HEADER_BYTES + |Entries(names[..i])|
  }

  lemma {:induction false} EntriesSplit(names: seq<string>, i: nat)
    requires Short(names) && i < |names|
    ensures Entries(names[..i + 1]) == Entries(names[..i]) + Entry(names[i])
    ensures Entries(names[..i + 1]) <= Entries(names)
    decreases |names| - i
  {
    assert names[..i + 1][..i] == names[..i];
    if i + 1 < |names| {
      EntriesSplit(names, i + 1);
    } else {
      assert names[..i + 1] == names;
    }
  }

  lemma HeaderFields(count: nat)
    requires count < 0x1_0000_0000
    ensures |Header(count)| == HEADER_BYTES && Header(count)[..8] == MAGIC
    ensures Uint32(Header(count)[8..12]) == FORMAT && Uint32(Header(count)[12..16]) == count
  {
    Word32(FORMAT);
    Word32(count);
    hide Le32, Uint32;
    assert Header(count)[8..12] == Le32(FORMAT) && Header(count)[12..16] == Le32(count);
  }

  lemma SliceOfPrefix(header: string, rest: string, i: nat, j: nat)
    requires i <= j <= |header|
    ensures (header + rest)[i..j] == header[i..j]
  {}

  lemma HeaderRead(data: string, names: seq<string>)
    requires Encodes(names, data)
    ensures |data| >= HEADER_BYTES && data[..8] == MAGIC
    ensures Uint32(data[8..12]) == FORMAT && Uint32(data[12..16]) == |names|
    ensures OffsetOf(names, 0) == HEADER_BYTES && OffsetOf(names, |names|) == |data|
  {
    hide Header, Le32, Uint32, Short, Increasing, Normal, GoText.Bytes;
    var header := Header(|names|);
    HeaderFields(|names|);
    SliceOfPrefix(header, Entries(names), 0, 8);
    SliceOfPrefix(header, Entries(names), 8, 12);
    SliceOfPrefix(header, Entries(names), 12, 16);
    assert names[..|names|] == names && names[..0] == [];
  }

  /** At the right offset, a marshalled file shows its next name. */
  lemma NextName(data: string, names: seq<string>, i: nat)
    requires Short(names) && data == Encode(names) && i < |names|
    ensures
      var offset := OffsetOf(names, i);
      && offset + 2 + |names[i]| <= |data|
      && Uint16(data[offset..offset + 2]) == |names[i]|
      && data[offset + 2..offset + 2 + |names[i]|] == names[i]
      && OffsetOf(names, i + 1) == offset + 2 + |names[i]|
  {
    hide Le16, Uint16, Entries, Header;
    Word16(|names[i]|);
    EntriesSplit(names, i);
    HeaderSize(|names|);
    var before, after := Header(|names|) + Entries(names[..i]), Entries(names)[|Entries(names[..i + 1])|..];
    Regrouped(Header(|names|), Entries(names[..i]), Le16(|names[i]|), names[i], after);
    assert Entries(names) == Entries(names[..i]) + (Le16(|names[i]|) + names[i]) + after;
    MiddleSlices(data, before, Le16(|names[i]|), names[i], after);
  }

  /** Where the entry of name `i` begins: two bytes of length before each name. */
  function EntryStart(names: seq<string>, i: nat): nat
    requires i <= |names|
  {
    if i == 0 then 16 else EntryStart(names, i - 1) + 2 + |names[i - 1]|
  }

  lemma {:induction false} EntryStartIsOffset(names: seq<string>, i: nat)
    requires Short(names) && i <= |names|
    ensures EntryStart(names, i) == OffsetOf(names, i)
  {
    if i == 0 {
      assert names[..0] == [];
    } else {
      EntryStartIsOffset(names, i - 1);
      EntriesSplit(names, i - 1);
    }
  }

  /** A little-endian number of four bytes. */
  ghost predicate Number32(data: string, o: nat, n: nat) {
    && o + 4 <= |data|
    && data[o] as int + 256 * (data[o + 1] as int + 256 * (data[o + 2] as int + 256 * data[o + 3] as int)) == n
  }

  /** The header byte by byte: the magic, version 1 and the number of names. */
  lemma HeaderLayout(names: seq<string>)
    requires Canonical(names)
    ensures
      var data := Encode(names);
      && |data| >= 16 && data[..8] == "UIPEFPIX"
      && data[8..12] == [1 as char, 0 as char, 0 as char, 0 as char]
      && Number32(data, 12, |names|)
  {
    var data := Encode(names);
    assert Encodes(names, data);
    HeaderRead(data, names);
    HeaderIsBytes(names);
    hide Encode, Canonical, OffsetOf, Encodes, Uint32;
    Word32Bytes(data, 8);
    Word32Bytes(data, 12);
    OneInBytes(data[8] as int, data[9] as int, data[10] as int, data[11] as int);
    assert data[8..12] == [data[8], data[9], data[10], data[11]];
  }

  lemma OneInBytes(a: nat, b: nat, c: nat, d: nat)
    requires a < 256 && b < 256 && c < 256 && d < 256 && a + 256 * (b + 256 * (c + 256 * d)) == 1
    ensures a == 1 && b == c == d == 0
  {}

  /** Every name stands behind its length, low byte first. */
  lemma NameLayout(data: string, names: seq<string>, i: nat)
    requires Short(names) && data == Encode(names) && i < |names|
    ensures
      var o := EntryStart(names, i);
      && o + 2 + |names[i]| <= |data|
      && data[o] as int + 256 * data[o + 1] as int == |names[i]|
      && data[o + 2..o + 2 + |names[i]|] == names[i]
  {
    hide OffsetOf, Encode, Uint16;
    NextName(data, names, i);
    EntryStartIsOffset(names, i);
    Word16Bytes(data, EntryStart(names, i));
  }

  /** And the last one ends the file. */
  lemma NothingBehind(names: seq<string>)
    requires Short(names)
    ensures EntryStart(names, |names|) == |Encode(names)|
  {
    hide Header, Entries;
    EntryStartIsOffset(names, |names|);
    HeaderSize(|names|);
    assert names[..|names|] == names;
  }

  lemma HeaderIsBytes(names: seq<string>)
    requires Canonical(names)
    ensures |Encode(names)| >= 16 && forall k :: 0 <= k < 16 ==> (Encode(names)[k] as int) < 256
  {
    HeaderBytesOk(|names|);
    HeaderSize(|names|);
    hide Header, Entries;
    assert forall k :: 0 <= k < 16 ==> Encode(names)[k] == Header(|names|)[k];
  }

  lemma Word32Bytes(data: string, o: nat)
    requires o + 4 <= |data|
    ensures Number32(data, o, Uint32(data[o..o + 4]))
  {
    var w := data[o..o + 4];
    assert w[..2] == [data[o], data[o + 1]] && w[2..] == [data[o + 2], data[o + 3]];
  }

  lemma Word16Bytes(data: string, o: nat)
    requires o + 2 <= |data|
    ensures Uint16(data[o..o + 2]) == data[o] as int + 256 * data[o + 1] as int
  {}

  lemma MiddleSlices(data: string, before: string, len: string, name: string, after: string)
    requires data == before + len + name + after
    ensures |before| + |len| + |name| <= |data|
    ensures data[|before|..|before| + |len|] == len
    ensures data[|before| + |len|..|before| + |len| + |name|] == name
  {}

  lemma Regrouped(header: string, earlier: string, len: string, name: string, after: string)
    ensures header + (earlier + (len + name) + after) == header + earlier + len + name + after
  {}

  lemma HeaderSize(count: nat)
    ensures |Header(count)| == HEADER_BYTES
  {}

  /** Whatever list the file holds, the names read so far are its first ones. */
  ghost predicate OnTrack(data: string, names: seq<string>, offset: nat) {
    forall ns :: Encodes(ns, data) ==> |names| <= |ns| && names == ns[..|names|] && offset == OffsetOf(ns, |names|)
  }

  /** What one more entry of the file must look like. */
  predicate EntryAt(data: string, offset: nat) {
    && offset + 2 <= |data|
    && Uint16(data[offset..offset + 2]) > 0
    && offset + 2 + Uint16(data[offset..offset + 2]) <= |data|
    && GoText.TrimSpace(NameAt(data, offset)) == NameAt(data, offset)
  }

  function NameAt(data: string, offset: nat): string {
    if offset + 2 <= |data| && offset + 2 + Uint16(data[offset..offset + 2]) <= |data|
    then data[offset + 2..offset + 2 + Uint16(data[offset..offset + 2])] else ""
  }

  lemma NextIsNew(ns: seq<string>, i: nat)
    requires Canonical(ns) && i < |ns|
    ensures ns[i] !in ns[..i] && Normal(ns[i]) && |ns[i]| > 0
  {
    IncreasingDistinct(ns);
  }

  /** The file's next entry extends the track, for a list with a next name. */
  lemma NextOnTrack(data: string, ns: seq<string>, i: nat)
    requires Encodes(ns, data) && i < |ns|
    ensures
      var offset := OffsetOf(ns, i);
      && EntryAt(data, offset) && NameAt(data, offset) == ns[i] && ns[i] !in ns[..i]
      && offset + 2 + |ns[i]| == OffsetOf(ns, i + 1)
  {
    hide Canonical, Encode, OffsetOf, Uint16, GoText.TrimSpace;
    NextName(data, ns, i);
    NextIsNew(ns, i);
  }

  ghost predicate MoreNames(data: string, n: nat) {
    forall ns :: Encodes(ns, data) ==> |ns| > n
  }

  lemma TrackOn(data: string, names: seq<string>, offset: nat)
    requires OnTrack(data, names, offset) && MoreNames(data, |names|)
    ensures !(EntryAt(data, offset) && NameAt(data, offset) !in names) ==> forall ns :: !Encodes(ns, data)
    ensures EntryAt(data, offset) ==> OnTrack(data, names + [NameAt(data, offset)], offset + 2 + |NameAt(data, offset)|)
  {
    hide Canonical, Encode, EntryAt, NameAt, OffsetOf;
    forall ns | Encodes(ns, data)
      ensures EntryAt(data, offset) && NameAt(data, offset) !in names
      ensures offset + 2 + |NameAt(data, offset)| == OffsetOf(ns, |names| + 1)
      ensures names + [NameAt(data, offset)] == ns[..|names| + 1]
    {
      NextOnTrack(data, ns, |names|);
    }
  }

  ghost predicate Rejected(data: string) {
    forall ns :: !Encodes(ns, data)
  }

  ghost predicate CountIs(data: string, count: nat) {
    forall ns :: Encodes(ns, data) ==> |ns| == count
  }

  /** What has been read so far, written again. */
  ghost predicate Written(data: string, names: seq<string>, count: nat, offset: nat) {
    offset <= |data| && DistinctNormal(names) && Short(names) && data[..offset] == Header(count) + Entries(names)
  }

  ghost predicate DistinctNormal(names: seq<string>) {
    && (forall i :: 0 <= i < |names| ==> Normal(names[i]) && GoText.Bytes(names[i]))
    && (forall i, j :: 0 <= i < j < |names| ==> names[i] != names[j])
  }

  lemma DistinctNormalOneMore(names: seq<string>, name: string)
    requires DistinctNormal(names) && Normal(name) && GoText.Bytes(name) && name !in names
    ensures DistinctNormal(names + [name])
  {
    hide Normal, GoText.Bytes;
  }

  predicate HeaderMatches(data: string) {
    |data| >= HEADER_BYTES && data[..8] == MAGIC && Uint32(data[8..12]) == FORMAT
  }

  lemma HeaderOrRejected(data: string)
    ensures !HeaderMatches(data) ==> Rejected(data)
    ensures HeaderMatches(data) ==> CountIs(data, Uint32(data[12..16])) && OnTrack(data, [], HEADER_BYTES)
  {
    hide Canonical, Encode, OffsetOf, Uint32;
    forall ns | Encodes(ns, data)
      ensures HeaderMatches(data) && Uint32(data[12..16]) == |ns| && OffsetOf(ns, 0) == HEADER_BYTES
    {
      HeaderRead(data, ns);
    }
  }

  lemma HeaderWritten(data: string)
    requires GoText.Bytes(data) && HeaderMatches(data)
    ensures Uint32(data[12..16]) < 0x1_0000_0000
    ensures Written(data, [], Uint32(data[12..16]), HEADER_BYTES)
  {
    Word32Back(data[8..12]);
    Word32Back(data[12..16]);
    hide Le32, Uint32;
    assert data[..16] == data[..8] + data[8..12] + data[12..16];
    assert Header(Uint32(data[12..16])) + "" == Header(Uint32(data[12..16]));
  }

  lemma EntryInFile(data: string, offset: nat)
    requires GoText.Bytes(data) && EntryAt(data, offset)
    ensures
      var name := NameAt(data, offset);
      && 0 < |name| <= MAX_NAME_BYTES && offset + 2 + |name| <= |data|
      && data[offset..offset + 2 + |name|] == Entry(name) && Normal(name) && GoText.Bytes(name)
  {
    hide GoText.TrimSpace;
    Word16Back(data[offset..offset + 2]);
    var next := offset + 2 + |NameAt(data, offset)|;
    assert data[offset..next] == data[offset..offset + 2] + data[offset + 2..next];
  }

  lemma WriteOneMore(data: string, names: seq<string>, count: nat, offset: nat)
    requires GoText.Bytes(data) && Written(data, names, count, offset)
    requires EntryAt(data, offset) && NameAt(data, offset) !in names
    ensures Written(data, names + [NameAt(data, offset)], count, offset + 2 + |NameAt(data, offset)|)
  {
    EntryInFile(data, offset);
    hide Entry, Header, Entries, NameAt, EntryAt, Normal, GoText.Bytes, DistinctNormal;
    var name := NameAt(data, offset);
    EntriesOneMore(names, name);
    DistinctNormalOneMore(names, name);
    ReadOn(data, offset, offset + 2 + |name|, Header(count), Entries(names), Entry(name));
  }

  lemma ReadOn(data: string, offset: nat, next: nat, header: string, entries: string, entry: string)
    requires offset <= next <= |data| && data[..offset] == header + entries && data[offset..next] == entry
    ensures data[..next] == header + (entries + entry)
  {
    assert data[..next] == data[..offset] + data[offset..next];
  }

  lemma EntryOrRejected(data: string, names: seq<string>, count: nat, offset: nat)
    requires OnTrack(data, names, offset) && CountIs(data, count) && |names| < count
    ensures !(EntryAt(data, offset) && NameAt(data, offset) !in names) ==> Rejected(data)
    ensures EntryAt(data, offset) ==> OnTrack(data, names + [NameAt(data, offset)], offset + 2 + |NameAt(data, offset)|)
  {
    hide Encodes, OnTrack, EntryAt, NameAt;
    TrackOn(data, names, offset);
  }

  /** The end of the track is the end of the file. */
  lemma EndOrRejected(data: string, names: seq<string>, offset: nat)
    requires OnTrack(data, names, offset) && CountIs(data, |names|)
    ensures offset != |data| ==> Rejected(data)
    ensures !Increasing(names) ==> Rejected(data)
  {
    hide OffsetOf, Encode, Increasing;
    forall ns | Encodes(ns, data) ensures offset == |data| && Increasing(names) {
      HeaderRead(data, ns);
      assert ns[..|names|] == ns;
    }
  }

  /** `slices.IsSorted`: no neighbours the wrong way round. */
  method IsSorted(names: seq<string>) returns (sorted: bool)
    requires forall i, j :: 0 <= i < j < |names| ==> names[i] != names[j]
    ensures sorted <==> Increasing(names)
  {
    var i := |names|;
    while i > 1
      invariant 0 <= i <= |names| && Increasing(names[if i == 0 then 0 else i - 1..])
    {
      i := i - 1;
      if Less(names[i], names[i - 1]) {
        OutOfOrder(names, i);
        return false;
      }
      OneMoreInOrder(names, i);
    }
    assert i <= 1 && names[0..] == names;
    sorted := true;
  }

  lemma OutOfOrder(names: seq<string>, i: nat)
    requires 0 < i < |names| && Less(names[i], names[i - 1])
    ensures !Increasing(names)
  {
    hide Leq;
    if Increasing(names) { LeqAntisymmetric(names[i], names[i - 1]); }
  }

  lemma OneMoreInOrder(names: seq<string>, i: nat)
    requires 0 < i < |names| && Increasing(names[i..])
    requires names[i - 1] != names[i] && !Less(names[i], names[i - 1])
    requires forall j :: i <= j < |names| ==> names[j] != names[i - 1]
    ensures Increasing(names[i - 1..])
  {
    hide Leq;
    LeqTotal(names[i], names[i - 1]);
    forall j | i <= j < |names| ensures Less(names[i - 1], names[j]) {
      if j > i {
        assert Less(names[i..][0], names[i..][j - i]);
        LeqTransitive(names[i - 1], names[i], names[j]);
      }
    }
    var tail := names[i - 1..];
    forall a, b | 0 <= a < b < |tail| ensures Less(tail[a], tail[b]) {
      if a > 0 { assert Less(names[i..][a - 1], names[i..][b - 1]); }
    }
  }

  lemma Accepted(data: string, names: seq<string>, count: nat)
    requires Written(data, names, count, |data|) && |names| == count < 0x1_0000_0000 && Increasing(names)
    ensures Encodes(names, data)
  {
    assert data[..|data|] == data;
  }

  /** `parseEntityFeedPresenceIndex`: it accepts exactly the files that
      marshalling a canonical list writes, and returns that list. */
  method Parse(data: string) returns (r: Result<seq<string>>)
    requires GoText.Bytes(data)
    ensures r.Ok? ==> Encodes(r.value, data) && GuardPasses(|r.value|, |data|)
    ensures forall ns :: Encodes(ns, data) && GuardPasses(|ns|, |data|) ==> r == Ok(ns)
  {
    hide Encodes, OnTrack, Increasing, Uint16, Uint32, GoText.TrimSpace;
    HeaderOrRejected(data);
    if |data| < HEADER_BYTES {
      return Err("truncated");
    }
    if data[..8] != MAGIC {
      return Err("magic mismatch");
    }
    if Uint32(data[8..12]) != FORMAT {
      return Err("version mismatch");
    }
    var count := Uint32(data[12..16]);
    if !GuardPasses(count, |data|) {
      return Err("count exceeds file size");
    }
    HeaderWritten(data);
    var offset: nat := HEADER_BYTES;
    r := ParseNames(data, count, offset);
    if r.Ok? {
      forall ns | Encodes(ns, data) ensures ns == r.value { EncodingUnique(ns, r.value, data); }
    }
  }

  /** The loop over the entries, and the checks behind it. */
  method ParseNames(data: string, count: nat, start: nat) returns (r: Result<seq<string>>)
    requires GoText.Bytes(data) && count < 0x1_0000_0000
    requires Written(data, [], count, start) && OnTrack(data, [], start) && CountIs(data, count)
    ensures r.Ok? ==> Encodes(r.value, data) && |r.value| == count
    ensures r.Err? ==> Rejected(data)
  {
    hide Encodes, OnTrack, Increasing, Uint16, GoText.TrimSpace, Rejected, CountIs, Written;
    var names: seq<string> := [];
    var offset: nat := start;
    for idx := 0 to count
      invariant |names| == idx
      invariant Written(data, names, count, offset) && OnTrack(data, names, offset)
    {
      assert offset <= |data| by { WrittenFits(data, names, count, offset); }
      EntryOrRejected(data, names, count, offset);
      if |data| - offset < 2 {
        return Err("name is truncated");
      }
      var nameLen := Uint16(data[offset..offset + 2]);
      if nameLen == 0 {
        return Err("name is empty");
      }
      if |data| - (offset + 2) < nameLen {
        return Err("name is truncated");
      }
      var name := data[offset + 2..offset + 2 + nameLen];
      if GoText.TrimSpace(name) != name {
        return Err("name is not normalized");
      }
      if name in names {
        return Err("duplicate name");
      }
      WriteOneMore(data, names, count, offset);
      names := names + [name];
      offset := offset + 2 + nameLen;
    }
    EndOrRejected(data, names, offset);
    if |data| != offset {
      return Err("trailing bytes");
    }
    WrittenFits(data, names, count, offset);
    var sorted := IsSorted(names);
    if !sorted {
      return Err("names are not sorted");
    }
    Accepted(data, names, count);
    r := Ok(names);
  }

  lemma WrittenFits(data: string, names: seq<string>, count: nat, offset: nat)
    requires Written(data, names, count, offset)
    ensures offset <= |data|
    ensures forall i, j :: 0 <= i < j < |names| ==> names[i] != names[j]
  {}

  // ------------------------------------------------------------- the bijection

  lemma {:induction false} EntriesBytes(names: seq<string>)
    requires Short(names) && forall i :: 0 <= i < |names| ==> GoText.Bytes(names[i])
    ensures GoText.Bytes(Entries(names))
  {
    if names != [] {
      EntriesBytes(names[..|names| - 1]);
      Word16(|names[|names| - 1]|);
    }
  }

  lemma TrimIsSlice(s: string)
    ensures GoText.Bytes(s) ==> GoText.Bytes(GoText.TrimSpace(s))
  {
    TrimLeftIsSuffix(s);
  }

  lemma {:induction false} TrimLeftIsSuffix(s: string)
    ensures GoText.Bytes(s) ==> GoText.Bytes(GoText.TrimLeft(s))
    decreases |s|
  {
    var n := GoText.LeadSpace(s);
    if n > 0 { TrimLeftIsSuffix(s[n..]); }
  }

  lemma NormalFormIsCanonical(values: seq<string>, names: seq<string>)
    requires NormalForm(values, names) && Short(names) && |names| < 0x1_0000_0000
    requires forall i :: 0 <= i < |values| ==> GoText.Bytes(values[i])
    ensures Canonical(names)
  {
    hide Increasing, GoText.Bytes, GoText.TrimSpace;
    forall i | 0 <= i < |names| ensures Normal(names[i]) && GoText.Bytes(names[i]) {
      assert names[i] in names;
      var v :| v in values && GoText.TrimSpace(v) == names[i];
      var j :| 0 <= j < |values| && values[j] == v;
      GoText.TrimIdempotent(v);
      TrimIsSlice(v);
    }
  }

  /** Marshalling any values into fewer than 2^33 bytes writes a file that
      parsing accepts, with the normal form of the values: `Parse` returns the
      one list the file encodes unless the guard is in the way. */
  lemma MarshalledParses(values: seq<string>, names: seq<string>)
    requires forall i :: 0 <= i < |values| ==> GoText.Bytes(values[i])
    requires NormalForm(values, names) && Short(names) && |Encode(names)| < 0x2_0000_0000
    ensures GoText.Bytes(Encode(names)) && Encodes(names, Encode(names)) && GuardPasses(|names|, |Encode(names)|)
  {
    hide Increasing;
    forall i | 0 <= i < |names| ensures names[i] != "" { assert names[i] in names; }
    EntriesSize(names);
    NormalFormIsCanonical(values, names);
    GuardAcceptsMarshalled(names);
    EntriesBytes(names);
    HeaderBytesOk(|names|);
  }

  lemma HeaderBytesOk(count: nat)
    requires count < 0x1_0000_0000
    ensures GoText.Bytes(Header(count))
  {
    Word32(FORMAT);
    Word32(count);
  }

  lemma {:induction false} SamePrefix(a: seq<string>, b: seq<string>, data: string, i: nat)
    requires Encodes(a, data) && Encodes(b, data) && i <= |a| && |a| == |b|
    ensures a[..i] == b[..i]
    decreases i
  {
    hide Canonical, Encode, Uint16, Entries;
    if i > 0 {
      SamePrefix(a, b, data, i - 1);
      NextName(data, a, i - 1);
      NextName(data, b, i - 1);
      assert a[..i] == a[..i - 1] + [a[i - 1]] && b[..i] == b[..i - 1] + [b[i - 1]];
    }
  }

  /** No file encodes two lists. */
  lemma EncodingUnique(a: seq<string>, b: seq<string>, data: string)
    requires Encodes(a, data) && Encodes(b, data)
    ensures a == b
  {
    HeaderRead(data, a);
    HeaderRead(data, b);
    hide Canonical, Encode;
    SamePrefix(a, b, data, |a|);
  }

  lemma SmallFilesPass(data: string)
    requires |data| <= MAX_FILE_BYTES
    ensures forall ns :: Encodes(ns, data) ==> GuardPasses(|ns|, |data|)
  {
    hide Canonical, GuardPasses, Encode;
    forall ns | Encodes(ns, data) ensures GuardPasses(|ns|, |data|) { GuardAcceptsMarshalled(ns); }
  }

  method NameSet(list: seq<string>) returns (names: set<string>)
    ensures names == set n | n in list
  {
    names := {};
    for i := 0 to |list|
      invariant names == set n | n in list[..i]
    {
      assert list[..i + 1] == list[..i] + [list[i]];
      names := names + {list[i]};
    }
    assert list[..|list|] == list;
  }

  /** `loadEntityFeedPresenceIndexForRuntime`, once the file is read: within the
      size limit the count guard is never in the way. */
  method Load(data: string) returns (r: Result<set<string>>)
    requires GoText.Bytes(data)
    ensures forall ns :: Encodes(ns, data) && |data| <= 8388608 ==> r == Ok(set n | n in ns)
    ensures r.Ok? ==> |data| <= 8388608 && exists ns :: Encodes(ns, data)
  {
    hide Encodes, GuardPasses;
    if |data| > MAX_FILE_BYTES {
      return Err("too large");
    }
    SmallFilesPass(data);
    var parsed := Parse(data);
    if parsed.Err? {
      return Err(parsed.message);
    }
    var names := NameSet(parsed.value);
    r := Ok(names);
  }
}
