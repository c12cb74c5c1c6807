/**
  The archive (apps/web/src/store/exportNotes.ts) and the reader the app itself has
  for one (apps/web/src/store/readZip.ts): local headers, a central directory and an
  end record, sections 4.3.7, 4.3.12 and 4.3.16 of PKWARE's APPNOTE.

  The layout is written as bytes, the reader reads bytes, and the reader is proved to
  undo the writer.
 */
module Zip {
  import opened Crc32
  import opened Options
  import opened Utf8

  const LOCAL_HEADER := 0x04034b50
  const CENTRAL_HEADER := 0x02014b50
  const END_RECORD := 0x06054b50
  const VERSION := 20
  const UTF8_NAMES := 0x0800
  const STORED := 0
  const DEFLATED := 8
  const DIRECTORY := 0x10
  const ZIP64_ENTRIES := 0xffff
  const ZIP64_BYTES := 0xffff_ffff
  const END_RECORD_SIZE := 22
  const MAX_COMMENT := 0xffff
  const MAX_ATTACHMENT_BYTES := 25 * 1024 * 1024

  // ----- Fields ------------------------------------------------------------------------

  /** The low sixteen bits, low byte first: what is above them is lost, as `& 0xff` loses it. */
  function U16(value: nat): (bytes: seq<Byte>)
    ensures |bytes| == 2
  {
    [(value % 256) as Byte, (value / 256 % 256) as Byte]
  }

  function U32(value: nat): (bytes: seq<Byte>)
    ensures |bytes| == 4
  {
    U16(value % 0x1_0000) + U16(value / 0x1_0000 % 0x1_0000)
  }

  function U16At(bytes: seq<Byte>, at: nat): (value: nat)
    requires at + 2 <= |bytes|
    ensures value < 0x1_0000
  {
    bytes[at] as nat + 256 * (bytes[at + 1] as nat)
  }

  function U32At(bytes: seq<Byte>, at: nat): (value: nat)
    requires at + 4 <= |bytes|
    ensures value < 0x1_0000_0000
  {
    U16At(bytes, at) + 0x1_0000 * U16At(bytes, at + 2)
  }

  /** `piece` is in the bytes at `at`. */
  predicate Holds(bytes: seq<Byte>, at: nat, piece: seq<Byte>) {
    at + |piece| <= |bytes| && bytes[at..at + |piece|] == piece
  }

  lemma Peel(bytes: seq<Byte>, at: nat, first: seq<Byte>, rest: seq<Byte>)
    requires Holds(bytes, at, first + rest)
    ensures Holds(bytes, at, first) && Holds(bytes, at + |first|, rest)
  {
    var both := first + rest;
    assert bytes[at..at + |first|] == both[..|first|] == first;
    assert bytes[at + |first|..at + |both|] == both[|first|..] == rest;
  }

  lemma ReadU16(bytes: seq<Byte>, at: nat, value: nat)
    requires Holds(bytes, at, U16(value)) && value < 0x1_0000
    ensures U16At(bytes, at) == value
  {
    assert bytes[at] == bytes[at..at + 2][0] && bytes[at + 1] == bytes[at..at + 2][1];
  }

  lemma ReadU32(bytes: seq<Byte>, at: nat, value: nat)
    requires Holds(bytes, at, U32(value)) && value < 0x1_0000_0000
    ensures U32At(bytes, at) == value
  {
    Peel(bytes, at, U16(value % 0x1_0000), U16(value / 0x1_0000 % 0x1_0000));
    ReadU16(bytes, at, value % 0x1_0000);
    ReadU16(bytes, at + 2, value / 0x1_0000 % 0x1_0000);
  }

  // ----- The layout --------------------------------------------------------------------

  /** One entry: what its headers say, and the bytes stored for it. */
  datatype Entry = Entry(
    name: seq<Byte>, data: seq<Byte>, crc: nat, time: nat, date: nat, attributes: nat)

  /** Every field of the entry fits where it is written. */
  predicate FieldsFit(e: Entry) {
    |e.name| < 0x1_0000 && e.crc < 0x1_0000_0000 && e.time < 0x1_0000 && e.date < 0x1_0000
    && e.attributes < 0x1_0000_0000
  }

  /** The part the two headers share. The method is `STORED`, so both sizes are equal, and the extra field is empty. */
  function Described(e: Entry): (bytes: seq<Byte>)
    ensures |bytes| == 24
  {
    U16(UTF8_NAMES) + (U16(STORED) + (U16(e.time) + (U16(e.date) + (U32(e.crc)
      + (U32(|e.data|) + (U32(|e.data|) + (U16(|e.name|) + U16(0))))))))
  }

  function LocalHeader(e: Entry): (bytes: seq<Byte>)
    ensures |bytes| == 30
  {
    U32(LOCAL_HEADER) + (U16(VERSION) + Described(e))
  }

  function Local(e: Entry): (bytes: seq<Byte>)
    ensures |bytes| == 30 + |e.name| + |e.data|
  {
    LocalHeader(e) + (e.name + e.data)
  }

  /** The end of a central record: comment length, disk and internal attributes are 0. */
  function CentralEnd(e: Entry, offset: nat): (bytes: seq<Byte>)
    ensures |bytes| == 14 + |e.name|
  {
    U16(0) + (U16(0) + (U16(0) + (U32(e.attributes) + (U32(offset) + e.name))))
  }

  function Central(e: Entry, offset: nat): (bytes: seq<Byte>)
    ensures |bytes| == 46 + |e.name|
  {
    U32(CENTRAL_HEADER) + (U16(VERSION) + (U16(VERSION) + (Described(e) + CentralEnd(e, offset))))
  }

  function Locals(entries: seq<Entry>): seq<Byte> {
    if entries == [] then [] else Local(entries[0]) + Locals(entries[1..])
  }

  /** The directory of entries the first of which is at `offset`. */
  function Centrals(entries: seq<Entry>, offset: nat): seq<Byte>
    decreases |entries|
  {
    if entries == [] then []
    else Central(entries[0], offset) + Centrals(entries[1..], offset + |Local(entries[0])|)
  }

  function EndRecord(count: nat, size: nat, offset: nat): (bytes: seq<Byte>)
    ensures |bytes| == END_RECORD_SIZE
  {
    U32(END_RECORD) + (U16(0) + (U16(0) + (U16(count) + (U16(count) + (U32(size) + (U32(offset) + U16(0)))))))
  }

  function Archive(entries: seq<Entry>): seq<Byte> {
    Locals(entries) + (Centrals(entries, 0)
      + EndRecord(|entries|, |Centrals(entries, 0)|, |Locals(entries)|))
  }

  /** The refusals of the writer: an archive within them has every number below its all-ones value. */
  predicate WithinLimits(entries: seq<Entry>) {
    && |entries| < ZIP64_ENTRIES
    && |Locals(entries)| + |Centrals(entries, 0)| < ZIP64_BYTES
    && forall i :: 0 <= i < |entries| ==> FieldsFit(entries[i])
  }

  // ----- The reader --------------------------------------------------------------------

  datatype Reason = Encrypted | Method | TooLarge | Damaged

  datatype ZipEntry =
    | File(name: string, bytes: seq<Byte>)
    | Folder(name: string)
    | Unreadable(name: string, reason: Reason)

  datatype Refusal = NotZip | Zip64 | Spanned

  datatype Reading<T> = Ok(value: T) | Refused(refusal: Refusal)

  datatype Listed = Listed(
    name: string, flags: nat, packing: nat, crc: nat, compressed: nat, size: nat, offset: nat)

  /** What the browser's decompressor makes of some bytes, cut off past a limit. */
  type Inflate = (seq<Byte>, nat) -> Option<seq<Byte>>

  /** `subarray`, which stops at the end of what there is. */
  function Subarray(bytes: seq<Byte>, from: nat, to: nat): seq<Byte> {
    var end := if to < |bytes| then to else |bytes|;
    if from < end then bytes[from..end] else []
  }

  predicate EndsAt(bytes: seq<Byte>, at: nat) {
    at + END_RECORD_SIZE <= |bytes|
    && U32At(bytes, at) == END_RECORD
    && at + END_RECORD_SIZE + U16At(bytes, at + 20) == |bytes|
  }

  /** The last end record from `at` down to `first`, or -1. */
  function EndFrom(bytes: seq<Byte>, at: int, first: nat): int
    requires at + END_RECORD_SIZE <= |bytes|
    decreases at
  {
    if at < first then -1 else if EndsAt(bytes, at) then at else EndFrom(bytes, at - 1, first)
  }

  function EndRecordOf(bytes: seq<Byte>): int {
    var last := |bytes| - END_RECORD_SIZE;
    EndFrom(bytes, last, if last > MAX_COMMENT then last - MAX_COMMENT else 0)
  }

  /** The last place a signature stands with a comment behind it that ends the archive; -1 without one. */
  method FindEndRecord(bytes: seq<Byte>) returns (at: int)
    ensures at == EndRecordOf(bytes)
    ensures at == -1 || (at >= 0 && EndsAt(bytes, at))
    ensures forall later: nat :: later > at && |bytes| - END_RECORD_SIZE - MAX_COMMENT <= later
                                 ==> !EndsAt(bytes, later)
  {
    hide U32At, U16At;
    var last := |bytes| - END_RECORD_SIZE;
    var first := if last > MAX_COMMENT then last - MAX_COMMENT else 0;
    at := last;
    while at >= first && !EndsAt(bytes, at)
      invariant at <= last
      invariant first - 1 <= at || at == last
      invariant EndFrom(bytes, at, first) == EndRecordOf(bytes)
      invariant forall later: nat :: at < later ==> !EndsAt(bytes, later)
      decreases at
    {
      at := at - 1;
    }
    if at < first {
      at := -1;
    }
  }

  function CentralAt(bytes: seq<Byte>, at: nat): Reading<Listed> {
    if at + 46 > |bytes| || U32At(bytes, at) != CENTRAL_HEADER then Refused(NotZip)
    else
      var entry := Listed(
        NameOf(Subarray(bytes, at + 46, at + 46 + U16At(bytes, at + 28))),
        U16At(bytes, at + 8), U16At(bytes, at + 10), U32At(bytes, at + 16),
        U32At(bytes, at + 20), U32At(bytes, at + 24), U32At(bytes, at + 42));
      if entry.size == ZIP64_BYTES || entry.offset == ZIP64_BYTES then Refused(Zip64) else Ok(entry)
  }

  /** Name, extra field and comment. */
  function LengthsAt(bytes: seq<Byte>, at: nat): nat
    requires at + 46 <= |bytes|
  {
    U16At(bytes, at + 28) + U16At(bytes, at + 30) + U16At(bytes, at + 32)
  }

  function ListFrom(bytes: seq<Byte>, at: nat, count: nat): Reading<seq<Listed>>
    decreases count
  {
    if count == 0 then Ok([])
    else
      var entry := CentralAt(bytes, at);
      if entry.Refused? then Refused(entry.refusal)
      else
        var rest := ListFrom(bytes, at + 46 + LengthsAt(bytes, at), count - 1);
        if rest.Refused? then rest else Ok([entry.value] + rest.value)
  }

  function List(bytes: seq<Byte>): Reading<seq<Listed>> {
    var end := EndRecordOf(bytes);
    if end < 0 || end + END_RECORD_SIZE > |bytes| then Refused(NotZip)
    else if U16At(bytes, end + 4) != 0 || U16At(bytes, end + 6) != 0 then Refused(Spanned)
    else
      var count, start := U16At(bytes, end + 10), U32At(bytes, end + 16);
      if count == ZIP64_ENTRIES || start == ZIP64_BYTES then Refused(Zip64)
      else ListFrom(bytes, start, count)
  }

  /** The loop that walks the directory, pushing each entry. */
  method ListEntries(bytes: seq<Byte>) returns (listed: Reading<seq<Listed>>)
    ensures listed == List(bytes)
  {
    hide U32At, U16At, CentralAt, EndsAt;
    var end := FindEndRecord(bytes);
    if end < 0 { return Refused(NotZip); }
    EndFits(bytes);
    if U16At(bytes, end + 4) != 0 || U16At(bytes, end + 6) != 0 { return Refused(Spanned); }
    var count: nat, start: nat := U16At(bytes, end + 10), U32At(bytes, end + 16);
    if count == ZIP64_ENTRIES || start == ZIP64_BYTES { return Refused(Zip64); }
    var entries: seq<Listed> := [];
    var at: nat := start;
    AfterNothing(ListFrom(bytes, start, count));
    while |entries| < count
      invariant |entries| <= count
      invariant ListFrom(bytes, start, count) == After(entries, ListFrom(bytes, at, count - |entries|))
    {
      var entry := CentralAt(bytes, at);
      if entry.Refused? { return Refused(entry.refusal); }
      CentralFits(bytes, at);
      AfterOne(entries, entry.value, ListFrom(bytes, at + 46 + LengthsAt(bytes, at), count - |entries| - 1));
      entries := entries + [entry.value];
      at := at + 46 + LengthsAt(bytes, at);
    }
    assert entries + [] == entries;
    return Ok(entries);
  }

  lemma AfterNothing(rest: Reading<seq<Listed>>)
    ensures After([], rest) == rest
  {
    if rest.Ok? {
      assert [] + rest.value == rest.value;
    }
  }

  function After(front: seq<Listed>, rest: Reading<seq<Listed>>): Reading<seq<Listed>> {
    if rest.Refused? then rest else Ok(front + rest.value)
  }

  lemma AfterOne(front: seq<Listed>, entry: Listed, rest: Reading<seq<Listed>>)
    ensures After(front, After([entry], rest)) == After(front + [entry], rest)
  {
    if rest.Ok? {
      assert front + ([entry] + rest.value) == (front + [entry]) + rest.value;
    }
  }

  lemma {:induction false} EndFromFits(bytes: seq<Byte>, at: int, first: nat)
    requires at + END_RECORD_SIZE <= |bytes|
    ensures EndFrom(bytes, at, first) + END_RECORD_SIZE <= |bytes| || EndFrom(bytes, at, first) == -1
    decreases at
  {
    if at >= first && !EndsAt(bytes, at) {
      EndFromFits(bytes, at - 1, first);
    }
  }

  lemma EndFits(bytes: seq<Byte>)
    ensures EndRecordOf(bytes) + END_RECORD_SIZE <= |bytes| || EndRecordOf(bytes) == -1
  {
    var last := |bytes| - END_RECORD_SIZE;
    EndFromFits(bytes, last, if last > MAX_COMMENT then last - MAX_COMMENT else 0);
  }

  lemma CentralFits(bytes: seq<Byte>, at: nat)
    requires CentralAt(bytes, at).Ok?
    ensures at + 46 <= |bytes|
  {}

  datatype Content = Bytes(bytes: seq<Byte>) | Failed(reason: Reason)

  function ContentOf(bytes: seq<Byte>, e: Listed, inflate: Inflate): Content {
    if e.flags % 2 == 1 then Failed(Encrypted)
    else if e.packing != STORED && e.packing != DEFLATED then Failed(Method)
    else if e.size > MAX_ATTACHMENT_BYTES then Failed(TooLarge)
    else if e.offset + 30 > |bytes| || U32At(bytes, e.offset) != LOCAL_HEADER then Failed(Damaged)
    else
      var start := e.offset + 30 + U16At(bytes, e.offset + 26) + U16At(bytes, e.offset + 28);
      if start + e.compressed > |bytes| then Failed(Damaged)
      else
        var data := bytes[start..start + e.compressed];
        var content := if e.packing == STORED then Some(data) else inflate(data, e.size);
        if content.None? || |content.value| != e.size || CrcNumber(content.value) != e.crc
        then Failed(Damaged)
        else Bytes(content.value)
  }

  predicate NamesFolder(name: string) {
    name != "" && (name[|name| - 1] == '/' || name[|name| - 1] == '\\')
  }

  function ReadEntry(bytes: seq<Byte>, e: Listed, inflate: Inflate): ZipEntry {
    if NamesFolder(e.name) then Folder(e.name)
    else
      var content := ContentOf(bytes, e, inflate);
      if content.Failed? then Unreadable(e.name, content.reason) else File(e.name, content.bytes)
  }

  function ReadEntries(bytes: seq<Byte>, entries: seq<Listed>, inflate: Inflate): seq<ZipEntry> {
    if entries == [] then []
    else [ReadEntry(bytes, entries[0], inflate)] + ReadEntries(bytes, entries[1..], inflate)
  }

  function ReadZip(bytes: seq<Byte>, inflate: Inflate): Reading<seq<ZipEntry>> {
    var listed := List(bytes);
    if listed.Refused? then Refused(listed.refusal) else Ok(ReadEntries(bytes, listed.value, inflate))
  }

  /** `readZip`: one entry at a time, onto what is already read. */
  method ReadArchive(bytes: seq<Byte>, inflate: Inflate) returns (read: Reading<seq<ZipEntry>>)
    ensures read == ReadZip(bytes, inflate)
  {
    hide ReadEntry, List;
    var listed := ListEntries(bytes);
    if listed.Refused? { return Refused(listed.refusal); }
    var entries := listed.value;
    var done: seq<ZipEntry> := [];
    assert entries[0..] == entries;
    for i := 0 to |entries|
      invariant done + ReadEntries(bytes, entries[i..], inflate) == ReadEntries(bytes, entries, inflate)
    {
      assert entries[i..][0] == entries[i] && entries[i..][1..] == entries[i + 1..];
      done := done + [ReadEntry(bytes, entries[i], inflate)];
    }
    assert entries[|entries|..] == [] && done + [] == done;
    return Ok(done);
  }

  // ----- The reader undoes the layout --------------------------------------------------

  lemma ReadDescribed(bytes: seq<Byte>, at: nat, e: Entry)
    requires Holds(bytes, at, Described(e)) && FieldsFit(e) && |e.data| < ZIP64_BYTES
    ensures at + 24 <= |bytes|
    ensures U16At(bytes, at) == UTF8_NAMES && U16At(bytes, at + 2) == STORED
    ensures U32At(bytes, at + 8) == e.crc
    ensures U32At(bytes, at + 12) == |e.data| && U32At(bytes, at + 16) == |e.data|
    ensures U16At(bytes, at + 20) == |e.name| && U16At(bytes, at + 22) == 0
  {
    hide Holds, U16At, U32At, U16, U32;
    var t8 := U16(|e.name|) + U16(0);
    var t7 := U32(|e.data|) + t8;
    var t6 := U32(|e.data|) + t7;
    var t5 := U32(e.crc) + t6;
    var t4 := U16(e.date) + t5;
    var t3 := U16(e.time) + t4;
    var t2 := U16(STORED) + t3;
    Peel(bytes, at, U16(UTF8_NAMES), t2);
    Peel(bytes, at + 2, U16(STORED), t3);
    Peel(bytes, at + 4, U16(e.time), t4);
    Peel(bytes, at + 6, U16(e.date), t5);
    Peel(bytes, at + 8, U32(e.crc), t6);
    Peel(bytes, at + 12, U32(|e.data|), t7);
    Peel(bytes, at + 16, U32(|e.data|), t8);
    Peel(bytes, at + 20, U16(|e.name|), U16(0));
    HeldFits(bytes, at, Described(e));
    ReadU16(bytes, at, UTF8_NAMES);
    ReadU16(bytes, at + 2, STORED);
    ReadU32(bytes, at + 8, e.crc);
    ReadU32(bytes, at + 12, |e.data|);
    ReadU32(bytes, at + 16, |e.data|);
    ReadU16(bytes, at + 20, |e.name|);
    ReadU16(bytes, at + 22, 0);
  }

  lemma HeldFits(bytes: seq<Byte>, at: nat, piece: seq<Byte>)
    requires Holds(bytes, at, piece)
    ensures at + |piece| <= |bytes|
  {}

  lemma SubarrayHeld(bytes: seq<Byte>, at: nat, piece: seq<Byte>)
    requires Holds(bytes, at, piece)
    ensures Subarray(bytes, at, at + |piece|) == piece
  {}

  function ListedOf(e: Entry, offset: nat): Listed {
    Listed(NameOf(e.name), UTF8_NAMES, STORED, e.crc, |e.data|, |e.data|, offset)
  }

  lemma ReadCentral(bytes: seq<Byte>, at: nat, e: Entry, offset: nat)
    requires Holds(bytes, at, Central(e, offset)) && FieldsFit(e)
    requires |e.data| < ZIP64_BYTES && offset < ZIP64_BYTES
    ensures CentralAt(bytes, at) == Ok(ListedOf(e, offset))
    ensures at + 46 <= |bytes| && LengthsAt(bytes, at) == |e.name|
  {
    hide Holds, U16At, U32At, U16, U32, Described, NameOf, Subarray;
    var t5 := Described(e) + CentralEnd(e, offset);
    var t4 := U16(VERSION) + t5;
    HeldFits(bytes, at, Central(e, offset));
    Peel(bytes, at, U32(CENTRAL_HEADER), U16(VERSION) + t4);
    Peel(bytes, at + 4, U16(VERSION), t4);
    Peel(bytes, at + 6, U16(VERSION), t5);
    Peel(bytes, at + 8, Described(e), CentralEnd(e, offset));
    ReadU32(bytes, at, CENTRAL_HEADER);
    ReadDescribed(bytes, at + 8, e);
    ReadCentralEnd(bytes, at + 32, e, offset);
    SubarrayHeld(bytes, at + 46, e.name);
  }

  lemma ReadCentralEnd(bytes: seq<Byte>, at: nat, e: Entry, offset: nat)
    requires Holds(bytes, at, CentralEnd(e, offset)) && offset < ZIP64_BYTES
    ensures at + 14 <= |bytes|
    ensures U16At(bytes, at) == 0 && U32At(bytes, at + 10) == offset
    ensures Holds(bytes, at + 14, e.name)
  {
    hide Holds, U16At, U32At, U16, U32;
    var t5 := U32(offset) + e.name;
    var t4 := U32(e.attributes) + t5;
    var t3 := U16(0) + t4;
    HeldFits(bytes, at, CentralEnd(e, offset));
    Peel(bytes, at, U16(0), U16(0) + t3);
    Peel(bytes, at + 2, U16(0), t3);
    Peel(bytes, at + 4, U16(0), t4);
    Peel(bytes, at + 6, U32(e.attributes), t5);
    Peel(bytes, at + 10, U32(offset), e.name);
    ReadU16(bytes, at, 0);
    ReadU32(bytes, at + 10, offset);
  }

  function ListedFrom(entries: seq<Entry>, offset: nat): seq<Listed>
    decreases |entries|
  {
    if entries == [] then []
    else [ListedOf(entries[0], offset)] + ListedFrom(entries[1..], offset + |Local(entries[0])|)
  }

  lemma {:induction false} DataWithinLocals(entries: seq<Entry>)
    ensures forall i :: 0 <= i < |entries| ==> |entries[i].data| <= |Locals(entries)|
  {
    if entries != [] {
      DataWithinLocals(entries[1..]);
      forall i | 0 <= i < |entries|
        ensures |entries[i].data| <= |Locals(entries)|
      {
        if i > 0 {
          assert entries[i] == entries[1..][i - 1];
        }
      }
    }
  }

  /** The directory is read as it was written, entry by entry. */
  lemma {:induction false} ReadDirectory(bytes: seq<Byte>, at: nat, entries: seq<Entry>, offset: nat)
    requires Holds(bytes, at, Centrals(entries, offset))
    requires forall i :: 0 <= i < |entries| ==> FieldsFit(entries[i])
    requires offset + |Locals(entries)| < ZIP64_BYTES
    ensures ListFrom(bytes, at, |entries|) == Ok(ListedFrom(entries, offset))
    decreases |entries|
  {
    hide Holds, Central, CentralAt, Local, FieldsFit, LengthsAt, ListedOf;
    if entries != [] {
      var e, rest := entries[0], entries[1..];
      var next := offset + |Local(e)|;
      DataWithinLocals(entries);
      LocalsUnfold(entries);
      CentralsUnfold(entries, offset);
      Peel(bytes, at, Central(e, offset), Centrals(rest, next));
      ReadCentral(bytes, at, e, offset);
      assert forall i :: 0 <= i < |rest| ==> rest[i] == entries[i + 1];
      ReadDirectory(bytes, at + 46 + |e.name|, rest, next);
    }
  }

  lemma LocalsUnfold(entries: seq<Entry>)
    requires entries != []
    ensures Locals(entries) == Local(entries[0]) + Locals(entries[1..])
  {}

  lemma CentralsUnfold(entries: seq<Entry>, offset: nat)
    requires entries != []
    ensures Centrals(entries, offset)
            == Central(entries[0], offset) + Centrals(entries[1..], offset + |Local(entries[0])|)
    ensures |Central(entries[0], offset)| == 46 + |entries[0].name|
  {}

  /** What reading one entry comes to, given what is stored and what its headers say. */
  function ReadBack(e: Entry): ZipEntry {
    var name := NameOf(e.name);
    if NamesFolder(name) then Folder(name)
    else if |e.data| > MAX_ATTACHMENT_BYTES then Unreadable(name, TooLarge)
    else if CrcNumber(e.data) != e.crc then Unreadable(name, Damaged)
    else File(name, e.data)
  }

  function ReadBackAll(entries: seq<Entry>): seq<ZipEntry> {
    if entries == [] then [] else [ReadBack(entries[0])] + ReadBackAll(entries[1..])
  }

  lemma ReadLocal(bytes: seq<Byte>, e: Entry, offset: nat, inflate: Inflate)
    requires Holds(bytes, offset, Local(e)) && FieldsFit(e) && |e.data| < ZIP64_BYTES
    ensures ReadEntry(bytes, ListedOf(e, offset), inflate) == ReadBack(e)
  {
    hide Holds, U16At, U32At, U16, U32, Described, NameOf, CrcNumber, NamesFolder;
    HeldFits(bytes, offset, Local(e));
    Peel(bytes, offset, LocalHeader(e), e.name + e.data);
    Peel(bytes, offset + 30, e.name, e.data);
    Peel(bytes, offset, U32(LOCAL_HEADER), U16(VERSION) + Described(e));
    Peel(bytes, offset + 4, U16(VERSION), Described(e));
    ReadU32(bytes, offset, LOCAL_HEADER);
    ReadDescribed(bytes, offset + 6, e);
    var start := offset + 30 + |e.name|;
    SliceHeld(bytes, start, e.data);
    assert UTF8_NAMES % 2 == 0;
  }

  lemma SliceHeld(bytes: seq<Byte>, at: nat, piece: seq<Byte>)
    requires Holds(bytes, at, piece)
    ensures at + |piece| <= |bytes| && bytes[at..at + |piece|] == piece
  {}

  lemma {:induction false} ReadContents(bytes: seq<Byte>, entries: seq<Entry>, offset: nat, inflate: Inflate)
    requires Holds(bytes, offset, Locals(entries))
    requires forall i :: 0 <= i < |entries| ==> FieldsFit(entries[i])
    requires |Locals(entries)| < ZIP64_BYTES
    ensures ReadEntries(bytes, ListedFrom(entries, offset), inflate) == ReadBackAll(entries)
    decreases |entries|
  {
    hide Holds, Local, FieldsFit, ReadEntry, ReadBack, ListedOf;
    if entries != [] {
      var e, rest := entries[0], entries[1..];
      DataWithinLocals(entries);
      LocalsUnfold(entries);
      Peel(bytes, offset, Local(e), Locals(rest));
      ReadLocal(bytes, e, offset, inflate);
      assert forall i :: 0 <= i < |rest| ==> rest[i] == entries[i + 1];
      ReadContents(bytes, rest, offset + |Local(e)|, inflate);
      var listed := ListedFrom(entries, offset);
      assert listed[0] == ListedOf(e, offset) && listed[1..] == ListedFrom(rest, offset + |Local(e)|);
    }
  }

  lemma ReadEndRecord(bytes: seq<Byte>, at: nat, count: nat, size: nat, offset: nat)
    requires Holds(bytes, at, EndRecord(count, size, offset)) && at + END_RECORD_SIZE == |bytes|
    requires count < ZIP64_ENTRIES && size < ZIP64_BYTES && offset < ZIP64_BYTES
    ensures EndRecordOf(bytes) == at
    ensures U16At(bytes, at + 4) == 0 && U16At(bytes, at + 6) == 0
    ensures U16At(bytes, at + 10) == count && U32At(bytes, at + 16) == offset
  {
    hide Holds, U16At, U32At, U16, U32;
    var t7 := U32(offset) + U16(0);
    var t6 := U32(size) + t7;
    var t5 := U16(count) + t6;
    var t4 := U16(count) + t5;
    var t3 := U16(0) + t4;
    Peel(bytes, at, U32(END_RECORD), U16(0) + t3);
    Peel(bytes, at + 4, U16(0), t3);
    Peel(bytes, at + 6, U16(0), t4);
    Peel(bytes, at + 8, U16(count), t5);
    Peel(bytes, at + 10, U16(count), t6);
    Peel(bytes, at + 12, U32(size), t7);
    Peel(bytes, at + 16, U32(offset), U16(0));
    ReadU32(bytes, at, END_RECORD);
    ReadU16(bytes, at + 4, 0);
    ReadU16(bytes, at + 6, 0);
    ReadU16(bytes, at + 10, count);
    ReadU32(bytes, at + 16, offset);
    ReadU16(bytes, at + 20, 0);
    assert EndsAt(bytes, at);
  }

  /**
    The reader undoes the layout, whatever the decompressor: every entry in order,
    each file with the bytes stored for it where they have the checksum its headers say.
   */
  lemma ReadsWhatIsLaidOut(entries: seq<Entry>, inflate: Inflate)
    requires WithinLimits(entries)
    ensures ReadZip(Archive(entries), inflate) == Ok(ReadBackAll(entries))
  {
    hide U16At, U32At, Locals, Centrals, EndRecord, FieldsFit, ListFrom, ReadEntries, EndRecordOf, Holds;
    var bytes := Archive(entries);
    ArchiveHolds(entries);
    ReadEndRecord(bytes, |Locals(entries)| + |Centrals(entries, 0)|, |entries|, |Centrals(entries, 0)|, |Locals(entries)|);
    ReadDirectory(bytes, |Locals(entries)|, entries, 0);
    ReadContents(bytes, entries, 0, inflate);
  }

  lemma ArchiveHolds(entries: seq<Entry>)
    ensures var locals, directory := Locals(entries), Centrals(entries, 0);
            && Holds(Archive(entries), 0, locals)
            && Holds(Archive(entries), |locals|, directory)
            && Holds(Archive(entries), |locals| + |directory|, EndRecord(|entries|, |directory|, |locals|))
  {
    hide Locals, Centrals, EndRecord;
    var locals, directory := Locals(entries), Centrals(entries, 0);
    var end := EndRecord(|entries|, |directory|, |locals|);
    assert Holds(Archive(entries), 0, locals + (directory + end));
    Peel(Archive(entries), 0, locals, directory + end);
    Peel(Archive(entries), |locals|, directory, end);
  }

  /**
    An archive in which one byte of one file has changed since its headers were
    written: that file is refused as damaged, and every other entry is read as it was.
   */
  lemma OneByteOfDamage(
      before: seq<Entry>, e: Entry, after: seq<Entry>, front: seq<Byte>, x: Byte, y: Byte, back: seq<Byte>, inflate: Inflate)
    requires x != y && e.data == front + [x] + back && e.crc == CrcNumber(e.data)
    requires !NamesFolder(NameOf(e.name)) && |e.data| <= MAX_ATTACHMENT_BYTES
    requires WithinLimits(before + [e.(data := front + [y] + back)] + after)
    ensures ReadZip(Archive(before + [e.(data := front + [y] + back)] + after), inflate)
            == Ok(ReadBackAll(before) + [Unreadable(NameOf(e.name), Damaged)] + ReadBackAll(after))
  {
    hide WithinLimits, ReadZip, Archive, CrcNumber, NamesFolder, NameOf;
    var harmed := e.(data := front + [y] + back);
    OneByteChangesNumber(front, x, y, back);
    ReadsWhatIsLaidOut(before + [harmed] + after, inflate);
    ReadBackConcat(before + [harmed], after);
    ReadBackConcat(before, [harmed]);
    assert ReadBackAll([harmed]) == [ReadBack(harmed)] + ReadBackAll([harmed][1..]) == [ReadBack(harmed)];
    assert ReadBack(harmed) == Unreadable(NameOf(e.name), Damaged);
  }

  lemma {:induction false} ReadBackConcat(a: seq<Entry>, b: seq<Entry>)
    ensures ReadBackAll(a + b) == ReadBackAll(a) + ReadBackAll(b)
  {
    hide ReadBack;
    if a == [] {
      assert a + b == b;
    } else {
      assert (a + b)[1..] == a[1..] + b;
      ReadBackConcat(a[1..], b);
    }
  }
}
