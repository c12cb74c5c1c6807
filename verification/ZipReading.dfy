/**
  What the archive reader answers for any bytes at all, said of the bytes (`readZip`, `listed`,
  `entryAt` and `contentOf` in apps/web/src/store/readZip.ts; sections 4.3.7, 4.3.12, 4.3.16 and
  4.4 of PKWARE APPNOTE): no file comes out that is not as long as its record says, with the
  checksum it says.
 */
module ZipReading {
  import opened Options
  import opened Crc32
  import opened Utf8
  import opened Zip

  // ----- One record --------------------------------------------------------------------

  /** A record of the central directory starts here. */
  predicate IsRecord(bytes: seq<Byte>, at: nat) {
    at + 46 <= |bytes| && U32At(bytes, at) == 0x02014b50
  }

  /** Its name, as far as the archive goes. */
  function NameIn(bytes: seq<Byte>, at: nat): string
    requires at + 46 <= |bytes|
  {
    var end := at + 46 + U16At(bytes, at + 28);
    NameOf(bytes[at + 46..if end <= |bytes| then end else |bytes|])
  }

  /** Where the bytes of the entry are: behind the local header and its own name and extra field. */
  function DataAt(bytes: seq<Byte>, at: nat): Option<nat>
    requires at + 46 <= |bytes|
  {
    var local := U32At(bytes, at + 42);
    if local + 30 > |bytes| || U32At(bytes, local) != 0x04034b50 then None
    else
      var start := local + 30 + U16At(bytes, local + 26) + U16At(bytes, local + 28);
      if start + U32At(bytes, at + 20) > |bytes| then None else Some(start)
  }

  /** The content of the entry: its bytes, or what they inflate to. */
  function ContentIn(bytes: seq<Byte>, at: nat, inflate: Inflate): Option<seq<Byte>>
    requires at + 46 <= |bytes| && DataAt(bytes, at).Some?
  {
    var start := DataAt(bytes, at).value;
    var data := bytes[start..start + U32At(bytes, at + 20)];
    if U16At(bytes, at + 10) == 0 then Some(data) else inflate(data, U32At(bytes, at + 24))
  }

  /** The entry is read just as its record says it must be, or the first thing wrong with it is given. */
  ghost predicate IsReadAs(bytes: seq<Byte>, at: nat, inflate: Inflate, entry: ZipEntry)
    requires at + 46 <= |bytes|
  {
    var name, packing, size := NameIn(bytes, at), U16At(bytes, at + 10), U32At(bytes, at + 24);
    if name != "" && name[|name| - 1] in "/\\" then entry == Folder(name)
    else if U16At(bytes, at + 8) % 2 == 1 then entry == Unreadable(name, Encrypted)
    else if packing != 0 && packing != 8 then entry == Unreadable(name, Method)
    else if size > 26_214_400 then entry == Unreadable(name, TooLarge)
    else if IsWhole(bytes, at, inflate) then entry == File(name, ContentIn(bytes, at, inflate).value)
    else entry == Unreadable(name, Damaged)
  }

  /** The content is there, of the size and the checksum its record says. */
  ghost predicate IsWhole(bytes: seq<Byte>, at: nat, inflate: Inflate)
    requires at + 46 <= |bytes|
  {
    DataAt(bytes, at).Some? && ContentIn(bytes, at, inflate).Some?
    && |ContentIn(bytes, at, inflate).value| == U32At(bytes, at + 24)
    && CrcNumber(ContentIn(bytes, at, inflate).value) == U32At(bytes, at + 16)
  }

  lemma RecordIsRead(bytes: seq<Byte>, at: nat, inflate: Inflate)
    requires CentralAt(bytes, at).Ok?
    ensures IsRecord(bytes, at) && U32At(bytes, at + 24) != 0xffff_ffff && U32At(bytes, at + 42) != 0xffff_ffff
    ensures IsReadAs(bytes, at, inflate, ReadEntry(bytes, CentralAt(bytes, at).value, inflate))
  {
    hide U16At, U32At, CrcNumber, NameOf;
    var e := CentralAt(bytes, at).value;
    NameIsIn(bytes, at);
    assert e.name == NameIn(bytes, at);
    assert NamesFolder(e.name) <==> e.name != "" && e.name[|e.name| - 1] in "/\\";
  }

  lemma NameIsIn(bytes: seq<Byte>, at: nat)
    requires at + 46 <= |bytes|
    ensures Subarray(bytes, at + 46, at + 46 + U16At(bytes, at + 28))
            == bytes[at + 46..if at + 46 + U16At(bytes, at + 28) <= |bytes| then at + 46 + U16At(bytes, at + 28) else |bytes|]
  {
    hide U16At;
  }

  // ----- The directory -----------------------------------------------------------------

  /** Where the record behind this one is: past its name, its extra field and its comment. */
  function NextAt(bytes: seq<Byte>, at: nat): nat
    requires at + 46 <= |bytes|
  {
    at + 46 + U16At(bytes, at + 28) + U16At(bytes, at + 30) + U16At(bytes, at + 32)
  }

  /** Records one behind another, each read as it says. */
  ghost predicate AreRead(bytes: seq<Byte>, start: nat, at: seq<nat>, inflate: Inflate, entries: seq<ZipEntry>) {
    && |at| == |entries|
    && (at != [] ==> at[0] == start)
    && (forall i :: 0 <= i < |at| ==> IsRecord(bytes, at[i]) && IsReadAs(bytes, at[i], inflate, entries[i]))
    && (forall i :: 0 <= i < |at| - 1 ==> at[i + 1] == NextAt(bytes, at[i]))
  }

  lemma {:induction false} RecordsAreRead(bytes: seq<Byte>, start: nat, count: nat, inflate: Inflate) returns (at: seq<nat>)
    requires ListFrom(bytes, start, count).Ok?
    ensures |at| == count && |ListFrom(bytes, start, count).value| == count
    ensures AreRead(bytes, start, at, inflate, ReadEntries(bytes, ListFrom(bytes, start, count).value, inflate))
    decreases count
  {
    hide CentralAt, ReadEntry, IsReadAs, U16At, U32At;
    if count == 0 {
      at := [];
    } else {
      var first := CentralAt(bytes, start).value;
      RecordIsRead(bytes, start, inflate);
      var next := NextAt(bytes, start);
      var rest := RecordsAreRead(bytes, next, count - 1, inflate);
      at := [start] + rest;
      var listed := ListFrom(bytes, next, count - 1).value;
      assert ([first] + listed)[0] == first && ([first] + listed)[1..] == listed;
      OneRecordFirst(bytes, start, rest, inflate, ReadEntry(bytes, first, inflate), ReadEntries(bytes, listed, inflate));
    }
  }

  lemma OneRecordFirst(bytes: seq<Byte>, start: nat, rest: seq<nat>, inflate: Inflate, entry: ZipEntry, entries: seq<ZipEntry>)
    requires IsRecord(bytes, start) && IsReadAs(bytes, start, inflate, entry)
    requires AreRead(bytes, NextAt(bytes, start), rest, inflate, entries)
    ensures AreRead(bytes, start, [start] + rest, inflate, [entry] + entries)
  {
    hide IsReadAs, U16At, U32At;
    var at, all := [start] + rest, [entry] + entries;
    forall i | 0 <= i < |at|
      ensures IsRecord(bytes, at[i]) && IsReadAs(bytes, at[i], inflate, all[i])
    {
      if i > 0 {
        assert at[i] == rest[i - 1] && all[i] == entries[i - 1];
      }
    }
  }

  /** The end record the archive goes by: the last, of those a comment could be behind, that ends it. */
  ghost predicate IsEnd(bytes: seq<Byte>, end: nat) {
    EndsAt(bytes, end) && |bytes| <= end + 22 + 0xffff && forall later: nat :: later > end ==> !EndsAt(bytes, later)
  }

  lemma {:induction false} EndFromIs(bytes: seq<Byte>, at: int, first: nat)
    requires at + 22 <= |bytes|
    ensures var end := EndFrom(bytes, at, first);
            && (end == -1 || (first <= end <= at && EndsAt(bytes, end)))
            && forall later: nat :: (if end == -1 then first else end + 1) <= later <= at ==> !EndsAt(bytes, later)
    decreases at
  {
    hide EndsAt;
    if at >= first && !EndsAt(bytes, at) {
      EndFromIs(bytes, at - 1, first);
    }
  }

  lemma EndIs(bytes: seq<Byte>)
    ensures var end := EndRecordOf(bytes);
            if end == -1 then forall at: nat :: |bytes| <= at + 22 + 0xffff ==> !EndsAt(bytes, at)
            else end >= 0 && IsEnd(bytes, end)
  {
    var last := |bytes| - 22;
    EndFromIs(bytes, last, if last > MAX_COMMENT then last - MAX_COMMENT else 0);
    assert forall at: nat :: at > last ==> !EndsAt(bytes, at);
    hide EndsAt, EndFrom;
  }

  /**
    An archive that is read has an end record that is the whole of one disk's, and as many
    records as it says, one behind another from where it says; each is read in turn, just as
    it must be. So every file that comes out has the size and the checksum its record says,
    and is no larger than a file may be.
   */
  lemma ReadIsChecked(bytes: seq<Byte>, inflate: Inflate) returns (end: nat, at: seq<nat>)
    requires ReadZip(bytes, inflate).Ok?
    ensures IsEnd(bytes, end) && U16At(bytes, end + 4) == 0 && U16At(bytes, end + 6) == 0
    ensures U16At(bytes, end + 10) != 0xffff && |ReadZip(bytes, inflate).value| == U16At(bytes, end + 10)
    ensures AreRead(bytes, U32At(bytes, end + 16), at, inflate, ReadZip(bytes, inflate).value)
  {
    hide U16At, U32At, EndRecordOf, ListFrom, IsEnd, IsReadAs;
    EndIs(bytes);
    end := EndRecordOf(bytes);
    at := RecordsAreRead(bytes, U32At(bytes, end + 16), U16At(bytes, end + 10), inflate);
    ReadAsMany(bytes, ListFrom(bytes, U32At(bytes, end + 16), U16At(bytes, end + 10)).value, inflate);
  }

  lemma {:induction false} ReadAsMany(bytes: seq<Byte>, entries: seq<Listed>, inflate: Inflate)
    ensures |ReadEntries(bytes, entries, inflate)| == |entries|
  {
    hide ReadEntry;
    if entries != [] {
      ReadAsMany(bytes, entries[1..], inflate);
    }
  }

  /** So nothing damaged is read, and nothing too large. */
  lemma FilesAreWhole(bytes: seq<Byte>, inflate: Inflate, i: nat)
    requires ReadZip(bytes, inflate).Ok? && i < |ReadZip(bytes, inflate).value| && ReadZip(bytes, inflate).value[i].File?
    ensures exists at: nat :: IsRecord(bytes, at)
              && |ReadZip(bytes, inflate).value[i].bytes| == U32At(bytes, at + 24) <= 26_214_400
              && CrcNumber(ReadZip(bytes, inflate).value[i].bytes) == U32At(bytes, at + 16)
  {
    hide U16At, U32At, ReadZip, IsEnd, CrcNumber;
    var end, at := ReadIsChecked(bytes, inflate);
    assert IsReadAs(bytes, at[i], inflate, ReadZip(bytes, inflate).value[i]);
  }

  // ----- Refusals ----------------------------------------------------------------------

  /** A record that says to look elsewhere for its size or its place. */
  predicate IsZip64Record(bytes: seq<Byte>, at: nat) {
    IsRecord(bytes, at) && (U32At(bytes, at + 24) == 0xffff_ffff || U32At(bytes, at + 42) == 0xffff_ffff)
  }

  lemma RecordRefusedFor(bytes: seq<Byte>, at: nat)
    ensures CentralAt(bytes, at).Ok? <==> IsRecord(bytes, at) && !IsZip64Record(bytes, at)
    ensures CentralAt(bytes, at).Refused? ==> CentralAt(bytes, at).refusal == if IsRecord(bytes, at) then Zip64 else NotZip
  {
    hide U16At, U32At, NameOf, Subarray;
  }

  /** Records there are, one behind another, none of them one that says to look elsewhere. */
  ghost predicate AreRecords(bytes: seq<Byte>, start: nat, at: seq<nat>) {
    at != [] && at[0] == start
    && forall i :: 0 <= i < |at| - 1 ==>
         IsRecord(bytes, at[i]) && !IsZip64Record(bytes, at[i]) && at[i + 1] == NextAt(bytes, at[i])
  }

  lemma OneMoreRecord(bytes: seq<Byte>, start: nat, rest: seq<nat>)
    requires IsRecord(bytes, start) && !IsZip64Record(bytes, start) && AreRecords(bytes, NextAt(bytes, start), rest)
    ensures AreRecords(bytes, start, [start] + rest)
  {
    hide U16At, U32At, IsZip64Record;
    var at := [start] + rest;
    assert forall i :: 0 < i < |at| ==> at[i] == rest[i - 1];
  }

  /** The records are refused for the first that is none, or says to look elsewhere, of those that were to be there. */
  lemma {:induction false} RecordsRefusedFor(bytes: seq<Byte>, start: nat, count: nat) returns (at: seq<nat>)
    requires ListFrom(bytes, start, count).Refused?
    ensures AreRecords(bytes, start, at) && |at| <= count
    ensures var last, refusal := at[|at| - 1], ListFrom(bytes, start, count).refusal;
            if IsRecord(bytes, last) then IsZip64Record(bytes, last) && refusal == Zip64 else refusal == NotZip
    decreases count
  {
    hide U16At, U32At, CentralAt, IsZip64Record, NextAt;
    RecordRefusedFor(bytes, start);
    if CentralAt(bytes, start).Refused? {
      at := [start];
    } else {
      NextIs(bytes, start);
      var rest := RecordsRefusedFor(bytes, NextAt(bytes, start), count - 1);
      OneMoreRecord(bytes, start, rest);
      at := [start] + rest;
      assert at[|at| - 1] == rest[|rest| - 1];
    }
  }

  lemma NextIs(bytes: seq<Byte>, at: nat)
    requires at + 46 <= |bytes|
    ensures NextAt(bytes, at) == at + 46 + LengthsAt(bytes, at)
  {
    hide U16At;
  }

  /** Bytes that end in no end record are no archive; one that names another disk is split; one of all ones is another format's. */
  lemma RefusalsAre(bytes: seq<Byte>, inflate: Inflate)
    ensures (forall at: nat :: |bytes| <= at + 22 + 0xffff ==> !EndsAt(bytes, at)) ==> ReadZip(bytes, inflate) == Refused(NotZip)
    ensures forall end: nat :: IsEnd(bytes, end) ==>
              if U16At(bytes, end + 4) != 0 || U16At(bytes, end + 6) != 0 then ReadZip(bytes, inflate) == Refused(Spanned)
              else if U16At(bytes, end + 10) == 0xffff || U32At(bytes, end + 16) == 0xffff_ffff then
                ReadZip(bytes, inflate) == Refused(Zip64)
              else
                var listed := ListFrom(bytes, U32At(bytes, end + 16), U16At(bytes, end + 10));
                if listed.Refused? then ReadZip(bytes, inflate) == Refused(listed.refusal) else ReadZip(bytes, inflate).Ok?
  {
    hide U16At, U32At, EndRecordOf, ListFrom, ReadEntries;
    EndIs(bytes);
    forall end: nat | IsEnd(bytes, end)
      ensures end == EndRecordOf(bytes) && end + 22 <= |bytes|
    {
      OneEnd(bytes, end);
    }
  }

  lemma OneEnd(bytes: seq<Byte>, end: nat)
    requires IsEnd(bytes, end)
    ensures end == EndRecordOf(bytes) && end + 22 <= |bytes|
  {
    hide U16At, U32At, EndRecordOf;
    EndIs(bytes);
  }
}
