/**
  What the headers of a written archive say, byte by byte (`entryFor` and `zipParts` in
  apps/web/src/store/exportNotes.ts; sections 4.3.7, 4.3.12, 4.3.16 and 4.4 of PKWARE
  APPNOTE): the fields the reader goes by and those it skips, the dates among them.
 */
module ZipFields {
  import opened Options
  import opened Paths
  import opened Crc32
  import opened Utf8
  import opened Apart
  import opened Zip
  import opened ZipWriter

  // ----- The headers -------------------------------------------------------------------

  /** The twenty-four bytes both headers share. */
  predicate SaysShared(bytes: seq<Byte>, at: nat, e: Entry) {
    && at + 24 <= |bytes|
    && U16At(bytes, at) == 0x0800
    && U16At(bytes, at + 2) == 0
    && U16At(bytes, at + 4) == e.time
    && U16At(bytes, at + 6) == e.date
    && U32At(bytes, at + 8) == e.crc
    && U32At(bytes, at + 12) == |e.data| && U32At(bytes, at + 16) == |e.data|
    && U16At(bytes, at + 20) == |e.name|
    && U16At(bytes, at + 22) == 0
  }

  /** A local header, with the name and then the bytes of the entry behind it. */
  predicate SaysLocal(bytes: seq<Byte>, at: nat, e: Entry) {
    && at + 30 + |e.name| + |e.data| <= |bytes|
    && U32At(bytes, at) == 0x04034b50
    && U16At(bytes, at + 4) == 20
    && SaysShared(bytes, at + 6, e)
    && bytes[at + 30..at + 30 + |e.name|] == e.name
    && bytes[at + 30 + |e.name|..at + 30 + |e.name| + |e.data|] == e.data
  }

  /** A central record, which says where the local header is. */
  predicate SaysCentral(bytes: seq<Byte>, at: nat, e: Entry, offset: nat) {
    && at + 46 + |e.name| <= |bytes|
    && U32At(bytes, at) == 0x02014b50
    && U16At(bytes, at + 4) == 20 && U16At(bytes, at + 6) == 20
    && SaysShared(bytes, at + 8, e)
    && U16At(bytes, at + 32) == 0 && U16At(bytes, at + 34) == 0 && U16At(bytes, at + 36) == 0
    && U32At(bytes, at + 38) == e.attributes
    && U32At(bytes, at + 42) == offset
    && bytes[at + 46..at + 46 + |e.name|] == e.name
  }

  /** The end record: one disk, all the entries on it, and where and how long the directory is. */
  predicate SaysEnd(bytes: seq<Byte>, at: nat, count: nat, size: nat, offset: nat) {
    && at + 22 == |bytes|
    && U32At(bytes, at) == 0x06054b50
    && U16At(bytes, at + 4) == 0 && U16At(bytes, at + 6) == 0
    && U16At(bytes, at + 8) == count && U16At(bytes, at + 10) == count
    && U32At(bytes, at + 12) == size && U32At(bytes, at + 16) == offset
    && U16At(bytes, at + 20) == 0
  }

  /** A sixteen-bit field, and what is behind it. */
  lemma Peel16(bytes: seq<Byte>, at: nat, value: nat, rest: seq<Byte>)
    requires Holds(bytes, at, U16(value) + rest) && value < 0x1_0000
    ensures at + 2 <= |bytes| && U16At(bytes, at) == value && Holds(bytes, at + 2, rest)
  {
    Peel(bytes, at, U16(value), rest);
    ReadU16(bytes, at, value);
  }

  lemma Peel32(bytes: seq<Byte>, at: nat, value: nat, rest: seq<Byte>)
    requires Holds(bytes, at, U32(value) + rest) && value < 0x1_0000_0000
    ensures at + 4 <= |bytes| && U32At(bytes, at) == value && Holds(bytes, at + 4, rest)
  {
    Peel(bytes, at, U32(value), rest);
    ReadU32(bytes, at, value);
  }

  lemma SharedIsSaid(bytes: seq<Byte>, at: nat, e: Entry)
    requires Holds(bytes, at, Described(e)) && FieldsFit(e) && |e.data| < ZIP64_BYTES
    ensures SaysShared(bytes, at, e)
  {
    hide U16, U32, U16At, U32At, Holds;
    var r8 := U16(|e.name|) + U16(0);
    var r7 := U32(|e.data|) + r8;
    var r6 := U32(|e.data|) + r7;
    var r5 := U32(e.crc) + r6;
    var r4 := U16(e.date) + r5;
    var r3 := U16(e.time) + r4;
    Peel16(bytes, at, UTF8_NAMES, U16(STORED) + r3);
    Peel16(bytes, at + 2, STORED, r3);
    Peel16(bytes, at + 4, e.time, r4);
    Peel16(bytes, at + 6, e.date, r5);
    Peel32(bytes, at + 8, e.crc, r6);
    Peel32(bytes, at + 12, |e.data|, r7);
    Peel32(bytes, at + 16, |e.data|, r8);
    Peel16(bytes, at + 20, |e.name|, U16(0));
    LastU16(bytes, at + 22);
  }

  lemma LastU16(bytes: seq<Byte>, at: nat)
    requires Holds(bytes, at, U16(0))
    ensures at + 2 <= |bytes| && U16At(bytes, at) == 0
  {
    ReadU16(bytes, at, 0);
  }

  lemma LocalIsSaid(bytes: seq<Byte>, at: nat, e: Entry)
    requires Holds(bytes, at, Local(e)) && FieldsFit(e) && |e.data| < ZIP64_BYTES
    ensures SaysLocal(bytes, at, e)
  {
    hide U16, U32, U16At, U32At, Described, SaysShared;
    Peel(bytes, at, LocalHeader(e), e.name + e.data);
    Peel(bytes, at + 30, e.name, e.data);
    Peel32(bytes, at, LOCAL_HEADER, U16(VERSION) + Described(e));
    Peel16(bytes, at + 4, VERSION, Described(e));
    SharedIsSaid(bytes, at + 6, e);
  }

  lemma CentralIsSaid(bytes: seq<Byte>, at: nat, e: Entry, offset: nat)
    requires Holds(bytes, at, Central(e, offset)) && FieldsFit(e) && |e.data| < ZIP64_BYTES && offset < 0x1_0000_0000
    ensures SaysCentral(bytes, at, e, offset)
  {
    hide U16, U32, U16At, U32At, Described, SaysShared, CentralEnd, Holds;
    var r2 := Described(e) + CentralEnd(e, offset);
    Peel32(bytes, at, CENTRAL_HEADER, U16(VERSION) + (U16(VERSION) + r2));
    Peel16(bytes, at + 4, VERSION, U16(VERSION) + r2);
    Peel16(bytes, at + 6, VERSION, r2);
    Peel(bytes, at + 8, Described(e), CentralEnd(e, offset));
    SharedIsSaid(bytes, at + 8, e);
    CentralEndIsSaid(bytes, at + 32, e, offset);
  }

  lemma CentralEndIsSaid(bytes: seq<Byte>, at: nat, e: Entry, offset: nat)
    requires Holds(bytes, at, CentralEnd(e, offset)) && FieldsFit(e) && offset < 0x1_0000_0000
    ensures at + 14 + |e.name| <= |bytes|
    ensures U16At(bytes, at) == 0 && U16At(bytes, at + 2) == 0 && U16At(bytes, at + 4) == 0
    ensures U32At(bytes, at + 6) == e.attributes && U32At(bytes, at + 10) == offset
    ensures bytes[at + 14..at + 14 + |e.name|] == e.name
  {
    hide U16, U32, U16At, U32At;
    var r2 := U32(offset) + e.name;
    var r1 := U32(e.attributes) + r2;
    Peel16(bytes, at, 0, U16(0) + (U16(0) + r1));
    Peel16(bytes, at + 2, 0, U16(0) + r1);
    Peel16(bytes, at + 4, 0, r1);
    Peel32(bytes, at + 6, e.attributes, r2);
    Peel32(bytes, at + 10, offset, e.name);
  }

  lemma EndIsSaid(bytes: seq<Byte>, at: nat, count: nat, size: nat, offset: nat)
    requires Holds(bytes, at, EndRecord(count, size, offset)) && at + 22 == |bytes|
    requires count < 0x1_0000 && size < 0x1_0000_0000 && offset < 0x1_0000_0000
    ensures SaysEnd(bytes, at, count, size, offset)
  {
    hide U16, U32, U16At, U32At, Holds;
    var r3 := U32(offset) + U16(0);
    var r2 := U32(size) + r3;
    var r1 := U16(count) + (U16(count) + r2);
    Peel32(bytes, at, END_RECORD, U16(0) + (U16(0) + r1));
    Peel16(bytes, at + 4, 0, U16(0) + r1);
    Peel16(bytes, at + 6, 0, r1);
    Peel16(bytes, at + 8, count, U16(count) + r2);
    Peel16(bytes, at + 10, count, r2);
    Peel32(bytes, at + 12, size, r3);
    Peel32(bytes, at + 16, offset, U16(0));
    LastU16(bytes, at + 20);
  }

  // ----- Where they are ----------------------------------------------------------------

  /** Where the local header of the i-th entry is: behind every entry before it. */
  function LocalAt(entries: seq<Entry>, i: nat): nat
    requires i <= |entries|
  {
    |Locals(entries[..i])|
  }

  /** And its central record: behind the entries, and the records before it. */
  function CentralAt(entries: seq<Entry>, i: nat): nat
    requires i <= |entries|
  {
    |Locals(entries)| + |Centrals(entries[..i], 0)|
  }

  lemma Split3(entries: seq<Entry>, i: nat)
    requires i < |entries|
    ensures entries == entries[..i] + ([entries[i]] + entries[i + 1..])
    ensures ([entries[i]] + entries[i + 1..])[0] == entries[i] && ([entries[i]] + entries[i + 1..])[1..] == entries[i + 1..]
  {}

  lemma HeldIn(bytes: seq<Byte>, at: nat, whole: seq<Byte>, front: seq<Byte>, piece: seq<Byte>, rest: seq<Byte>)
    requires Holds(bytes, at, whole) && whole == front + (piece + rest)
    ensures Holds(bytes, at + |front|, piece)
  {
    Peel(bytes, at, front, piece + rest);
    Peel(bytes, at + |front|, piece, rest);
  }

  lemma ArchiveHoldsEntry(entries: seq<Entry>, i: nat)
    requires i < |entries|
    ensures Holds(Archive(entries), LocalAt(entries, i), Local(entries[i]))
    ensures Holds(Archive(entries), CentralAt(entries, i), Central(entries[i], LocalAt(entries, i)))
    ensures LocalAt(entries, i) + |entries[i].data| <= |Locals(entries)|
  {
    hide Locals, Centrals, Local, Central, Archive, Holds;
    var rest := [entries[i]] + entries[i + 1..];
    Split3(entries, i);
    ArchiveHolds(entries);
    LocalsConcat(entries[..i], rest);
    CentralsConcat(entries[..i], rest, 0);
    LocalsUnfold(rest);
    CentralsUnfold(rest, LocalAt(entries, i));
    HeldIn(Archive(entries), 0, Locals(entries), Locals(entries[..i]), Local(entries[i]), Locals(entries[i + 1..]));
    HeldIn(Archive(entries), |Locals(entries)|, Centrals(entries, 0), Centrals(entries[..i], 0),
           Central(entries[i], LocalAt(entries, i)), Centrals(entries[i + 1..], LocalAt(entries, i) + |Local(entries[i])|));
  }

  /** Every header of an archive within the limits says what its entry does, and where it is. */
  lemma HeadersSay(entries: seq<Entry>, i: nat)
    requires WithinLimits(entries) && i < |entries|
    ensures SaysLocal(Archive(entries), LocalAt(entries, i), entries[i])
    ensures SaysCentral(Archive(entries), CentralAt(entries, i), entries[i], LocalAt(entries, i))
  {
    hide Locals, Centrals, Local, Central, Archive, Holds, SaysLocal, SaysCentral;
    ArchiveHoldsEntry(entries, i);
    LocalIsSaid(Archive(entries), LocalAt(entries, i), entries[i]);
    CentralIsSaid(Archive(entries), CentralAt(entries, i), entries[i], LocalAt(entries, i));
  }

  lemma EndSays(entries: seq<Entry>)
    requires WithinLimits(entries)
    ensures SaysEnd(Archive(entries), |Locals(entries)| + |Centrals(entries, 0)|, |entries|, |Centrals(entries, 0)|, |Locals(entries)|)
  {
    hide Locals, Centrals, EndRecord, SaysEnd;
    ArchiveHolds(entries);
    EndIsSaid(Archive(entries), |Locals(entries)| + |Centrals(entries, 0)|, |entries|, |Centrals(entries, 0)|, |Locals(entries)|);
  }

  // ----- The entries as they were given ------------------------------------------------

  /** The date a reader shows for a date given: to the even second before, or the first day there is. */
  function Shown(at: Option<Clock>): WallTime {
    if at.Some? && 1980 <= at.value.year <= 2107 then at.value.(seconds := at.value.seconds - at.value.seconds % 2)
    else WallTime(1980, 1, 1, 0, 0, 0)
  }

  lemma ShownIsStamped(at: Option<Clock>)
    ensures ReadStamp(DosStampOf(at)) == Shown(at)
  {
    if at.Some? {
      StampReadsBack(at.value);
    }
  }

  /** What the local header of an entry says of what was archived, and what is behind it. */
  predicate LocalSays(bytes: seq<Byte>, local: nat, path: string, content: FileContent, at: Option<Clock>) {
    var name, data := Encode(path), DataOf(content);
    && local + 30 + |name| + |data| <= |bytes|
    && U32At(bytes, local) == 0x04034b50
    && U16At(bytes, local + 4) == 20
    && U16At(bytes, local + 6) == 0x0800
    && U16At(bytes, local + 8) == 0
    && ReadStamp(DosStamp(U16At(bytes, local + 10), U16At(bytes, local + 12))) == Shown(at)
    && U32At(bytes, local + 14) == CrcNumber(data)
    && U32At(bytes, local + 18) == |data| && U32At(bytes, local + 22) == |data|
    && U16At(bytes, local + 26) == |name|
    && U16At(bytes, local + 28) == 0
    && bytes[local + 30..local + 30 + |name|] == name
    && bytes[local + 30 + |name|..local + 30 + |name| + |data|] == data
  }

  /** What its record in the central directory says. */
  predicate RecordSays(bytes: seq<Byte>, central: nat, path: string, content: FileContent, at: Option<Clock>,
                       isFolder: bool, local: nat) {
    var name, data := Encode(path), DataOf(content);
    && central + 46 + |name| <= |bytes|
    && U32At(bytes, central) == 0x02014b50
    && U16At(bytes, central + 4) == 20 && U16At(bytes, central + 6) == 20
    && U16At(bytes, central + 8) == 0x0800
    && U16At(bytes, central + 10) == 0
    && ReadStamp(DosStamp(U16At(bytes, central + 12), U16At(bytes, central + 14))) == Shown(at)
    && U32At(bytes, central + 16) == CrcNumber(data)
    && U32At(bytes, central + 20) == |data| && U32At(bytes, central + 24) == |data|
    && U16At(bytes, central + 28) == |name|
    && U16At(bytes, central + 30) == 0 && U16At(bytes, central + 32) == 0
    && U16At(bytes, central + 34) == 0 && U16At(bytes, central + 36) == 0
    && U32At(bytes, central + 38) == (if isFolder then 0x10 else 0)
    && U32At(bytes, central + 42) == local
    && bytes[central + 46..central + 46 + |name|] == name
  }

  lemma LocalIsShown(bytes: seq<Byte>, local: nat, path: string, content: FileContent, at: Option<Clock>, attributes: nat)
    requires SaysLocal(bytes, local, EntryOf(path, content, at, attributes))
    ensures LocalSays(bytes, local, path, content, at)
  {
    hide U16At, U32At, DosStampOf, ReadStamp, Encode, DataOf, Shown, CrcNumber;
    ShownIsStamped(at);
  }

  lemma RecordIsShown(bytes: seq<Byte>, central: nat, path: string, content: FileContent, at: Option<Clock>,
                      attributes: nat, local: nat)
    requires SaysCentral(bytes, central, EntryOf(path, content, at, attributes), local)
    requires attributes == 0 || attributes == DIRECTORY
    ensures RecordSays(bytes, central, path, content, at, attributes == DIRECTORY, local)
  {
    hide U16At, U32At, DosStampOf, ReadStamp, Encode, DataOf, Shown, CrcNumber;
    ShownIsStamped(at);
  }

  /**
    Every file of a written archive, in the order given: both its headers carry its name,
    size and checksum, the mark that the name is UTF-8, and its date to the even second, or
    the first of 1980 where it has none or one the format has not; and its bytes follow.
   */
  lemma FileIsSaid(files: seq<ZipFile>, folders: seq<ZipFolder>, unnamed: string, i: nat)
    requires IsSegment(unnamed) && '\\' !in unnamed && OutcomeOf(files, folders, unnamed).Written? && i < |files|
    ensures var entries, names := OutcomeOf(files, folders, unnamed).entries, NamesOf(files, folders, unnamed);
            var k := |names.folders| + i;
            && k < |entries|
            && LocalSays(Archive(entries), LocalAt(entries, k), names.files[i], files[i].content, files[i].modifiedAt)
            && RecordSays(Archive(entries), CentralAt(entries, k), names.files[i], files[i].content, files[i].modifiedAt,
                          false, LocalAt(entries, k))
  {
    hide Archive, EntryOf, ApartOf, SaysLocal, SaysCentral, LocalSays, RecordSays, OutcomeOf, WithinLimits, FileEntries, FolderEntries;
    var names := NamesOf(files, folders, unnamed);
    FieldsAreWritten(files, folders, unnamed);
    WrittenAreAll(files, folders, unnamed);
    var first, second := FolderEntries(names.folders, folders), FileEntries(names.files, files);
    var entries := first + second;
    assert entries[|first| + i] == second[i];
    HeadersSay(entries, |first| + i);
    LocalIsShown(Archive(entries), LocalAt(entries, |first| + i), names.files[i], files[i].content, files[i].modifiedAt, 0);
    RecordIsShown(Archive(entries), CentralAt(entries, |first| + i), names.files[i], files[i].content, files[i].modifiedAt,
                  0, LocalAt(entries, |first| + i));
  }

  /** Every notebook written: an empty entry marked as a folder, under its name and a slash, with its date. */
  lemma FolderIsSaid(files: seq<ZipFile>, folders: seq<ZipFolder>, unnamed: string, i: nat)
    requires IsSegment(unnamed) && '\\' !in unnamed && OutcomeOf(files, folders, unnamed).Written?
    requires i < |NamesOf(files, folders, unnamed).folders|
    ensures var entries, names := OutcomeOf(files, folders, unnamed).entries, NamesOf(files, folders, unnamed);
            && i < |entries|
            && var path, date := names.folders[i] + "/", FolderDate(names.folders[i], folders);
            && LocalSays(Archive(entries), LocalAt(entries, i), path, Raw([]), date)
            && RecordSays(Archive(entries), CentralAt(entries, i), path, Raw([]), date, true, LocalAt(entries, i))
  {
    hide Archive, EntryOf, ApartOf, SaysLocal, SaysCentral, LocalSays, RecordSays, OutcomeOf, WithinLimits, FileEntries, FolderEntries;
    var names := NamesOf(files, folders, unnamed);
    FieldsAreWritten(files, folders, unnamed);
    WrittenAreAll(files, folders, unnamed);
    var first, second := FolderEntries(names.folders, folders), FileEntries(names.files, files);
    var entries := first + second;
    assert entries[i] == first[i];
    HeadersSay(entries, i);
    var path, date := names.folders[i] + "/", FolderDate(names.folders[i], folders);
    LocalIsShown(Archive(entries), LocalAt(entries, i), path, Raw([]), date, DIRECTORY);
    RecordIsShown(Archive(entries), CentralAt(entries, i), path, Raw([]), date, DIRECTORY, LocalAt(entries, i));
  }

  /** A notebook's date is that of the first given under its name. */
  lemma {:induction false} FolderDateIsFirst(path: string, folders: seq<ZipFolder>, i: nat)
    requires i < |folders| && SafeName(folders[i].path) == path
    requires forall j :: 0 <= j < i ==> SafeName(folders[j].path) != path
    ensures FolderDate(path, folders) == folders[i].modifiedAt
    decreases i
  {
    hide SafeName;
    if i > 0 {
      assert folders[1..][i - 1] == folders[i];
      assert forall j :: 0 <= j < i - 1 ==> folders[1..][j] == folders[j + 1];
      FolderDateIsFirst(path, folders[1..], i - 1);
    }
  }

  /** And a notebook written was given. */
  lemma FolderWasGiven(files: seq<ZipFile>, folders: seq<ZipFolder>, unnamed: string, i: nat) returns (j: nat)
    requires IsSegment(unnamed) && '\\' !in unnamed && i < |NamesOf(files, folders, unnamed).folders|
    ensures var path := NamesOf(files, folders, unnamed).folders[i];
            && j < |folders| && SafeName(folders[j].path) == path
            && (forall k :: 0 <= k < j ==> SafeName(folders[k].path) != path)
            && FolderDate(path, folders) == folders[j].modifiedAt
  {
    hide SafeName, Placed, Implied, EmptyFolders, Named;
    var named := Named(FilePaths(files), unnamed);
    var path := NamesOf(files, folders, unnamed).folders[i];
    EmptyFoldersAreGiven(FolderPaths(folders), Implied(named), {});
    assert path in EmptyFolders(FolderPaths(folders), Implied(named), {});
    j := FirstGiven(path, folders);
    FolderDateIsFirst(path, folders, j);
  }

  lemma FirstGiven(path: string, folders: seq<ZipFolder>) returns (j: nat)
    requires exists given :: given in FolderPaths(folders) && SafeName(given) == path
    ensures j < |folders| && SafeName(folders[j].path) == path
    ensures forall k :: 0 <= k < j ==> SafeName(folders[k].path) != path
  {
    hide SafeName;
    var given :| given in FolderPaths(folders) && SafeName(given) == path;
    var at :| 0 <= at < |folders| && FolderPaths(folders)[at] == given;
    j := 0;
    while SafeName(folders[j].path) != path
      invariant j <= at
      invariant forall k :: 0 <= k < j ==> SafeName(folders[k].path) != path
      decreases at - j
    {
      j := j + 1;
    }
  }

  // ----- What is written at all --------------------------------------------------------

  /** What an entry takes: both headers, its name in each, and its bytes. */
  function Footprint(entries: seq<Entry>): nat {
    if entries == [] then 0 else 76 + 2 * |entries[0].name| + |entries[0].data| + Footprint(entries[1..])
  }

  lemma {:induction false} FootprintIs(entries: seq<Entry>, offset: nat)
    ensures |Locals(entries)| + |Centrals(entries, offset)| == Footprint(entries)
    decreases |entries|
  {
    hide Local, Central;
    if entries != [] {
      FootprintIs(entries[1..], offset + |Local(entries[0])|);
    }
  }

  /**
    An archive is written exactly where it has fewer than 65,535 entries, no name of more than
    65,535 bytes, and fewer bytes than a field can say; and what is refused is refused for the
    first of those that fails.
   */
  lemma WrittenIff(files: seq<ZipFile>, folders: seq<ZipFolder>, unnamed: string)
    requires IsSegment(unnamed) && '\\' !in unnamed
    ensures var entries := AllEntries(files, folders, unnamed);
            OutcomeOf(files, folders, unnamed) ==
              if |files| + |NamesOf(files, folders, unnamed).folders| >= 65535 then Refusal(Entries)
              else if exists i :: 0 <= i < |entries| && |entries[i].name| > 65535 then Refusal(NameLength)
              else if Footprint(entries) >= 4_294_967_295 then Refusal(TotalBytes)
              else Written(entries)
  {
    hide NamesOf, Locals, Centrals, Footprint;
    FootprintIs(AllEntries(files, folders, unnamed), 0);
  }
}
