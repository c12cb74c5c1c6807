/**
  The archive writer (`zipParts`, `entryFor`, `dosStamp`, `joined` in
  apps/web/src/store/exportNotes.ts): the naming pass, the limits, and the parts the
  archive is made of.
 */
module ZipWriter {
  import opened Paths
  import opened Options
  import opened Crc32
  import opened Utf8
  import opened Apart
  import opened Zip

  // ----- Dates -------------------------------------------------------------------------

  /** What the wall clock showed. */
  datatype WallTime = WallTime(year: int, month: nat, day: nat, hours: nat, minutes: nat, seconds: nat)
  {
    predicate Valid() {
      1 <= month <= 12 && 1 <= day <= 31 && hours < 24 && minutes < 60 && seconds < 60
    }
  }

  type Clock = at: WallTime | at.Valid() witness WallTime(1980, 1, 1, 0, 0, 0)

  datatype DosStamp = DosStamp(time: nat, date: nat)

  /** The two fields of a stamp. A year they cannot hold, or no time at all, gives the first day they can. */
  function DosStampOf(at: Option<Clock>): (stamp: DosStamp)
    ensures stamp.time < 0x1_0000 && stamp.date < 0x1_0000
  {
    if at.None? || at.value.year < 1980 || at.value.year > 2107 then DosStamp(0, 32 + 1)
    else
      var t := at.value;
      DosStamp(t.hours * 2048 + t.minutes * 32 + t.seconds / 2,
               (t.year - 1980) * 512 + t.month * 32 + t.day)
  }

  /** How every reader takes a stamp apart. */
  function ReadStamp(stamp: DosStamp): WallTime {
    WallTime(1980 + stamp.date / 512, stamp.date / 32 % 16, stamp.date % 32,
             stamp.time / 2048, stamp.time / 32 % 64, stamp.time % 32 * 2)
  }

  /** A date the format has is read back to the even second before it. */
  lemma StampReadsBack(t: Clock)
    ensures ReadStamp(DosStampOf(Some(t)))
            == if 1980 <= t.year <= 2107 then t.(seconds := t.seconds - t.seconds % 2)
               else WallTime(1980, 1, 1, 0, 0, 0)
  {
    if 1980 <= t.year <= 2107 {
      DateParts(t.year - 1980, t.month, t.day);
      TimeParts(t.hours, t.minutes, t.seconds / 2);
    }
  }

  lemma DateParts(years: nat, month: nat, day: nat)
    requires month < 16 && day < 32
    ensures var date := years * 512 + month * 32 + day;
            date / 512 == years && date / 32 % 16 == month && date % 32 == day
  {
    var date := years * 512 + month * 32 + day;
    assert date == 512 * years + (month * 32 + day);
    assert date == 32 * (years * 16 + month) + day;
  }

  lemma TimeParts(hours: nat, minutes: nat, half: nat)
    requires minutes < 64 && half < 32
    ensures var time := hours * 2048 + minutes * 32 + half;
            time / 2048 == hours && time / 32 % 64 == minutes && time % 32 == half
  {
    var time := hours * 2048 + minutes * 32 + half;
    assert time == 2048 * hours + (minutes * 32 + half);
    assert time == 32 * (hours * 64 + minutes) + half;
  }

  // ----- What is archived --------------------------------------------------------------

  /** Text, archived as its UTF-8 bytes, or bytes. */
  datatype FileContent = Text(text: string) | Raw(bytes: seq<Byte>)

  datatype ZipFile = ZipFile(path: string, content: FileContent, modifiedAt: Option<Clock>)

  datatype ZipFolder = ZipFolder(path: string, modifiedAt: Option<Clock>)

  function DataOf(content: FileContent): seq<Byte> {
    match content
    case Text(text) => Encode(text)
    case Raw(bytes) => bytes
  }

  /** `entryFor`, but for the refusal of a long name: what an entry's headers say. */
  function EntryOf(path: string, content: FileContent, modifiedAt: Option<Clock>, attributes: nat): Entry {
    var stamp := DosStampOf(modifiedAt);
    Entry(Encode(path), DataOf(content), CrcNumber(DataOf(content)), stamp.time, stamp.date, attributes)
  }

  datatype Limit = Entries | TotalBytes | NameLength

  datatype Outcome = Written(entries: seq<Entry>) | Refusal(limit: Limit)

  function FilePaths(files: seq<ZipFile>): (paths: seq<string>)
    ensures |paths| == |files|
    ensures forall i :: 0 <= i < |files| ==> paths[i] == files[i].path
  {
    seq(|files|, i requires 0 <= i < |files| => files[i].path)
  }

  function FolderPaths(folders: seq<ZipFolder>): (paths: seq<string>)
    ensures |paths| == |folders|
    ensures forall i :: 0 <= i < |folders| ==> paths[i] == folders[i].path
  {
    seq(|folders|, i requires 0 <= i < |folders| => folders[i].path)
  }

  /** The names of the archive's entries, as the naming pass gives them. */
  function NamesOf(files: seq<ZipFile>, folders: seq<ZipFolder>, unnamed: string): (names: Names)
    requires IsSegment(unnamed) && '\\' !in unnamed
    ensures |names.files| == |files|
  {
    ApartOf(FilePaths(files), FolderPaths(folders), unnamed)
  }

  /** The date of the folder an entry is for: the first given under its name. */
  function FolderDate(path: string, folders: seq<ZipFolder>): Option<Clock> {
    if folders == [] then None
    else if SafeName(folders[0].path) == path then folders[0].modifiedAt
    else FolderDate(path, folders[1..])
  }

  function FolderEntries(paths: seq<string>, folders: seq<ZipFolder>): (entries: seq<Entry>)
    ensures |entries| == |paths|
    ensures forall i :: 0 <= i < |paths| ==>
              entries[i] == EntryOf(paths[i] + "/", Raw([]), FolderDate(paths[i], folders), DIRECTORY)
  {
    seq(|paths|, i requires 0 <= i < |paths| =>
      EntryOf(paths[i] + "/", Raw([]), FolderDate(paths[i], folders), DIRECTORY))
  }

  function FileEntries(paths: seq<string>, files: seq<ZipFile>): (entries: seq<Entry>)
    requires |paths| == |files|
    ensures |entries| == |paths|
    ensures forall i :: 0 <= i < |paths| ==>
              entries[i] == EntryOf(paths[i], files[i].content, files[i].modifiedAt, 0)
  {
    seq(|paths|, i requires 0 <= i < |paths| => EntryOf(paths[i], files[i].content, files[i].modifiedAt, 0))
  }

  /** The folders come first, as the naming pass takes their names first. */
  function AllEntries(files: seq<ZipFile>, folders: seq<ZipFolder>, unnamed: string): seq<Entry>
    requires IsSegment(unnamed) && '\\' !in unnamed
  {
    var names := NamesOf(files, folders, unnamed);
    FolderEntries(names.folders, folders) + FileEntries(names.files, files)
  }

  predicate NamesFit(entries: seq<Entry>) {
    forall i :: 0 <= i < |entries| ==> |entries[i].name| <= 0xffff
  }

  /** When an archive is written, and which refusal it is when it is not. */
  function OutcomeOf(files: seq<ZipFile>, folders: seq<ZipFolder>, unnamed: string): Outcome
    requires IsSegment(unnamed) && '\\' !in unnamed
  {
    var entries := AllEntries(files, folders, unnamed);
    if |files| >= ZIP64_ENTRIES || |entries| >= ZIP64_ENTRIES then Refusal(Entries)
    else if !NamesFit(entries) then Refusal(NameLength)
    else if |Locals(entries)| + |Centrals(entries, 0)| >= ZIP64_BYTES then Refusal(TotalBytes)
    else Written(entries)
  }

  // ----- The writer --------------------------------------------------------------------

  function Flat(parts: seq<seq<Byte>>): seq<Byte> {
    if parts == [] then [] else parts[0] + Flat(parts[1..])
  }

  lemma {:induction false} FlatConcat(a: seq<seq<Byte>>, b: seq<seq<Byte>>)
    ensures Flat(a + b) == Flat(a) + Flat(b)
  {
    if a == [] {
      assert a + b == b;
    } else {
      assert (a + b)[1..] == a[1..] + b;
      FlatConcat(a[1..], b);
    }
  }

  lemma FlatOne(part: seq<Byte>)
    ensures Flat([part]) == part
  {
    assert [part][1..] == [];
  }

  function TotalLength(parts: seq<seq<Byte>>): nat {
    if parts == [] then 0 else |parts[0]| + TotalLength(parts[1..])
  }

  lemma {:induction false} FlatLength(parts: seq<seq<Byte>>)
    ensures |Flat(parts)| == TotalLength(parts)
  {
    if parts != [] {
      FlatLength(parts[1..]);
    }
  }

  /** The one write in the module: every part copied into one buffer, at a running offset. */
  method Joined(parts: seq<seq<Byte>>) returns (out: array<Byte>)
    ensures fresh(out)
    ensures out[..] == Flat(parts)
  {
    FlatLength(parts);
    out := new Byte[TotalLength(parts)];
    var offset: nat := 0;
    assert parts[..0] == [];
    for i := 0 to |parts|
      invariant offset + TotalLength(parts[i..]) == out.Length
      invariant out[..offset] == Flat(parts[..i])
    {
      var part := parts[i];
      assert parts[i..][0] == part && parts[i..][1..] == parts[i + 1..];
      forall k | 0 <= k < |part| {
        out[offset + k] := part[k];
      }
      assert out[..offset + |part|] == Flat(parts[..i]) + part;
      assert parts[..i + 1] == parts[..i] + [part];
      FlatConcat(parts[..i], [part]);
      FlatOne(part);
      offset := offset + |part|;
    }
    assert parts[..|parts|] == parts && parts[|parts|..] == [];
    assert out[..] == out[..offset];
  }

  lemma {:induction false} LocalsConcat(a: seq<Entry>, b: seq<Entry>)
    ensures Locals(a + b) == Locals(a) + Locals(b)
  {
    hide Local;
    if a == [] {
      assert a + b == b;
    } else {
      assert (a + b)[1..] == a[1..] + b;
      LocalsConcat(a[1..], b);
    }
  }

  lemma NothingListed(offset: nat)
    ensures Centrals([], offset) == [] && Locals([]) == []
  {}

  lemma {:induction false} CentralsConcat(a: seq<Entry>, b: seq<Entry>, offset: nat)
    ensures Centrals(a + b, offset) == Centrals(a, offset) + Centrals(b, offset + |Locals(a)|)
    decreases |a|
  {
    hide Central, Local, Centrals, Locals;
    if a == [] {
      assert a + b == b;
      NothingListed(offset);
    } else {
      var rest := a[1..];
      var next := offset + |Local(a[0])|;
      assert (a + b)[0] == a[0] && (a + b)[1..] == rest + b;
      CentralsConcat(rest, b, next);
      CentralsUnfold(a + b, offset);
      CentralsUnfold(a, offset);
      LocalsUnfold(a);
      assert Central(a[0], offset) + (Centrals(rest, next) + Centrals(b, next + |Locals(rest)|))
          == (Central(a[0], offset) + Centrals(rest, next)) + Centrals(b, next + |Locals(rest)|);
    }
  }

  lemma OneMore(done: seq<Entry>, e: Entry)
    ensures Locals(done + [e]) == Locals(done) + Local(e)
    ensures Centrals(done + [e], 0) == Centrals(done, 0) + Central(e, |Locals(done)|)
  {
    hide Central, Local;
    LocalsConcat(done, [e]);
    CentralsConcat(done, [e], 0);
    assert [e][1..] == [];
    assert Locals([e]) == Local(e) + [];
    assert Centrals([e], |Locals(done)|) == Central(e, |Locals(done)|) + [];
  }

  datatype Parts = Parts(parts: seq<seq<Byte>>) | TooMuch(limit: Limit)

  /**
    `zipParts`: the entries are made one after another, each at the offset the ones
    before it come to, and nothing is written that a reader would misread.
   */
  method ZipParts(files: seq<ZipFile>, folders: seq<ZipFolder>, unnamed: string) returns (zip: Parts)
    requires IsSegment(unnamed) && '\\' !in unnamed
    ensures match OutcomeOf(files, folders, unnamed)
            case Refusal(limit) => zip == TooMuch(limit)
            case Written(entries) => zip.Parts? && Flat(zip.parts) == Archive(entries)
  {
    hide Local, Central, Locals, Centrals, EndRecord, ApartOf, EntryOf, EmptyFolders, Placed;
    assert |NamesOf(files, folders, unnamed).files| == |files|;
    if |files| >= ZIP64_ENTRIES { return TooMuch(Entries); }
    var names := MakeApart(FilePaths(files), FolderPaths(folders), unnamed);
    var entries := FolderEntries(names.folders, folders) + FileEntries(names.files, files);
    assert entries == AllEntries(files, folders, unnamed);
    if |names.files| + |names.folders| >= ZIP64_ENTRIES { return TooMuch(Entries); }
    var size := 0;
    var locals: seq<seq<Byte>> := [];
    var centrals: seq<seq<Byte>> := [];
    NothingYet();
    for i := 0 to |entries|
      invariant NamesFit(entries[..i])
      invariant Flat(locals) == Locals(entries[..i]) && size == |Locals(entries[..i])|
      invariant Flat(centrals) == Centrals(entries[..i], 0)
    {
      var e := entries[i];
      if |e.name| > 0xffff { return TooMuch(NameLength); }
      assert entries[..i + 1] == entries[..i] + [e];
      OneMore(entries[..i], e);
      FlatConcat(locals, [Local(e)]);
      FlatOne(Local(e));
      FlatConcat(centrals, [Central(e, size)]);
      FlatOne(Central(e, size));
      locals := locals + [Local(e)];
      centrals := centrals + [Central(e, size)];
      size := size + |Local(e)|;
    }
    assert entries[..|entries|] == entries;
    var directory := Joined(centrals);
    if size + directory.Length >= ZIP64_BYTES { return TooMuch(TotalBytes); }
    var end := EndRecord(|entries|, directory.Length, size);
    FlatConcat(locals, [directory[..], end]);
    assert [directory[..], end][1..] == [end];
    FlatOne(end);
    return Parts(locals + [directory[..], end]);
  }

  lemma NothingYet()
    ensures Flat([]) == Locals([]) == Centrals([], 0) == []
  {}

  // ----- What is read back -------------------------------------------------------------

  /** What the import reads an archived file as. */
  function FileReadBack(path: string, content: FileContent): ZipEntry {
    var data := DataOf(content);
    if |data| > MAX_ATTACHMENT_BYTES then Unreadable(WithoutBom(path), TooLarge)
    else File(WithoutBom(path), data)
  }

  function FoldersReadBack(paths: seq<string>): (read: seq<ZipEntry>)
    ensures |read| == |paths|
    ensures forall i :: 0 <= i < |paths| ==> read[i] == Folder(WithoutBom(paths[i] + "/"))
  {
    seq(|paths|, i requires 0 <= i < |paths| => Folder(WithoutBom(paths[i] + "/")))
  }

  function FilesReadBack(paths: seq<string>, files: seq<ZipFile>): (read: seq<ZipEntry>)
    requires |paths| == |files|
    ensures |read| == |paths|
    ensures forall i :: 0 <= i < |paths| ==> read[i] == FileReadBack(paths[i], files[i].content)
  {
    seq(|paths|, i requires 0 <= i < |paths| => FileReadBack(paths[i], files[i].content))
  }

  /** Every entry the import lists, in the order of the archive. */
  function AllReadBack(files: seq<ZipFile>, folders: seq<ZipFolder>, unnamed: string): seq<ZipEntry>
    requires IsSegment(unnamed) && '\\' !in unnamed
  {
    var names := NamesOf(files, folders, unnamed);
    FoldersReadBack(names.folders) + FilesReadBack(names.files, files)
  }

  lemma NameReadBack(path: string)
    ensures NameOf(Encode(path)) == WithoutBom(path)
  {
    DecodeOfEncoded(path);
  }

  lemma FolderEntryReadsBack(path: string, modifiedAt: Option<Clock>)
    requires IsEntryPath(path)
    ensures ReadBack(EntryOf(path + "/", Raw([]), modifiedAt, DIRECTORY)) == Folder(WithoutBom(path + "/"))
  {
    NameReadBack(path + "/");
    EntryPathEnd(path);
  }

  lemma FileEntryReadsBack(path: string, file: ZipFile)
    requires IsEntryPath(path) && '\\' !in path
    ensures ReadBack(EntryOf(path, file.content, file.modifiedAt, 0)) == FileReadBack(path, file.content)
  {
    hide IsEntryPath;
    NameReadBack(path);
    EntryPathEnd(path);
  }

  lemma {:induction false} ReadBackEach(entries: seq<Entry>, read: seq<ZipEntry>)
    requires |entries| == |read|
    requires forall i :: 0 <= i < |entries| ==> ReadBack(entries[i]) == read[i]
    ensures ReadBackAll(entries) == read
  {
    hide ReadBack;
    if entries != [] {
      assert forall i :: 0 <= i < |entries| - 1 ==> entries[1..][i] == entries[i + 1] && read[1..][i] == read[i + 1];
      ReadBackEach(entries[1..], read[1..]);
    }
  }

  lemma FieldsAreWritten(files: seq<ZipFile>, folders: seq<ZipFolder>, unnamed: string)
    requires IsSegment(unnamed) && '\\' !in unnamed
    requires OutcomeOf(files, folders, unnamed).Written?
    ensures WithinLimits(OutcomeOf(files, folders, unnamed).entries)
  {
    hide ApartOf, Locals, Centrals, NamesOf, Encode, DataOf, CrcNumber;
    var names := NamesOf(files, folders, unnamed);
    var first, second := FolderEntries(names.folders, folders), FileEntries(names.files, files);
    var entries := first + second;
    forall i | 0 <= i < |entries|
      ensures FieldsFit(entries[i])
    {
      if i >= |first| {
        assert entries[i] == second[i - |first|];
      }
    }
  }

  /**
    Whenever an archive is written, the import reads back exactly what was archived,
    in order and each under its own name: every empty notebook as a folder and every
    file with its bytes. Two things are not as they were, and only these: a name loses
    a byte order mark it starts with, and a file over the import's own limit is listed
    as too large.
   */
  lemma ArchiveReadsBack(files: seq<ZipFile>, folders: seq<ZipFolder>, unnamed: string, inflate: Inflate)
    requires IsSegment(unnamed) && '\\' !in unnamed
    requires OutcomeOf(files, folders, unnamed).Written?
    ensures ReadZip(Archive(OutcomeOf(files, folders, unnamed).entries), inflate)
            == Ok(AllReadBack(files, folders, unnamed))
  {
    hide OutcomeOf, WithinLimits, ReadZip, Archive, ReadBack, EntryOf, FileReadBack, IsEntryPath, ApartOf;
    var names := NamesOf(files, folders, unnamed);
    var first, second := FolderEntries(names.folders, folders), FileEntries(names.files, files);
    FieldsAreWritten(files, folders, unnamed);
    WrittenAreAll(files, folders, unnamed);
    ReadsWhatIsLaidOut(first + second, inflate);
    NamesAreReadable(files, folders, unnamed);
    forall i | 0 <= i < |first|
      ensures ReadBack(first[i]) == FoldersReadBack(names.folders)[i]
    {
      FolderEntryReadsBack(names.folders[i], FolderDate(names.folders[i], folders));
    }
    forall i | 0 <= i < |second|
      ensures ReadBack(second[i]) == FilesReadBack(names.files, files)[i]
    {
      FileEntryReadsBack(names.files[i], files[i]);
    }
    ReadBackEach(first, FoldersReadBack(names.folders));
    ReadBackEach(second, FilesReadBack(names.files, files));
    ReadBackConcat(first, second);
  }

  lemma WrittenAreAll(files: seq<ZipFile>, folders: seq<ZipFolder>, unnamed: string)
    requires IsSegment(unnamed) && '\\' !in unnamed
    requires OutcomeOf(files, folders, unnamed).Written?
    ensures OutcomeOf(files, folders, unnamed).entries == AllEntries(files, folders, unnamed)
  {
    hide AllEntries, Locals, Centrals;
  }

  lemma NamedAreSafe(paths: seq<string>, unnamed: string)
    requires IsSegment(unnamed) && '\\' !in unnamed
    ensures forall path :: path in Named(paths, unnamed) ==> IsEntryPath(path) && '\\' !in path
  {
    hide IsEntryPath, EntryName;
    var named := Named(paths, unnamed);
    forall path | path in named
      ensures IsEntryPath(path) && '\\' !in path
    {
      var i :| 0 <= i < |named| && named[i] == path;
      EntryNameIsSafe(paths[i], unnamed);
    }
  }

  lemma FilesKeepOut(files: seq<string>, folders: seq<string>, unnamed: string)
    requires IsSegment(unnamed) && '\\' !in unnamed
    ensures forall path :: path in ApartOf(files, folders, unnamed).files ==> '\\' !in path
  {
    hide IsEntryPath, Named, Placed, EmptyFolders, Implied, FoldedOf;
    var named := Named(files, unnamed);
    var empty := EmptyFolders(folders, Implied(named), {});
    NamedAreSafe(files, unnamed);
    PlacedKeepsOut(named, Implied(named) + Implied(empty) + FoldedOf(empty));
  }

  lemma NamesAreReadable(files: seq<ZipFile>, folders: seq<ZipFolder>, unnamed: string)
    requires IsSegment(unnamed) && '\\' !in unnamed
    ensures var names := NamesOf(files, folders, unnamed);
            && (forall i :: 0 <= i < |names.folders| ==> IsEntryPath(names.folders[i]))
            && (forall i :: 0 <= i < |names.files| ==>
                  IsEntryPath(names.files[i]) && '\\' !in names.files[i])
  {
    hide IsEntryPath, ApartOf, FilePaths, FolderPaths, PairwiseApart, ApartFrom, SameFolders;
    var names := NamesOf(files, folders, unnamed);
    NamesAreApart(FilePaths(files), FolderPaths(folders), unnamed);
    FilesKeepOut(FilePaths(files), FolderPaths(folders), unnamed);
    EntryPathsOf(names.folders, names.files);
  }

  lemma EntryPathsOf(a: seq<string>, b: seq<string>)
    requires AllEntryPaths(a + b)
    ensures AllEntryPaths(a) && AllEntryPaths(b)
  {
    hide IsEntryPath;
    assert forall i :: 0 <= i < |a| ==> (a + b)[i] == a[i];
    assert forall i :: 0 <= i < |b| ==> (a + b)[|a| + i] == b[i];
  }
}
