/**
  Exactly which files, notebooks and ops a source let go of keeps, and when it stays at all,
  said of the rows before and after (`keepOnly`, `detachConnection`, `releaseConnection` and
  `moveUnsyncedTo` in apps/web/src/store/connection.ts).
 */
module FilesKept {
  import opened Options
  import opened Paths
  import opened Naming
  import opened Library
  import opened MoveNotes
  import opened MoveRows
  import opened MoveKeeps
  import opened MoveQueue
  import opened Unsynced
  import opened Sources
  import opened SourceRuns
  import opened SourcesKept

  // ----- What is kept ------------------------------------------------------------------

  /** Never uploaded; or with bytes here, where nobody has looked for what the remote has. */
  predicate IsFileOwed(rows: Rows, unverified: bool, id: Id)
    requires id in rows.files
  {
    rows.files[id].remoteId.None? || (unverified && id in rows.bytes)
  }

  ghost predicate IsMoveQueued(ops: seq<Op>, source: Source, id: Id) {
    exists op :: op in ops && op.source == source && op.kind == MoveFile && op.fileId == Some(id)
  }

  /** A live note links a file of this name, as providers compare names. */
  ghost predicate IsLinkedByLive(notes: map<Id, Note>, links: Links, path: string) {
    exists id, link :: id in notes && IsLive(notes[id]) && link in links(notes[id].body, notes[id].path)
                       && FoldPath(link) == FoldPath(path)
  }

  /** Why a file stays: it is owed and was not shown, or is to be moved, or a note that stays links it. */
  ghost predicate IsFileKept(before: Rows, ops: seq<Op>, after: Rows, source: Source, links: Links, unverified: bool,
                             shown: set<Id>, id: Id)
    requires id in before.files
  {
    || (IsFileOwed(before, unverified, id) && id !in shown)
    || IsMoveQueued(ops, source, id)
    || IsLinkedByLive(after.notes, links, before.files[id].path)
  }

  /** The files that stay are those, as they were, and no bytes of another do. */
  ghost predicate KeepsFiles(before: Rows, ops: seq<Op>, after: Rows, source: Source, links: Links, unverified: bool,
                             shown: set<Id>) {
    && (forall id :: id in after.files ==> id in before.files)
    && (forall id :: id in before.files ==>
          && (id in after.files <==> IsFileKept(before, ops, after, source, links, unverified, shown, id))
          && (id in after.files ==> after.files[id] == before.files[id]))
    && (forall id :: id in after.bytes <==> id in before.bytes && (id in before.files ==> id in after.files))
    && (forall id :: id in after.bytes ==> after.bytes[id] == before.bytes[id])
  }

  /** Whether a folder is above a path, or is it, as providers compare. */
  ghost predicate IsAbove(folder: string, path: string) {
    exists each :: each in AncestorPaths(path) && FoldPath(each) == FoldPath(folder)
  }

  /** The notebooks that stay are those owed, and those above one owed, a live note that stays, or a file that does. */
  ghost predicate KeepsNotebooks(before: Rows, after: Rows, owed: set<string>) {
    && (forall path :: path in after.folders ==> path in before.folders && after.folders[path] == before.folders[path])
    && (forall path :: path in before.folders ==>
          (path in after.folders <==>
             || (exists each :: each in owed && (FoldPath(each) == FoldPath(path) || IsAbove(path, each)))
             || (exists id :: id in after.notes && IsLive(after.notes[id]) && IsAbove(path, after.notes[id].path))
             || (exists id :: id in after.files && IsAbove(path, after.files[id].path))))
  }

  /** Why an op of the source stays: it removes something, or what it is about stays. */
  ghost predicate IsOpKept(after: Rows, owed: set<string>, op: Op) {
    || op.kind == Rmdir || op.kind == DeleteFile
    || (if op.fileId.Some? then op.fileId.value in after.files
        else if op.kind == Mkdir then exists each :: each in owed && FoldPath(each) == FoldPath(op.path)
        else op.noteId.Some? && op.noteId.value in after.notes)
  }

  ghost predicate KeepsOps(before: seq<Op>, after: seq<Op>, rows: Rows, source: Source, owed: set<string>) {
    forall op :: op in after <==> op in before && (op.source == source ==> IsOpKept(rows, owed, op))
  }

  // ----- Of what is kept only ----------------------------------------------------------

  lemma LinkedIsLinked(notes: map<Id, Note>, staying: set<Id>, links: Links, after: map<Id, Note>, path: string)
    requires after.Keys == notes.Keys * staying && forall id :: id in after ==> after[id] == notes[id]
    ensures var live := set id | id in staying && id in notes && IsLive(notes[id]);
            FoldPath(path) in LinkedPaths(notes, live, links) <==> IsLinkedByLive(after, links, path)
  {
    hide FoldPath;
    var live := set id | id in staying && id in notes && IsLive(notes[id]);
    if FoldPath(path) in LinkedPaths(notes, live, links) {
      var id, link :| id in live && id in notes && link in links(notes[id].body, notes[id].path) && FoldPath(link) == FoldPath(path);
      assert id in after && link in links(after[id].body, after[id].path);
    }
    if IsLinkedByLive(after, links, path) {
      var id, link :| id in after && IsLive(after[id]) && link in links(after[id].body, after[id].path) && FoldPath(link) == FoldPath(path);
      assert id in live && link in links(notes[id].body, notes[id].path);
    }
  }

  lemma MoveIsQueued(ops: seq<Op>, source: Source, id: Id)
    ensures id in FilesWith(ops, source, MoveFile) <==> IsMoveQueued(ops, source, id)
  {
    if IsMoveQueued(ops, source, id) {
      var op :| op in ops && op.source == source && op.kind == MoveFile && op.fileId == Some(id);
      var i :| 0 <= i < |ops| && ops[i] == op;
    }
  }

  lemma KeptRows(t: Tables, source: Source, k: Keeping)
    ensures var before, after := RowsOf(t, source), RowsOf(KeepOnly(t, source, k), source);
            && after.notes.Keys == before.notes.Keys * k.staying
            && (forall id :: id in after.notes ==> after.notes[id] == before.notes[id])
            && after.files.Keys == KeptFiles(t, source, k) && after.files.Keys <= before.files.Keys
            && (forall id :: id in after.files ==> after.files[id] == before.files[id])
            && (forall path :: path in after.folders <==>
                  path in before.folders && FoldPath(path) in NeededFolders(t, source, k))
            && (forall path :: path in after.folders ==> after.folders[path] == before.folders[path])
            && after.bytes == before.bytes - (before.files.Keys - KeptFiles(t, source, k))
  {
    hide NeededFolders, OpsStaying, FoldPath;
    KeptAreFiles(t, source, k);
    hide KeptFiles;
  }

  lemma KeptAreFiles(t: Tables, source: Source, k: Keeping)
    ensures KeptFiles(t, source, k) <= RowsOf(t, source).files.Keys
  {
    hide LinkedPaths, FilesWith, FoldPath;
  }

  lemma KeptFilesAre(t: Tables, source: Source, k: Keeping, id: Id)
    requires id in RowsOf(t, source).files
    ensures id in KeptFiles(t, source, k) <==>
              || id in k.listed || IsMoveQueued(t.ops, source, id)
              || IsLinkedByLive(RowsOf(KeepOnly(t, source, k), source).notes, k.links, RowsOf(t, source).files[id].path)
  {
    hide FoldPath, LinkedPaths, FilesWith, IsMoveQueued, IsLinkedByLive, KeepOnly;
    KeptRows(t, source, k);
    var rows := RowsOf(t, source);
    LinkedIsLinked(rows.notes, k.staying, k.links, RowsOf(KeepOnly(t, source, k), source).notes, rows.files[id].path);
    MoveIsQueued(t.ops, source, id);
  }

  lemma KeepOnlyKeepsFiles(t: Tables, source: Source, k: Keeping, unverified: bool, shown: set<Id>)
    requires forall id :: id in RowsOf(t, source).files ==>
               (id in k.listed <==> IsFileOwed(RowsOf(t, source), unverified, id) && id !in shown)
    ensures KeepsFiles(RowsOf(t, source), t.ops, RowsOf(KeepOnly(t, source, k), source), source, k.links, unverified, shown)
  {
    KeptRows(t, source, k);
    hide KeptFiles, KeepOnly, IsFileOwed, IsMoveQueued, IsLinkedByLive, RowsOf;
    forall id | id in RowsOf(t, source).files
      ensures id in KeptFiles(t, source, k) <==>
                IsFileKept(RowsOf(t, source), t.ops, RowsOf(KeepOnly(t, source, k), source), source, k.links, unverified, shown, id)
    {
      KeptFilesAre(t, source, k, id);
    }
  }

  lemma AboveIsIn(folder: string, path: string)
    ensures (exists each :: each in AncestorPaths(path) + [path] && FoldPath(each) == FoldPath(folder))
            <==> FoldPath(path) == FoldPath(folder) || IsAbove(folder, path)
  {
    hide FoldPath, AncestorPaths;
    assert forall each :: each in AncestorPaths(path) + [path] <==> each in AncestorPaths(path) || each == path;
  }

  lemma NeededAre(t: Tables, source: Source, k: Keeping, folder: string)
    ensures FoldPath(folder) in NeededFolders(t, source, k) <==>
              || (exists each :: each in k.unsent.folders && (FoldPath(each) == FoldPath(folder) || IsAbove(folder, each)))
              || (exists id :: id in k.staying && id in RowsOf(t, source).notes && IsLive(RowsOf(t, source).notes[id])
                               && IsAbove(folder, RowsOf(t, source).notes[id].path))
              || (exists id :: id in KeptFiles(t, source, k) && id in RowsOf(t, source).files
                               && IsAbove(folder, RowsOf(t, source).files[id].path))
  {
    hide FoldPath, AncestorPaths, KeptFiles, RowsOf;
    var rows, folded := RowsOf(t, source), FoldPath(folder);
    forall path | path in k.unsent.folders
      ensures (exists each :: each in AncestorPaths(path) + [path] && FoldPath(each) == folded)
              <==> FoldPath(path) == folded || IsAbove(folder, path)
    {
      AboveIsIn(folder, path);
    }
  }

  lemma KeepOnlyKeepsNotebooks(t: Tables, source: Source, k: Keeping)
    ensures KeepsNotebooks(RowsOf(t, source), RowsOf(KeepOnly(t, source, k), source), k.unsent.folders)
  {
    KeptRows(t, source, k);
    hide KeptFiles, KeepOnly, NeededFolders, IsAbove, FoldPath, RowsOf;
    forall path | path in RowsOf(t, source).folders
      ensures FoldPath(path) in NeededFolders(t, source, k) <==>
                var after := RowsOf(KeepOnly(t, source, k), source);
                || (exists each :: each in k.unsent.folders && (FoldPath(each) == FoldPath(path) || IsAbove(path, each)))
                || (exists id :: id in after.notes && IsLive(after.notes[id]) && IsAbove(path, after.notes[id].path))
                || (exists id :: id in after.files && IsAbove(path, after.files[id].path))
    {
      NeededAre(t, source, k, path);
      SameAbove(RowsOf(t, source), RowsOf(KeepOnly(t, source, k), source), k.staying, KeptFiles(t, source, k), path);
    }
  }

  lemma SameAbove(before: Rows, after: Rows, staying: set<Id>, kept: set<Id>, path: string)
    requires after.notes.Keys == before.notes.Keys * staying && forall id :: id in after.notes ==> after.notes[id] == before.notes[id]
    requires after.files.Keys == kept && kept <= before.files.Keys
    requires forall id :: id in after.files ==> after.files[id] == before.files[id]
    ensures (exists id :: id in staying && id in before.notes && IsLive(before.notes[id]) && IsAbove(path, before.notes[id].path))
            <==> exists id :: id in after.notes && IsLive(after.notes[id]) && IsAbove(path, after.notes[id].path)
    ensures (exists id :: id in kept && id in before.files && IsAbove(path, before.files[id].path))
            <==> exists id :: id in after.files && IsAbove(path, after.files[id].path)
  {
    hide IsAbove;
    if id :| id in staying && id in before.notes && IsLive(before.notes[id]) && IsAbove(path, before.notes[id].path) {
      assert id in after.notes;
    }
    if id :| id in after.notes && IsLive(after.notes[id]) && IsAbove(path, after.notes[id].path) {
      assert id in staying && id in before.notes;
    }
    if id :| id in kept && id in before.files && IsAbove(path, before.files[id].path) {
      assert id in after.files;
    }
    if id :| id in after.files && IsAbove(path, after.files[id].path) {
      assert id in kept && id in before.files;
    }
  }

  lemma KeepOnlyKeepsOps(t: Tables, source: Source, k: Keeping)
    requires k.staying <= RowsOf(t, source).notes.Keys
    ensures var u := KeepOnly(t, source, k); KeepsOps(t.ops, u.ops, RowsOf(u, source), source, k.unsent.folders)
  {
    KeptRows(t, source, k);
    var u := KeepOnly(t, source, k);
    assert u.ops == OpsStaying(t, source, k, t.ops);
    assert RowsOf(u, source).notes.Keys == k.staying;
    hide KeptFiles, KeepOnly, NeededFolders, FoldPath, RowsOf, OpsStaying;
    forall op: Op | op.source == source
      ensures OpStays(t, source, k, op) <==> IsOpKept(RowsOf(u, source), k.unsent.folders, op)
    {}
  }

  /**
    A notebook is owed where its directory is queued to be made, or it names none and holds
    no live note the remote has in full where it is; all of them, where nobody has looked.
   */
  ghost predicate IsNotebookOwed(t: Tables, source: Source, unverified: bool, path: string)
    requires path in RowsOf(t, source).folders
  {
    var rows := RowsOf(t, source);
    || unverified
    || (exists op :: op in t.ops && op.source == source && op.kind == Mkdir && op.path == path)
    || (rows.folders[path].remoteId.None?
        && forall id :: id in rows.notes && IsLive(rows.notes[id]) && IsWithin(FoldPath(rows.notes[id].path), FoldPath(path)) ==>
             IsOwedAnything(t, source, unverified, id))
  }

  ghost function NotebooksOwed(t: Tables, source: Source, unverified: bool): set<string> {
    set path | path in RowsOf(t, source).folders && IsNotebookOwed(t, source, unverified, path)
  }

  lemma MkdirsAre(ops: seq<Op>, source: Source, path: string)
    ensures path in PathsWith(ops, source, Mkdir) <==>
              exists op :: op in ops && op.source == source && op.kind == Mkdir && op.path == path
  {
    if op :| op in ops && op.source == source && op.kind == Mkdir && op.path == path {
      var i :| 0 <= i < |ops| && ops[i] == op;
    }
  }

  lemma NotebookIsOwed(t: Tables, source: Source, unverified: bool, path: string)
    requires path in RowsOf(t, source).folders
    ensures IsUnsentFolder(t, source, unverified, path) <==> IsNotebookOwed(t, source, unverified, path)
  {
    MkdirsAre(t.ops, source, path);
    hide IsWithin, FoldPath, PathsWith, NotesWith;
    if id :| id in LiveIn(t, source) && IsSettled(t, source, unverified, id)
             && IsWithin(FoldPath(RowsOf(t, source).notes[id].path), FoldPath(path)) {
      assert !IsOwedAnything(t, source, unverified, id);
    }
  }

  lemma NotebooksAreOwed(t: Tables, source: Source, unverified: bool)
    ensures UnsyncedIn(t, source, unverified).folders == NotebooksOwed(t, source, unverified)
  {
    hide IsUnsentFolder, IsNotebookOwed, NotesWith, FilesWith, PathsWith, IsOwedText;
    forall path | path in RowsOf(t, source).folders
      ensures IsUnsentFolder(t, source, unverified, path) <==> IsNotebookOwed(t, source, unverified, path)
    {
      NotebookIsOwed(t, source, unverified, path);
    }
  }

  // ----- Detached ----------------------------------------------------------------------

  /** Something of the source the remote was never sent, or that an editor holds. */
  ghost predicate HasSomething(t: Tables, source: Source, unverified: bool, holding: set<Id>) {
    var rows := RowsOf(t, source);
    || (exists id :: id in rows.notes && (IsOwedAnything(t, source, unverified, id) || id in holding))
    || (exists path :: path in rows.folders && IsNotebookOwed(t, source, unverified, path))
    || (exists id :: id in rows.files && IsFileOwed(rows, unverified, id))
    || (exists op :: op in t.ops && op.source == source && op.kind == Rmdir)
  }

  lemma UnsentIsSomething(t: Tables, source: Source, unverified: bool, holding: set<Id>)
    ensures var unsent := UnsyncedIn(t, source, unverified);
            HasSomething(t, source, unverified, holding)
            <==> !(IsEmpty(unsent) && HeldIn(t, source, holding) - Listed(unsent) == {})
  {
    hide IsUnsentFolder, IsNotebookOwed, IsOwedAnything;
    var rows, unsent := RowsOf(t, source), UnsyncedIn(t, source, unverified);
    ListedIsOwed(t, source, unverified);
    NotebooksAreOwed(t, source, unverified);
    hide NotesWith, FilesWith;
    RmdirsAre(t.ops, source);
    assert forall id :: id in unsent.files <==> id in rows.files && IsFileOwed(rows, unverified, id);
    assert forall path :: path in unsent.folders <==> path in rows.folders && IsNotebookOwed(t, source, unverified, path);
    assert IsEmpty(unsent) <==> Listed(unsent) == {} && unsent.folders == {} && unsent.rmdirs == {} && unsent.files == {};
    if id :| id in rows.notes && id in holding {
      assert id in HeldIn(t, source, holding);
    }
  }

  lemma RmdirsAre(ops: seq<Op>, source: Source)
    ensures PathsWith(ops, source, Rmdir) != {} <==> exists op :: op in ops && op.source == source && op.kind == Rmdir
  {
    if op :| op in ops && op.source == source && op.kind == Rmdir {
      var i :| 0 <= i < |ops| && ops[i] == op;
      assert op.path in PathsWith(ops, source, Rmdir);
    }
    if path :| path in PathsWith(ops, source, Rmdir) {
      var i :| 0 <= i < |ops| && ops[i].source == source && ops[i].kind == Rmdir && ops[i].path == path;
      assert ops[i] in ops;
    }
  }

  /** The source's state once it is detached: whose it was, and when and why it first was. */
  predicate IsMarked(before: State, after: State, reason: Reason, now: int) {
    && after.provider == before.provider && after.accountId == before.accountId
    && after.resumeUnverified == before.resumeUnverified
    && after.detached == (if before.detached.Some? then before.detached else Some(Detached(now, reason)))
    && after.boundAt == None && after.importing == None
  }

  /** Forgotten: its state, its rows, its queue, and its being the one in front. */
  ghost predicate IsForgotten(d: Device, after: Device, c: nat) {
    && c !in after.states && RowsOf(after.tables, Connection(c)) == NO_ROWS
    && (forall op :: op in after.tables.ops ==> op.source != Connection(c))
    && after.active == (if d.active == Some(Connection(c)) then None else d.active)
  }

  /**
    A detach keeps the source, marked, exactly where it has something the remote was not
    sent or an editor holds. Of its files it then keeps those never uploaded, those to be
    moved and those a live note that stays links, with their bytes and every op about them;
    and the notebooks those and the notes are in. Otherwise it forgets the source.
   */
  lemma DetachKeepsFiles(d: Device, c: nat, reason: Reason, holding: set<Id>, since: Option<nat>, links: Links, now: int)
    requires UnchangedSince(d, since) && c in d.states
    ensures var source, after := Connection(c), Detach(d, c, reason, holding, since, links, now);
            var t, before, rows := d.tables, RowsOf(d.tables, source), RowsOf(after.tables, source);
            if HasSomething(t, source, Unverified(d, c), holding) then
              && c in after.states && IsMarked(d.states[c], after.states[c], reason, now) && after.active == d.active
              && KeepsFiles(before, t.ops, rows, source, links, Unverified(d, c), {})
              && KeepsNotebooks(before, rows, NotebooksOwed(t, source, Unverified(d, c)))
              && KeepsOps(t.ops, after.tables.ops, rows, source, NotebooksOwed(t, source, Unverified(d, c)))
            else IsForgotten(d, after, c)
  {
    hide KeepOnly, KeepsFiles, KeepsNotebooks, KeepsOps, HasSomething, IsUnsentFolder, IsOwedAnything, NotebooksOwed;
    var source, t, unverified := Connection(c), d.tables, Unverified(d, c);
    var unsent := UnsyncedIn(t, source, unverified);
    var heldOnly := HeldIn(t, source, holding) - Listed(unsent);
    var k := Keeping(unsent, Listed(unsent) + heldOnly, unsent.files, links);
    UnsentIsSomething(t, source, unverified, holding);
    ListedIsOwed(t, source, unverified);
    UnsentFilesAre(t, source, unverified);
    NotebooksAreOwed(t, source, unverified);
    KeepOnlyKeepsFiles(t, source, k, unverified, {});
    KeepOnlyKeepsNotebooks(t, source, k);
    KeepOnlyKeepsOps(t, source, k);
    hide UnsyncedIn, IsFileOwed;
  }

  lemma UnsentFilesAre(t: Tables, source: Source, unverified: bool)
    ensures forall id :: id in UnsyncedIn(t, source, unverified).files <==>
              id in RowsOf(t, source).files && IsFileOwed(RowsOf(t, source), unverified, id)
  {
    hide IsUnsentFolder, IsOwedText, NotesWith;
  }

  // ----- Released ----------------------------------------------------------------------

  /** Something of the source that was not shown as it stands, or that an editor holds. */
  ghost predicate HasUnseen(t: Tables, source: Source, unverified: bool, seen: Seen, holding: set<Id>) {
    var rows := RowsOf(t, source);
    || (exists id :: id in rows.notes && ((IsOwedAnything(t, source, unverified, id) && !WasSeen(seen, id, rows.notes[id])) || id in holding))
    || (exists path :: path in rows.folders && IsNotebookOwed(t, source, unverified, path) && path !in seen.folders)
    || (exists id :: id in rows.files && IsFileOwed(rows, unverified, id) && id !in seen.files)
    || (exists op :: op in t.ops && op.source == source && op.kind == Rmdir && op.path !in seen.rmdirs)
  }

  lemma UnseenIsThere(t: Tables, source: Source, unverified: bool, seen: Seen, holding: set<Id>)
    ensures HasUnseen(t, source, unverified, seen, holding)
            <==> UnseenIn(t, source, UnsyncedIn(t, source, unverified), seen) || HeldIn(t, source, holding) != {}
  {
    hide IsUnsentFolder, IsNotebookOwed, IsOwedAnything;
    var rows, unsent := RowsOf(t, source), UnsyncedIn(t, source, unverified);
    ListedIsOwed(t, source, unverified);
    NotebooksAreOwed(t, source, unverified);
    hide NotesWith, FilesWith, Listed, PathsWith;
    RmdirsUnseen(t.ops, source, seen.rmdirs);
    assert forall id :: id in unsent.files <==> id in rows.files && IsFileOwed(rows, unverified, id);
    assert forall path :: path in unsent.folders <==> path in rows.folders && IsNotebookOwed(t, source, unverified, path);
    if id :| id in rows.notes && id in holding {
      assert id in HeldIn(t, source, holding);
    }
    if id :| id in rows.notes && IsOwedAnything(t, source, unverified, id) && !WasSeen(seen, id, rows.notes[id]) {
      assert id in UnseenNotes(t, source, unsent, seen);
    }
  }

  lemma RmdirsUnseen(ops: seq<Op>, source: Source, seen: set<string>)
    ensures !(PathsWith(ops, source, Rmdir) <= seen)
            <==> exists op :: op in ops && op.source == source && op.kind == Rmdir && op.path !in seen
  {
    if op :| op in ops && op.source == source && op.kind == Rmdir && op.path !in seen {
      var i :| 0 <= i < |ops| && ops[i] == op;
      assert op.path in PathsWith(ops, source, Rmdir);
    }
    if path :| path in PathsWith(ops, source, Rmdir) && path !in seen {
      var i :| 0 <= i < |ops| && ops[i].source == source && ops[i].kind == Rmdir && ops[i].path == path;
      assert ops[i] in ops;
    }
  }

  lemma KeepUnseenKeepsFiles(d: Device, c: nat, seen: Seen, holding: set<Id>, links: Links, now: int)
    requires c in d.states
    ensures var source, after := Connection(c), KeepUnseen(d, c, seen, holding, links, now).device;
            var t, before, rows := d.tables, RowsOf(d.tables, source), RowsOf(after.tables, source);
            && c in after.states && IsMarked(d.states[c], after.states[c], Disconnected, now) && after.active == d.active
            && KeepsFiles(before, t.ops, rows, source, links, Unverified(d, c), seen.files)
            && KeepsNotebooks(before, rows, NotebooksOwed(t, source, Unverified(d, c)))
            && KeepsOps(t.ops, after.tables.ops, rows, source, NotebooksOwed(t, source, Unverified(d, c)))
    ensures KeepUnseen(d, c, seen, holding, links, now).outcome
            == if exists id :: id in RowsOf(d.tables, Connection(c)).notes && id in holding then Holding else StaysDetached
  {
    hide KeepOnly, KeepsFiles, KeepsNotebooks, KeepsOps, IsUnsentFolder, IsOwedAnything, NotebooksOwed;
    var source, t, unverified := Connection(c), d.tables, Unverified(d, c);
    var unsent := UnsyncedIn(t, source, unverified);
    var staying := UnseenNotes(t, source, unsent, seen) + HeldIn(t, source, holding);
    var k := Keeping(unsent, staying, unsent.files - seen.files, links);
    UnsentFilesAre(t, source, unverified);
    NotebooksAreOwed(t, source, unverified);
    KeepOnlyKeepsFiles(t, source, k, unverified, seen.files);
    KeepOnlyKeepsNotebooks(t, source, k);
    KeepOnlyKeepsOps(t, source, k);
    HeldAre(t, source, holding);
    hide UnsyncedIn, IsFileOwed, UnseenNotes, HeldIn;
  }

  lemma HeldAre(t: Tables, source: Source, holding: set<Id>)
    ensures HeldIn(t, source, holding) != {} <==> exists id :: id in RowsOf(t, source).notes && id in holding
  {
    if id :| id in RowsOf(t, source).notes && id in holding {
      assert id in HeldIn(t, source, holding);
    }
  }

  /**
    A release of a detached source keeps it, marked, exactly where something of it was not
    shown as it stands or an editor holds it, and says which. Of its files it then keeps
    those never uploaded that were not shown, those to be moved and those a live note that
    stays links. Otherwise it forgets the source.
   */
  lemma ReleaseKeepsFiles(d: Device, c: nat, seen: Seen, holding: set<Id>, links: Links, now: int)
    requires c in d.states && d.states[c].detached.Some?
    ensures var source, answer := Connection(c), Release(d, c, seen, holding, links, now);
            var t, before, rows := d.tables, RowsOf(d.tables, source), RowsOf(answer.device.tables, source);
            if HasUnseen(t, source, Unverified(d, c), seen, holding) then
              && answer.outcome == (if exists id :: id in before.notes && id in holding then Holding else StaysDetached)
              && c in answer.device.states && IsMarked(d.states[c], answer.device.states[c], Disconnected, now)
              && KeepsFiles(before, t.ops, rows, source, links, Unverified(d, c), seen.files)
              && KeepsNotebooks(before, rows, NotebooksOwed(t, source, Unverified(d, c)))
              && KeepsOps(t.ops, answer.device.tables.ops, rows, source, NotebooksOwed(t, source, Unverified(d, c)))
            else answer.outcome == Released && IsForgotten(d, answer.device, c)
  {
    hide KeepUnseen, KeepsFiles, KeepsNotebooks, KeepsOps, UnsyncedIn, HasUnseen, UnseenIn, HeldIn, NotebooksOwed;
    UnseenIsThere(d.tables, Connection(c), Unverified(d, c), seen, holding);
    KeepUnseenKeepsFiles(d.(bindings := d.bindings + 1), c, seen, holding, links, now);
  }

  /**
    A detach that something was bound or moved before, or of a source that is gone, does
    nothing. Neither does a release of one that is gone or live, which answers which it is.
   */
  lemma OthersAreLeft(d: Device, c: nat, seen: Seen, reason: Reason, holding: set<Id>, since: Option<nat>, links: Links, now: int)
    ensures (since.Some? && since.value != d.bindings) || c !in d.states ==> Detach(d, c, reason, holding, since, links, now) == d
    ensures var answer := Release(d, c, seen, holding, links, now);
            && (c !in d.states ==> answer == Answer(d, Released))
            && (c in d.states && d.states[c].detached.None? ==> answer == Answer(d, Reconnected))
  {}

  // ----- Its unsent work moved ---------------------------------------------------------

  /** A copy of notes, notebooks and files named takes no file of its source, no byte, and no op about a file. */
  lemma CopyLeavesFiles(t: Tables, m: Move, p: Plan)
    requires CanMove(t, m, p) && m.mode == Copy && m.only.Named?
    ensures var u := MoveRowsTo(t, m, p).tables;
            && RowsOf(u, m.from).files == RowsOf(t, m.from).files && RowsOf(u, m.from).bytes == RowsOf(t, m.from).bytes
            && forall op: Op :: op.source == m.from && op.fileId.Some? ==> (op in u.ops <==> op in t.ops)
  {
    MoveUnfolds(t, m, p);
    var w := WhereOf(t, m, p);
    assert w.m == m;
    hide ValidPlan, WellFormed, Place, Shelve, Carry, CarryOps, WhereOf, MoveRowsTo, Arrived;
    forall op: Op | op.source == m.from && op.fileId.Some?
      ensures op in CarryOps(w, t.ops) <==> op in t.ops
    {
      if op in t.ops {
        CarriedInto(w, t.ops, op, op);
      }
      if op in CarryOps(w, t.ops) {
        CarriedFrom(w, t.ops, op);
      }
    }
  }

  lemma FileMovesStay(before: seq<Op>, after: seq<Op>, source: Source, id: Id)
    requires forall op: Op :: op.source == source && op.fileId.Some? ==> (op in after <==> op in before)
    ensures IsMoveQueued(after, source, id) <==> IsMoveQueued(before, source, id)
  {
    if op :| op in before && op.source == source && op.kind == MoveFile && op.fileId == Some(id) {
      assert op in after;
    }
    if op :| op in after && op.source == source && op.kind == MoveFile && op.fileId == Some(id) {
      assert op in before;
    }
  }

  lemma QueueingLeaves(ops: seq<Op>, source: Source, owes: seq<Owe>, op: Op)
    requires op.source != source
    ensures op in QueueAll(ops, source, owes) <==> op in ops
  {
    hide QueueAll;
    QueueAllKeeps(ops, source, owes);
    assert forall owe :: IsOwedBy(op, source, owe) ==> op.source == source;
  }

  /** The source's rows and ops once what was shown has been copied, before it is kept or forgotten. */
  lemma AfterMoveIs(d: Device, e: Event)
    requires e.Moving? && IsEnabled(d, e) && Refusal(d, e.move).None?
    ensures CanMove(d.tables, UnsentMove(d, e.move), e.landing)
    ensures var source, t, u := Connection(e.move.from), d.tables, AfterMove(d, e.move, e.landing, e.owes).tables;
            && RowsOf(u, source).files == RowsOf(t, source).files && RowsOf(u, source).bytes == RowsOf(t, source).bytes
            && forall op: Op :: op.source == source && op.fileId.Some? ==> (op in u.ops <==> op in t.ops)
  {
    MovingUnfolds(d, e);
    UnsentMoveGoes(d, e.move);
    MoveIsNamed(d, e.move);
    hide UnsyncedIn, QueueAll, MoveRowsTo, ValidPlan, WellFormed, MovingFolders, MovingFiles, UnseenIn, MovingNotes,
      HeldIn, Refusal, UnsentMove, ValidMove;
    var m, u := UnsentMove(d, e.move), AfterMove(d, e.move, e.landing, e.owes).tables;
    CopyLeavesFiles(d.tables, m, e.landing);
    forall op: Op | op.source == Connection(e.move.from) && op.fileId.Some?
      ensures op in u.ops <==> op in d.tables.ops
    {
      QueueingLeaves(MoveRowsTo(d.tables, m, e.landing).tables.ops, Connection(e.move.target), e.owes, op);
    }
  }

  lemma MoveIsNamed(d: Device, move: MoveInput)
    ensures UnsentMove(d, move).only.Named?
  {
    hide UnsyncedIn, MovingFolders, MovingFiles, MovingNotes;
  }

  /**
    A move of unsent work that is not refused keeps the source exactly where something of it
    was not shown as it stands or an editor holds it; of its files it then keeps those never
    uploaded that were not shown, those to be moved and those a live note that stays links,
    with every op about them. Otherwise it forgets the source.
   */
  lemma MovingKeepsFiles(d: Device, e: Event)
    requires e.Moving? && IsEnabled(d, e) && Refusal(d, e.move).None?
    ensures var c, source, after := e.move.from, Connection(e.move.from), Step(d, e);
            var t, before, rows := d.tables, RowsOf(d.tables, source), RowsOf(after.tables, source);
            if HasUnseen(t, source, Unverified(d, c), e.move.seen, e.move.holding) then
              && c in d.states && c in after.states && IsMarked(d.states[c], after.states[c], Disconnected, e.move.now)
              && KeepsFiles(before, t.ops, rows, source, e.move.links, Unverified(d, c), e.move.seen.files)
              && (forall op :: op in t.ops && op.source == source && op.fileId.Some? && op.fileId.value in rows.files ==>
                    op in after.tables.ops)
            else IsForgotten(d, after, c)
  {
    var c, source := e.move.from, Connection(e.move.from);
    MovingIs(d, e);
    AfterMoveIs(d, e);
    hide UnsyncedIn, QueueAll, MoveRowsTo, ValidPlan, WellFormed, UnseenIn, HeldIn, Refusal, UnsentMove, ValidMove, KeepUnseen,
      HasUnseen, KeepsNotebooks, Step, IsEnabled, AfterMove, CanMove, KeepsFiles, KeepsOps, IsMarked, RowsOf, NotebooksOwed;
    var after := AfterMove(d, e.move, e.landing, e.owes);
    if HasUnseen(d.tables, source, Unverified(d, c), e.move.seen, e.move.holding) {
      KeepUnseenKeepsFiles(after, c, e.move.seen, e.move.holding, e.move.links, e.move.now);
      SameFilesKept(RowsOf(d.tables, source), d.tables.ops, RowsOf(after.tables, source), after.tables.ops,
                    RowsOf(Step(d, e).tables, source), source, e.move.links, Unverified(d, c), e.move.seen.files);
      FileOpsStay(d.tables.ops, after.tables.ops, Step(d, e).tables.ops, RowsOf(Step(d, e).tables, source), source,
                  NotebooksOwed(after.tables, source, Unverified(after, c)));
    } else {
      ForgottenIs(after, c, d.active);
    }
  }

  lemma ForgottenIs(after: Device, c: nat, active: Option<Source>)
    requires after.active == active
    ensures IsForgotten(after, ForgetSource(after.(tables := ForgetRows(after.tables, Connection(c))), c), c)
  {
    hide OpsNotOf;
  }

  lemma FileOpsStay(ops: seq<Op>, later: seq<Op>, kept: seq<Op>, rows: Rows, source: Source, owed: set<string>)
    requires forall op: Op :: op.source == source && op.fileId.Some? ==> (op in later <==> op in ops)
    requires KeepsOps(later, kept, rows, source, owed)
    ensures forall op: Op :: op in ops && op.source == source && op.fileId.Some? && op.fileId.value in rows.files ==> op in kept
  {}

  lemma MovingIs(d: Device, e: Event)
    requires e.Moving? && IsEnabled(d, e) && Refusal(d, e.move).None?
    ensures CanMove(d.tables, UnsentMove(d, e.move), e.landing)
    ensures var c, source, after := e.move.from, Connection(e.move.from), AfterMove(d, e.move, e.landing, e.owes);
            && c in d.states && after.states == d.states && after.active == d.active && Unverified(after, c) == Unverified(d, c)
            && Step(d, e) ==
                 if HasUnseen(d.tables, source, Unverified(d, c), e.move.seen, e.move.holding)
                 then KeepUnseen(after, c, e.move.seen, e.move.holding, e.move.links, e.move.now).device
                 else ForgetSource(after.(tables := ForgetRows(after.tables, source)), c)
  {
    MovingUnfolds(d, e);
    UnseenIsThere(d.tables, Connection(e.move.from), Unverified(d, e.move.from), e.move.seen, e.move.holding);
    hide UnsyncedIn, QueueAll, MoveRowsTo, CanMove, UnseenIn, HeldIn, Refusal, UnsentMove, ValidMove, KeepUnseen, HasUnseen,
      Step, IsEnabled, ForgetRows;
  }

  lemma SameFilesKept(before: Rows, ops: seq<Op>, between: Rows, later: seq<Op>, after: Rows, source: Source, links: Links,
                      unverified: bool, shown: set<Id>)
    requires between.files == before.files && between.bytes == before.bytes
    requires forall op: Op :: op.source == source && op.fileId.Some? ==> (op in later <==> op in ops)
    requires KeepsFiles(between, later, after, source, links, unverified, shown)
    ensures KeepsFiles(before, ops, after, source, links, unverified, shown)
  {
    hide IsLinkedByLive, IsMoveQueued;
    forall id | id in before.files
      ensures IsFileKept(before, ops, after, source, links, unverified, shown, id)
              <==> IsFileKept(between, later, after, source, links, unverified, shown, id)
    {
      FileMovesStay(ops, later, source, id);
    }
  }
}
