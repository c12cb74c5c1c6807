/**
  A note that moves is in its notebook as the target spells it (`spellingsOn` in
  apps/web/src/store/connection.ts).
 */
module MoveSpellings {
  import opened Paths
  import opened Naming
  import opened Library
  import opened MoveNotes

  predicate IsNormal(path: string) {
    NormalizePath(path) == path
  }

  /** Every spelling known is a path as paths are stored. */
  ghost predicate NormalSpellings(spellings: Spellings) {
    forall folded :: folded in spellings ==> IsNormal(spellings[folded])
  }

  /** The parent of the path is the root, or is spelled exactly as the table spells it. */
  predicate InItsNotebook(spellings: Spellings, path: string) {
    var notebook := ParentPath(path);
    notebook == ROOT || (FoldPath(notebook) in spellings && spellings[FoldPath(notebook)] == notebook)
  }

  lemma SameNormal(a: string, b: string)
    requires IsNormal(a) && IsNormal(b) && PathSegments(a) == PathSegments(b)
    ensures a == b
  {
    SameSegments(a, b);
  }

  /** Of a normal folder, a name in it is in just that folder. */
  lemma ParentOfJoin(folder: string, name: string)
    requires IsNormal(folder) && IsSegment(name)
    ensures ParentPath(JoinPath(folder, name)) == folder
  {
    JoinPathSegments(folder, name);
    ParentSegments(JoinPath(folder, name));
    SameNormal(ParentPath(JoinPath(folder, name)), folder);
  }

  lemma {:induction false} RespellIsNormal(spellings: Spellings, path: string)
    requires NormalSpellings(spellings) && IsNormal(path)
    ensures NormalSpellings(Respell(spellings, path).spellings) && IsNormal(Respell(spellings, path).path)
    decreases |PathSegments(path)|, path != ROOT
  {
    hide FoldPath, JoinPath;
    ParentSegments(path);
    if path != ROOT && FoldPath(path) !in spellings {
      NormalIsRootOrNamed(path);
      RespellIsNormal(spellings, ParentPath(path));
      JoinPathSegments(Respell(spellings, ParentPath(path)).path, Basename(path));
    }
  }

  lemma NormalIsRootOrNamed(path: string)
    requires IsNormal(path) && path != ROOT
    ensures PathSegments(path) != []
  {
    SegmentsOfPath(path);
    NormalRoot();
    if PathSegments(path) == [] {
      SameNormal(path, ROOT);
    }
  }

  lemma NormalRoot()
    ensures IsNormal(ROOT) && PathSegments(ROOT) == []
  {
    SegmentsOfPath(ROOT);
  }

  /** The path wanted for a note: its notebook as the table then spells it. */
  lemma WantedIsInItsNotebook(spellings: Spellings, path: string)
    requires Faithful(spellings) && NormalSpellings(spellings) && PathSegments(path) != []
    ensures var wanted := NoteRespelled(spellings, path);
            && NormalSpellings(wanted.spellings)
            && PathSegments(wanted.path) != []
            && InItsNotebook(wanted.spellings, wanted.path)
  {
    hide FoldPath, JoinPath, Respell;
    ParentSegments(path);
    RespellIsFaithful(spellings, ParentPath(path));
    RespellIsNormal(spellings, ParentPath(path));
    var folder := Respell(spellings, ParentPath(path));
    JoinPathSegments(folder.path, Basename(path));
    ParentOfJoin(folder.path, Basename(path));
    if ParentPath(path) == ROOT {
      RespelledRoot(spellings);
    }
  }

  lemma RespelledRoot(spellings: Spellings)
    ensures Respell(spellings, ROOT).path == ROOT
  {}

  /** Another name is in the same notebook. */
  lemma RenamedIsInTheSameNotebook(wanted: string, name: string)
    requires IsSegment(name)
    ensures ParentPath(ReplaceBasename(wanted, name)) == ParentPath(wanted)
    ensures PathSegments(ReplaceBasename(wanted, name)) != []
  {
    ParentSegments(wanted);
    JoinPathSegments(ParentPath(wanted), name);
    ParentOfJoin(ParentPath(wanted), name);
  }

  lemma ConflictIsInTheSameNotebook(wanted: string, stamp: Stamp, taken: set<string>)
    ensures ParentPath(ConflictPath(wanted, stamp, taken)) == ParentPath(wanted)
    ensures PathSegments(ConflictPath(wanted, stamp, taken)) != []
  {
    hide ConflictName, StemOf, Basename, ParentPath;
    BasenameHasNoSeparator(wanted);
    ConflictNameIsFree(StemOf(Basename(wanted)), NOTE_EXTENSION, stamp, taken);
    RenamedIsInTheSameNotebook(wanted, ConflictFilename(Basename(wanted), stamp, taken));
  }

  lemma FreeIsInTheSameNotebook(wanted: string, taken: set<string>)
    requires PathSegments(wanted) != []
    ensures ParentPath(FreePath(wanted, taken)) == ParentPath(wanted)
    ensures PathSegments(FreePath(wanted, taken)) != []
  {
    hide UniqueFilename, NamesIn, FoldPath, ParentPath, ReplaceBasename;
    if Occupied(wanted, taken) {
      ParentSegments(wanted);
      var siblings := NamesIn(taken, ParentPath(wanted));
      UniqueFilenameIsFree(StemOf(Basename(wanted)), siblings);
      RenamedIsInTheSameNotebook(wanted, FreeName(Basename(wanted), siblings));
    }
  }

  lemma ChosenIsInTheSameNotebook(c: Moving, id: Id, wanted: string, taken: set<string>)
    requires id in c.notes && PathSegments(wanted) != []
    ensures ParentPath(ChosenPath(c, id, wanted, taken)) == ParentPath(wanted)
    ensures PathSegments(ChosenPath(c, id, wanted, taken)) != []
  {
    hide FoldPath, ConflictPath, FreePath, ParentPath, PathSegments;
    ConflictIsInTheSameNotebook(wanted, c.stamp, taken);
    FreeIsInTheSameNotebook(wanted, taken);
  }

  /** Every live note placed is in its notebook, as the table now spells it. */
  ghost predicate PlacedInNotebooks(c: Moving, g: Landed) {
    && Faithful(g.spellings) && NormalSpellings(g.spellings)
    && forall id :: id in g.placed && id in c.notes && g.placed[id] in g.notes ==>
         && PathSegments(g.notes[g.placed[id]].path) != []
         && (IsLive(c.notes[id]) ==> InItsNotebook(g.spellings, g.notes[g.placed[id]].path))
  }

  ghost predicate NamedNotes(notes: map<Id, Note>) {
    forall id :: id in notes ==> PathSegments(notes[id].path) != []
  }

  lemma PlaceNoteInNotebook(c: Moving, g: Landed, id: Id)
    requires id in c.notes && id in c.landing && PlacedInNotebooks(c, g)
    requires PathSegments(c.notes[id].path) != []
    requires Goes(c, id) ==> c.landing[id] !in g.notes
    requires forall i :: i in g.placed ==> g.placed[i] in g.notes
    ensures PlacedInNotebooks(c, PlaceNote(c, g, id))
  {
    hide FoldPath, ChosenPath, NoteRespelled, LivePaths, OwedAt, Goes, ParentPath;
    PlaceNoteCarries(c, g, id);
    if Goes(c, id) && IsLive(c.notes[id]) {
      var wanted := NoteRespelled(g.spellings, c.notes[id].path);
      WantedIsInItsNotebook(g.spellings, c.notes[id].path);
      var path := ChosenPath(c, id, wanted.path, LivePaths(g.notes));
      ChosenIsInTheSameNotebook(c, id, wanted.path, LivePaths(g.notes));
      RowCarries(c, id, path);
    } else if Goes(c, id) {
      RowCarries(c, id, c.notes[id].path);
    }
  }

  lemma PlacedAreRows(c: Moving, g: Landed, done: set<Id>)
    requires ValidMoving(c) && LandedSoFar(c, g, done)
    ensures forall i :: i in g.placed ==> g.placed[i] in g.notes
  {
    forall i | i in g.placed
      ensures g.placed[i] in g.notes
    {
      assert PlacedRight(c, g, i);
    }
  }

  /** Every live note of a move is in its notebook under the spelling everything else has of it. */
  lemma {:induction false} NotesAreSpelled(c: Moving, g: Landed, done: set<Id>, order: seq<Id>)
    requires ValidMoving(c) && LandedSoFar(c, g, done) && PlacedInNotebooks(c, g) && NamedNotes(c.notes)
    requires Enumerates(order, c.notes.Keys - done)
    ensures forall id :: id in order ==> id in c.notes && id in c.landing
    ensures PlacedInNotebooks(c, PlaceNotes(c, g, order))
    ensures SpellingsGrow(g.spellings, PlaceNotes(c, g, order).spellings)
    decreases |order|
  {
    hide PlaceNote, LandedSoFar, PlacedInNotebooks, Goes, CarriedAs;
    assert forall id :: id in order ==> id in c.notes.Keys - done;
    assert ValidMoving(c) ==> c.landing.Keys == c.notes.Keys;
    if order != [] {
      var id := order[0];
      EnumeratesRest(order, c.notes.Keys - done);
      if Goes(c, id) {
        LandsOnItsOwn(c, g, done, id);
      }
      PlacedAreRows(c, g, done);
      PlaceNoteInNotebook(c, g, id);
      PlaceNoteLands(c, g, done, id);
      LandedIsFaithful(c, g, done);
      PlaceNoteCarries(c, g, id);
      assert c.notes.Keys - done - {id} == c.notes.Keys - (done + {id});
      NotesAreSpelled(c, PlaceNote(c, g, id), done + {id}, order[1..]);
    }
  }

  lemma LandedIsFaithful(c: Moving, g: Landed, done: set<Id>)
    requires ValidMoving(c) && LandedSoFar(c, g, done)
    ensures Faithful(g.spellings)
  {}

  ghost predicate SpellingsGrow(before: Spellings, after: Spellings) {
    forall folded :: folded in before ==> folded in after && after[folded] == before[folded]
  }

  ghost predicate NormalFolders(folders: map<string, Folder>) {
    forall path :: path in folders ==> IsNormal(path) && path != ROOT
  }

  lemma {:induction false} PlacedFoldersAreNormal(mode: Mode, g: Shelves, rows: map<string, Folder>, order: seq<string>)
    requires forall path :: path in order ==> path in rows
    requires NormalSpellings(g.spellings) && NormalFolders(g.folders) && NormalFolders(rows) && Faithful(g.spellings)
    ensures NormalSpellings(PlaceFolders(mode, g, rows, order).spellings)
    ensures NormalFolders(PlaceFolders(mode, g, rows, order).folders)
    decreases |order|
  {
    hide FoldPath, Respell, IsNormal;
    if order != [] {
      assert order[0] in order;
      RespellIsNormal(g.spellings, order[0]);
      RespellIsFaithful(g.spellings, order[0]);
      FoldOfNamed(order[0], Respell(g.spellings, order[0]).path);
      PlacedFoldersAreNormal(mode, PlaceFolder(mode, g, order[0], rows[order[0]]), rows, order[1..]);
    }
  }

  lemma FoldOfNamed(a: string, b: string)
    requires FoldPath(a) == FoldPath(b) && IsNormal(a) && a != ROOT
    ensures b != ROOT
  {
    NormalIsRootOrNamed(a);
    NormalRoot();
    SameFold(a, b);
  }

  /** So a note in a notebook there is a row of is under the spelling of a row, and of that one where it is the only one. */
  lemma OneSpellingANotebook(folders: map<string, Folder>, spellings: Spellings, path: string, folder: string)
    requires SpelledByRows(folders, spellings) && InItsNotebook(spellings, path)
    requires Faithful(spellings)
    requires folder in folders && folder != ROOT && IsNormal(folder) && FoldPath(folder) == FoldPath(ParentPath(path))
    ensures ParentPath(path) in folders
    ensures DistinctFolders(folders) ==> ParentPath(path) == folder
  {
    hide FoldPath, ParentPath, IsNormal;
    FoldOfNamed(folder, ParentPath(path));
  }

  lemma OnePart(name: string)
    requires IsSegment(name)
    ensures IsNormal(name) && PathSegments(name) == [name] && FoldSegments(name) == [FoldName(name)]
  {
    assert Join([name]) == name;
    JoinIsNormal([name]);
  }

  lemma TwoParts(path: string, folder: string, name: string)
    requires path == folder + "/" + name && IsSegment(folder) && IsSegment(name)
    ensures PathSegments(path) == [folder, name] && ParentPath(path) == folder && Basename(path) == name
    ensures PathSegments(folder) == [folder] && IsNormal(path)
  {
    var parts := [folder, name];
    assert Join(parts[1..]) == name;
    assert Join(parts) == path;
    JoinIsNormal(parts);
    assert Init(parts) == [folder];
    assert Join([folder]) == folder;
    JoinIsNormal([folder]);
  }
}
