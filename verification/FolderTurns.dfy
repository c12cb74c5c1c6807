/**
  What a notebook's move queues, told from the rows before and after it alone, and in which
  order (`moveFolder` in apps/web/src/store/folders.ts).
 */
module FolderTurns {
  import opened Options
  import opened Paths
  import opened Library
  import opened Unsynced
  import opened FolderMoves
  import opened FolderQueue
  import opened FolderOutcomes
  import opened FolderStore

  // ----- What is queued ----------------------------------------------------------------

  /** At most one rename is queued, to where the row is, from where the remote has its file. */
  ghost predicate IsRenamed(ops: seq<Op>, queued: seq<Op>, source: Source, subject: Subject, from: string, path: string) {
    MovesEndAt(queued, source, subject, path) && RemotePath(queued, source, subject, path) == RemotePath(ops, source, subject, from)
  }

  /**
    Every note inside the notebook is renamed on the remote to where it landed, if it has a
    file there, and to nowhere else in any case. The renames queued for any other note stand.
   */
  lemma NotesGoOut(rows: Rows, r: Rebase, p: FolderPlan, turn: Turn, ops: seq<Op>, source: Source, id: Id)
    requires ValidFolderPlan(rows, r, p) && IsTurn(rows, r, p, turn) && id in rows.notes
    ensures IsTurnOf(rows, RowsAfter(rows, r, p), turn) && id in RowsAfter(rows, r, p).notes
    ensures var after, note := RowsAfter(rows, r, p), rows.notes[id];
            var queued := OpsAfter(ops, source, rows, after, r.src, turn);
            if !IsWithin(note.path, r.src) then MovesFor(queued, source, OfNote(id)) == MovesFor(ops, source, OfNote(id))
            else if note.remoteId.Some? then IsRenamed(ops, queued, source, OfNote(id), note.path, after.notes[id].path)
            else MovesEndAt(queued, source, OfNote(id), after.notes[id].path)
  {
    TurnIsOfRows(rows, r, p, turn);
    NotesLandApart(rows, r, p);
    TurnIsOf(rows, r, p, turn);
    hide IsTurn, IsTurnOf, ValidFolderPlan, OpsAfter, RowsAfter, IsWithin, MovesFor, RemotePath, MovesEndAt;
    MovesAreQueued(ops, source, rows, RowsAfter(rows, r, p), r.src, turn, OfNote(id));
  }

  /** And every file inside it that the remote has; one it has not is uploaded to where it went. */
  lemma FilesGoOut(rows: Rows, r: Rebase, p: FolderPlan, turn: Turn, ops: seq<Op>, source: Source, id: Id)
    requires ValidFolderPlan(rows, r, p) && IsTurn(rows, r, p, turn) && id in rows.files
    ensures IsTurnOf(rows, RowsAfter(rows, r, p), turn)
    ensures var file, to := rows.files[id], RebasePath(rows.files[id].path, r.src, r.dst);
            var queued := OpsAfter(ops, source, rows, RowsAfter(rows, r, p), r.src, turn);
            if IsWithin(file.path, r.src) && file.remoteId.Some? then IsRenamed(ops, queued, source, OfFile(id), file.path, to)
            else
              && MovesFor(queued, source, OfFile(id)) == MovesFor(ops, source, OfFile(id))
              && (IsWithin(file.path, r.src) ==> UploadsAt(queued, source, id, to))
  {
    TurnIsOfRows(rows, r, p, turn);
    FileRowsAfter(rows, r, p);
    TurnIsOf(rows, r, p, turn);
    hide IsTurn, IsTurnOf, ValidFolderPlan, OpsAfter, RowsAfter, IsWithin, MovesFor, RemotePath, MovesEndAt, UploadsAt, RebasePath;
    var after := RowsAfter(rows, r, p);
    MovesAreQueued(ops, source, rows, after, r.src, turn, OfFile(id));
    if IsWithin(rows.files[id].path, r.src) && rows.files[id].remoteId.None? {
      UploadsFollow(ops, source, rows, after, r.src, turn, id);
    }
  }

  /** A notebook the move makes at its destination: one there was no row for, or one that was carried. */
  ghost predicate IsMadeThere(rows: Rows, r: Rebase, path: string) {
    || ((path == r.dst || path in AncestorPaths(r.dst)) && !(path in rows.folders && !IsWithin(path, r.src)))
    || (exists each :: each in rows.folders && IsWithin(each, r.src) && path == RebasePath(each, r.src, r.dst))
  }

  /**
    Each notebook made at the destination is to be made on the remote, unless it is inside
    what was left, and no other that was not to be. Each directory left that the remote has
    is to be removed from it, behind everything else, and no other that was not to be.
   */
  lemma NotebooksGoOut(rows: Rows, r: Rebase, p: FolderPlan, turn: Turn, ops: seq<Op>, source: Source)
    requires ValidFolderPlan(rows, r, p) && IsTurn(rows, r, p, turn)
    ensures IsTurnOf(rows, RowsAfter(rows, r, p), turn)
    ensures var queued := OpsAfter(ops, source, rows, RowsAfter(rows, r, p), r.src, turn);
            && (forall path :: IsMadeThere(rows, r, path) ==>
                  ((exists op :: op in queued && IsOwedBy(op, source, MakeNotebook(path))) <==> !IsWithin(path, r.src)))
            && (forall op :: op in queued && op !in ops && op.source == source && op.kind == Mkdir ==> IsMadeThere(rows, r, op.path))
            && (forall path :: path in rows.folders && IsWithin(path, r.src) && rows.folders[path].remoteId.Some? ==>
                  exists op :: op in queued && IsRmdirOf(op, source, path, rows.folders[path].remoteId.value))
            && (forall op :: op in queued && op !in ops && op.source == source && op.kind == Rmdir ==>
                  op.path in rows.folders && IsWithin(op.path, r.src) && op.remoteId == rows.folders[op.path].remoteId)
            && (forall i, j :: 0 <= i < j < |queued| && queued[i].kind == Rmdir && queued[i] !in ops ==> queued[j].kind == Rmdir)
  {
    TurnIsOfRows(rows, r, p, turn);
    TurnIsOf(rows, r, p, turn);
    hide IsTurn, IsTurnOf, ValidFolderPlan, OpsAfter, RowsAfter, IsWithin, IsMadeThere, RebasePath, AncestorPaths;
    var after := RowsAfter(rows, r, p);
    var queued := OpsAfter(ops, source, rows, after, r.src, turn);
    DirectoriesGoLast(ops, source, rows, after, r.src, turn);
    forall path | IsMadeThere(rows, r, path)
      ensures (exists op :: op in queued && IsOwedBy(op, source, MakeNotebook(path))) <==> !IsWithin(path, r.src)
    {
      NotebooksAreMadeIff(ops, source, rows, after, r.src, turn, path);
    }
    forall op | op in queued && op !in ops && op.source == source && IsDirectoryOp(op)
      ensures op.kind == Mkdir ==> IsMadeThere(rows, r, op.path)
      ensures op.kind == Rmdir ==> op.path in rows.folders && IsWithin(op.path, r.src) && op.remoteId == rows.folders[op.path].remoteId
    {
      DirectoryOpsAre(ops, source, rows, after, r.src, turn, op);
    }
  }

  /** The turn, told from the rows. */
  lemma TurnIsOf(rows: Rows, r: Rebase, p: FolderPlan, turn: Turn)
    requires IsTurn(rows, r, p, turn)
    ensures forall id :: id in turn.landed <==> id in rows.notes && IsWithin(rows.notes[id].path, r.src)
    ensures forall id :: id in turn.carried <==> id in rows.files && IsWithin(rows.files[id].path, r.src)
    ensures forall path :: path in turn.leaving <==> path in rows.folders && IsWithin(path, r.src)
    ensures forall path :: path in turn.makes <==> IsMadeThere(rows, r, path)
  {
    hide IsWithin, RebasePath, AncestorPaths, AreByDepth;
    assert forall path :: path in turn.makes <==> path in MadeAt(rows, r, p.now);
  }

  // ----- In which order ----------------------------------------------------------------

  predicate IsNew(op: Op, before: seq<Op>, source: Source, kind: Kind) {
    op.source == source && op.kind == kind && op !in before
  }

  /** What is new of a kind stands outermost first. */
  ghost predicate IsOutermostFirst(ops: seq<Op>, before: seq<Op>, source: Source, kind: Kind) {
    forall i, j :: 0 <= i < j < |ops| && IsNew(ops[i], before, source, kind) && IsNew(ops[j], before, source, kind) ==>
      PathDepth(ops[i].path) <= PathDepth(ops[j].path)
  }

  /** A notebook is queued to be made behind each one above it, and a directory to be removed likewise. */
  lemma NotebooksGoOutermostFirst(rows: Rows, r: Rebase, p: FolderPlan, turn: Turn, ops: seq<Op>, source: Source)
    requires ValidFolderPlan(rows, r, p) && IsTurn(rows, r, p, turn)
    ensures IsTurnOf(rows, RowsAfter(rows, r, p), turn)
    ensures var queued := OpsAfter(ops, source, rows, RowsAfter(rows, r, p), r.src, turn);
            IsOutermostFirst(queued, ops, source, Mkdir) && IsOutermostFirst(queued, ops, source, Rmdir)
  {
    TurnIsOfRows(rows, r, p, turn);
    TurnsGoOutermostFirst(ops, source, rows, RowsAfter(rows, r, p), r.src, turn);
  }

  lemma TurnsGoOutermostFirst(ops: seq<Op>, source: Source, before: Rows, after: Rows, src: string, turn: Turn)
    requires IsTurnOf(before, after, turn) && AreByDepth(turn.makes) && AreByDepth(turn.leaving)
    ensures var queued := OpsAfter(ops, source, before, after, src, turn);
            IsOutermostFirst(queued, ops, source, Mkdir) && IsOutermostFirst(queued, ops, source, Rmdir)
  {
    hide IsTurnOf, OpsMoved, QueueRmdirs, IsOutermostFirst, PathDepth, IsMkdirInside, QueueAll;
    TurnLeaves(before, after, turn);
    var moved := OpsMoved(ops, source, before, after, src, turn);
    MovedOutermostFirst(ops, source, before, after, src, turn);
    forall op | IsNew(op, ops, source, Rmdir)
      ensures op !in moved
    {
      DirectoriesMoved(ops, source, before, after, src, turn, op);
      QueueAllKeeps(ops, source, MakeAll(turn.makes));
      if op in QueueAll(ops, source, MakeAll(turn.makes)) {
        MadeRmdirs(ops, source, turn.makes, op);
      }
    }
    NoneIsInOrder(moved, ops, source);
    RmdirsOutermostFirst(moved, ops, source, before.folders, turn.leaving);
  }

  lemma NoneIsInOrder(ops: seq<Op>, before: seq<Op>, source: Source)
    requires forall op :: IsNew(op, before, source, Rmdir) ==> op !in ops
    ensures IsOutermostFirst(ops, before, source, Rmdir)
  {}

  lemma MovedOutermostFirst(ops: seq<Op>, source: Source, before: Rows, after: Rows, src: string, turn: Turn)
    requires IsTurnOf(before, after, turn) && AreByDepth(turn.makes)
    ensures IsOutermostFirst(OpsMoved(ops, source, before, after, src, turn), ops, source, Mkdir)
  {
    hide IsOutermostFirst, PathDepth, QueueAll, QueueFileMoves, QueueMoves, WithdrawMkdirs;
    var made := QueueAll(ops, source, MakeAll(turn.makes));
    NothingIsNew(ops, source, turn.makes);
    MadeOutermostFirst(ops, ops, source, turn.makes);
    FilesMovedInOrder(made, ops, source, before.files, after.files, turn.carried);
    var carried := QueueFileMoves(made, source, before.files, after.files, turn.carried);
    NotesMovedInOrder(carried, ops, source, before.notes, after.notes, turn.landed);
    WithdrawnMkdirsInOrder(QueueMoves(carried, source, before.notes, after.notes, turn.landed), ops, source, src);
  }

  lemma NothingIsNew(ops: seq<Op>, source: Source, paths: seq<string>)
    ensures IsOutermostFirst(ops, ops, source, Mkdir) && AreAbove(ops, ops, source, Mkdir, paths)
  {}

  /** Whatever is new is no deeper than anything still to come. */
  ghost predicate AreAbove(ops: seq<Op>, before: seq<Op>, source: Source, kind: Kind, paths: seq<string>) {
    forall op, path :: op in ops && IsNew(op, before, source, kind) && path in paths ==> PathDepth(op.path) <= PathDepth(path)
  }

  lemma {:induction false} MadeOutermostFirst(ops: seq<Op>, before: seq<Op>, source: Source, paths: seq<string>)
    requires IsOutermostFirst(ops, before, source, Mkdir) && AreByDepth(paths) && AreAbove(ops, before, source, Mkdir, paths)
    ensures IsOutermostFirst(QueueAll(ops, source, MakeAll(paths)), before, source, Mkdir)
    decreases |paths|
  {
    hide IsOutermostFirst, PathDepth, QueueOne;
    if paths != [] {
      assert MakeAll(paths)[1..] == MakeAll(paths[1..]);
      OneMadeInOrder(ops, before, source, paths);
      MadeOutermostFirst(QueueOne(ops, source, MakeNotebook(paths[0])), before, source, paths[1..]);
    }
  }

  lemma OneMadeInOrder(ops: seq<Op>, before: seq<Op>, source: Source, paths: seq<string>)
    requires paths != [] && AreByDepth(paths)
    requires IsOutermostFirst(ops, before, source, Mkdir) && AreAbove(ops, before, source, Mkdir, paths)
    ensures var next := QueueOne(ops, source, MakeNotebook(paths[0]));
            IsOutermostFirst(next, before, source, Mkdir) && AreAbove(next, before, source, Mkdir, paths[1..])
    ensures AreByDepth(paths[1..])
  {
    hide PathDepth, IsStale, IsOutermostFirst, WithdrawRmdirs, PathsWith, AreByDepth, AreAbove;
    WithdrawnRmdirsInOrder(ops, before, source, paths[0]);
    RestIsDeeper(paths);
    var kept := WithdrawRmdirs(ops, source, paths[0]);
    FewerAreAbove(ops, kept, before, source, Mkdir, paths);
    OneBehind(kept, Op(source, Mkdir, None, None, paths[0], None, None), before, source, Mkdir, paths);
  }

  lemma RestIsDeeper(paths: seq<string>)
    requires paths != [] && AreByDepth(paths)
    ensures AreByDepth(paths[1..])
    ensures forall path :: path in paths[1..] ==> path in paths && PathDepth(paths[0]) <= PathDepth(path)
  {
    hide PathDepth;
    assert forall i :: 0 <= i < |paths| - 1 ==> paths[1..][i] == paths[i + 1];
  }

  lemma FewerAreAbove(ops: seq<Op>, kept: seq<Op>, before: seq<Op>, source: Source, kind: Kind, paths: seq<string>)
    requires AreAbove(ops, before, source, kind, paths) && paths != [] && forall op :: op in kept ==> op in ops
    ensures AreAbove(kept, before, source, kind, paths) && AreAbove(kept, before, source, kind, paths[1..])
  {
    hide PathDepth, IsNew;
  }

  /** One more, for the first path to come, behind all there is. */
  lemma OneBehind(ops: seq<Op>, op: Op, before: seq<Op>, source: Source, kind: Kind, paths: seq<string>)
    requires paths != [] && op.path == paths[0] && op.kind == kind
    requires IsOutermostFirst(ops, before, source, kind) && AreAbove(ops, before, source, kind, paths)
    requires forall path :: path in paths[1..] ==> path in paths && PathDepth(paths[0]) <= PathDepth(path)
    ensures IsOutermostFirst(ops + [op], before, source, kind)
    ensures AreAbove(ops + [op], before, source, kind, paths[1..])
  {
    hide PathDepth, IsNew;
    assert paths[0] in paths;
    assert forall i :: 0 <= i < |ops| ==> ops[i] in ops;
  }

  /** One of another kind changes nothing. */
  lemma OtherBehind(ops: seq<Op>, op: Op, before: seq<Op>, source: Source, kind: Kind)
    requires op.kind != kind && IsOutermostFirst(ops, before, source, kind)
    ensures IsOutermostFirst(ops + [op], before, source, kind)
  {
    hide PathDepth;
  }

  lemma {:induction false} WithdrawnRmdirsInOrder(ops: seq<Op>, before: seq<Op>, source: Source, path: string)
    requires IsOutermostFirst(ops, before, source, Mkdir)
    ensures IsOutermostFirst(WithdrawRmdirs(ops, source, path), before, source, Mkdir)
  {
    hide PathDepth, IsStale;
    if ops != [] {
      var rest := ops[1..];
      assert IsOutermostFirst(rest, before, source, Mkdir);
      WithdrawnRmdirsInOrder(rest, before, source, path);
      FirstInOrder(ops, WithdrawRmdirs(rest, source, path), before, source);
    }
  }

  /** The first before some of the rest. */
  lemma FirstInOrder(ops: seq<Op>, kept: seq<Op>, before: seq<Op>, source: Source)
    requires ops != [] && IsOutermostFirst(ops, before, source, Mkdir) && IsOutermostFirst(kept, before, source, Mkdir)
    requires forall op :: op in kept ==> op in ops[1..]
    ensures IsOutermostFirst([ops[0]] + kept, before, source, Mkdir)
  {
    hide PathDepth;
    var all := [ops[0]] + kept;
    forall i, j | 0 <= i < j < |all| && IsNew(all[i], before, source, Mkdir) && IsNew(all[j], before, source, Mkdir)
      ensures PathDepth(all[i].path) <= PathDepth(all[j].path)
    {
      if i == 0 {
        assert all[j] == kept[j - 1] && all[j] in ops[1..];
        var k :| 0 <= k < |ops| - 1 && ops[1..][k] == all[j];
        assert ops[k + 1] == all[j];
      } else {
        assert all[i] == kept[i - 1] && all[j] == kept[j - 1];
      }
    }
  }

  lemma {:induction false} WithdrawnMkdirsInOrder(ops: seq<Op>, before: seq<Op>, source: Source, path: string)
    requires IsOutermostFirst(ops, before, source, Mkdir)
    ensures IsOutermostFirst(WithdrawMkdirs(ops, source, path), before, source, Mkdir)
  {
    hide PathDepth, IsMkdirInside;
    if ops != [] {
      var rest := ops[1..];
      assert IsOutermostFirst(rest, before, source, Mkdir);
      WithdrawnMkdirsInOrder(rest, before, source, path);
      FirstInOrder(ops, WithdrawMkdirs(rest, source, path), before, source);
    }
  }

  lemma {:induction false} WithoutMovesInOrder(ops: seq<Op>, before: seq<Op>, source: Source, subject: Subject)
    requires IsOutermostFirst(ops, before, source, Mkdir)
    ensures IsOutermostFirst(WithoutMoves(ops, source, subject), before, source, Mkdir)
  {
    hide PathDepth, IsMoveOf;
    if ops != [] {
      var rest := ops[1..];
      assert IsOutermostFirst(rest, before, source, Mkdir);
      WithoutMovesInOrder(rest, before, source, subject);
      FirstInOrder(ops, WithoutMoves(rest, source, subject), before, source);
    }
  }

  lemma OneMovedInOrder(ops: seq<Op>, before: seq<Op>, source: Source, subject: Subject, isLinked: bool, path: string, from: string)
    requires IsOutermostFirst(ops, before, source, Mkdir)
    ensures IsOutermostFirst(QueueMove(ops, source, subject, isLinked, path, from), before, source, Mkdir)
  {
    hide PathDepth, WithoutMoves, MovesFor;
    WithoutMovesInOrder(ops, before, source, subject);
  }

  lemma RepathedInOrder(ops: seq<Op>, before: seq<Op>, source: Source, id: Id, path: string)
    requires IsOutermostFirst(ops, before, source, Mkdir)
    ensures IsOutermostFirst(Repathed(ops, source, id, path), before, source, Mkdir)
  {
    hide PathDepth;
    var after := Repathed(ops, source, id, path);
    assert forall i :: 0 <= i < |ops| && IsNew(after[i], before, source, Mkdir) ==> after[i] == ops[i];
  }

  lemma {:induction false} FilesMovedInOrder(
      ops: seq<Op>, base: seq<Op>, source: Source, before: map<Id, File>, after: map<Id, File>, order: seq<Id>)
    requires forall id :: id in order ==> id in before && id in after
    requires IsOutermostFirst(ops, base, source, Mkdir)
    ensures IsOutermostFirst(QueueFileMoves(ops, source, before, after, order), base, source, Mkdir)
    decreases |order|
  {
    hide IsOutermostFirst, QueueMove, Repathed;
    if order != [] {
      var id := order[0];
      RepathedInOrder(ops, base, source, id, after[id].path);
      OneMovedInOrder(ops, base, source, OfFile(id), true, after[id].path, before[id].path);
      FilesMovedInOrder(QueueMoveFile(ops, source, id, after[id], before[id].path), base, source, before, after, order[1..]);
    }
  }

  lemma {:induction false} NotesMovedInOrder(
      ops: seq<Op>, base: seq<Op>, source: Source, before: map<Id, Note>, after: map<Id, Note>, order: seq<Id>)
    requires forall id :: id in order ==> id in before && id in after
    requires IsOutermostFirst(ops, base, source, Mkdir)
    ensures IsOutermostFirst(QueueMoves(ops, source, before, after, order), base, source, Mkdir)
    decreases |order|
  {
    hide IsOutermostFirst, QueueMove;
    if order != [] {
      var id := order[0];
      var isLinked := after[id].remoteId.Some?;
      OneMovedInOrder(ops, base, source, OfNote(id), isLinked, after[id].path, before[id].path);
      NotesMovedInOrder(QueueMove(ops, source, OfNote(id), isLinked, after[id].path, before[id].path),
                        base, source, before, after, order[1..]);
    }
  }

  /** The removals are queued behind what was, which leaves the order of what is made as it was. */
  lemma {:induction false} RmdirsOutermostFirst(
      ops: seq<Op>, base: seq<Op>, source: Source, folders: map<string, Folder>, order: seq<string>)
    requires (forall path :: path in order ==> path in folders) && AreByDepth(order)
    requires IsOutermostFirst(ops, base, source, Mkdir) && IsOutermostFirst(ops, base, source, Rmdir)
    requires AreAbove(ops, base, source, Rmdir, order)
    ensures var queued := QueueRmdirs(ops, source, folders, order);
            IsOutermostFirst(queued, base, source, Mkdir) && IsOutermostFirst(queued, base, source, Rmdir)
    decreases |order|
  {
    hide IsOutermostFirst, PathDepth, QueueRmdir;
    if order != [] {
      OneRmdirInOrder(ops, base, source, order, folders[order[0]].remoteId);
      RmdirsOutermostFirst(QueueRmdir(ops, source, order[0], folders[order[0]].remoteId), base, source, folders, order[1..]);
    }
  }

  lemma OneRmdirInOrder(ops: seq<Op>, base: seq<Op>, source: Source, order: seq<string>, remoteId: Option<Id>)
    requires order != [] && AreByDepth(order)
    requires IsOutermostFirst(ops, base, source, Mkdir) && IsOutermostFirst(ops, base, source, Rmdir)
    requires AreAbove(ops, base, source, Rmdir, order)
    ensures var next := QueueRmdir(ops, source, order[0], remoteId);
            && IsOutermostFirst(next, base, source, Mkdir) && IsOutermostFirst(next, base, source, Rmdir)
            && AreAbove(next, base, source, Rmdir, order[1..])
    ensures AreByDepth(order[1..])
  {
    hide PathDepth, IsOutermostFirst, AreByDepth, AreAbove;
    RestIsDeeper(order);
    FewerAreAbove(ops, ops, base, source, Rmdir, order);
    var op := Op(source, Rmdir, None, None, order[0], None, remoteId);
    OneBehind(ops, op, base, source, Rmdir, order);
    OtherBehind(ops, op, base, source, Mkdir);
  }
}
