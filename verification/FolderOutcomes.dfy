/**
  When a notebook's move is refused, what its rows are afterwards, and which of the ops
  queued before it stand (`moveFolder` in apps/web/src/store/folders.ts).
 */
module FolderOutcomes {
  import opened Options
  import opened Paths
  import opened Naming
  import opened Library
  import opened MoveSpellings
  import opened Unsynced
  import opened FolderMoves
  import opened FolderQueue

  // ----- Refusals ----------------------------------------------------------------------

  /** A path in a folder, name by name; a folder is in itself. */
  predicate IsInside(path: string, folder: string) {
    PathSegments(folder) <= PathSegments(path)
  }

  /** The same, as providers compare names. */
  predicate IsInsideFolded(path: string, folder: string) {
    FoldSegments(folder) <= FoldSegments(path)
  }

  ghost predicate HasInside(rows: Rows, folder: string) {
    || (exists path :: path in rows.folders && IsInside(path, folder))
    || (exists id :: id in rows.notes && IsInside(rows.notes[id].path, folder))
    || (exists id :: id in rows.files && IsInside(rows.files[id].path, folder))
  }

  /** A notebook or a file that is not itself on the move is at the destination or in it. */
  ghost predicate IsTaken(rows: Rows, from: string, to: string) {
    || (exists path :: path in rows.folders && IsInsideFolded(path, to) && !IsInside(path, from))
    || (exists id :: id in rows.files && IsInsideFolded(rows.files[id].path, to) && !IsInside(rows.files[id].path, from))
  }

  lemma InsideIs(path: string, folder: string)
    ensures IsWithin(path, NormalizePath(folder)) <==> IsInside(path, folder)
    ensures IsWithin(FoldPath(path), FoldPath(NormalizePath(folder))) <==> IsInsideFolded(path, folder)
  {
    SegmentsOfPath(folder);
    NormalizeIdempotent(folder);
    WithinIsPrefix(path, NormalizePath(folder));
    FoldWithin(path, NormalizePath(folder));
  }

  lemma RootHasNoNames(path: string)
    ensures NormalizePath(path) == ROOT <==> PathSegments(path) == []
  {
    hide NormalizePath, PathSegments;
    NormalizeIdempotent(path);
    NormalRoot();
    if PathSegments(path) == [] {
      SameSegments(path, ROOT);
    }
    SameNormalized(path, ROOT);
  }

  lemma SameNormalized(a: string, b: string)
    ensures NormalizePath(a) == NormalizePath(b) <==> PathSegments(a) == PathSegments(b)
  {
    hide NormalizePath, PathSegments;
    NormalizeIdempotent(a);
    NormalizeIdempotent(b);
    NormalizedSegments(a);
    NormalizedSegments(b);
    if PathSegments(a) == PathSegments(b) {
      SameSegments(a, b);
    }
  }

  lemma NormalizedSegments(path: string)
    ensures PathSegments(NormalizePath(path)) == PathSegments(path)
  {
    SegmentsOfPath(path);
    NormalizeIdempotent(path);
  }

  /**
    A move is refused exactly where the top is moved or moved onto; where a notebook is moved
    into itself; and where something is moved to what some other notebook or file is at or
    in. So a notebook is respelled, or moved where only notes are.
   */
  lemma RefusedIff(rows: Rows, from: string, to: string)
    ensures Refused(rows, from, to) ==
              if PathSegments(from) == [] || PathSegments(to) == [] then Some(RootFolder)
              else if PathSegments(from) == PathSegments(to) then None
              else if IsInside(to, from) then Some(InsideItself)
              else if HasInside(rows, from) && IsTaken(rows, from, to) then Some(FolderExists)
              else None
    ensures Proceeds(rows, from, to) <==>
              Refused(rows, from, to).None? && PathSegments(from) != PathSegments(to) && HasInside(rows, from)
  {
    hide NormalizePath, PathSegments, IsWithin, FoldPath, FoldSegments, IsInside, IsInsideFolded;
    RootHasNoNames(from);
    RootHasNoNames(to);
    SameNormalized(from, to);
    NormalizedInside(to, from);
    NothingIsInside(rows, from, to);
    TakenIsOccupied(rows, from, to);
  }

  lemma NormalizedInside(path: string, folder: string)
    ensures IsWithin(NormalizePath(path), NormalizePath(folder)) <==> IsInside(path, folder)
  {
    hide NormalizePath, PathSegments, IsWithin;
    InsideIs(NormalizePath(path), folder);
    NormalizedSegments(path);
  }

  lemma NothingIsInside(rows: Rows, from: string, to: string)
    ensures IsNothing(rows, Rebase(NormalizePath(from), NormalizePath(to))) <==> !HasInside(rows, from)
  {
    hide NormalizePath, IsWithin, IsInside, IsInsideFolded, FoldPath;
    var r := Rebase(NormalizePath(from), NormalizePath(to));
    forall path
      ensures IsWithin(path, r.src) <==> IsInside(path, from)
    {
      InsideIs(path, from);
    }
    if path :| path in rows.folders && IsInside(path, from) {
      assert path in FoldersInside(rows, r);
    } else if id :| id in rows.notes && IsInside(rows.notes[id].path, from) {
      assert id in NotesInside(rows, r);
    } else if id :| id in rows.files && IsInside(rows.files[id].path, from) {
      assert id in FilesInside(rows, r);
    } else {
      assert FoldersInside(rows, r) == {} && NotesInside(rows, r) == {} && FilesInside(rows, r) == {};
    }
  }

  lemma TakenIsOccupied(rows: Rows, from: string, to: string)
    ensures IsOccupied(rows, Rebase(NormalizePath(from), NormalizePath(to))) <==> IsTaken(rows, from, to)
  {
    hide NormalizePath, IsWithin, IsInside, IsInsideFolded, FoldPath;
    var r := Rebase(NormalizePath(from), NormalizePath(to));
    forall path
      ensures IsInTheWay(path, r) <==> IsInsideFolded(path, to) && !IsInside(path, from)
    {
      InsideIs(path, from);
      InsideIs(path, to);
    }
  }

  // ----- Rows --------------------------------------------------------------------------

  /** A notebook carried along: it names no directory yet, and has the date it had. */
  ghost predicate IsCarriedTo(rows: Rows, r: Rebase, q: string, row: Folder) {
    exists path :: path in rows.folders && IsWithin(path, r.src) && q == RebasePath(path, r.src, r.dst)
                   && row == Folder(None, rows.folders[path].createdAt)
  }

  lemma {:induction false} PutUnderRows(folders: map<string, Folder>, rows: map<string, Folder>, r: Rebase, order: seq<string>, q: string)
    requires forall path :: path in order ==> path in rows
    requires q in PutUnder(folders, rows, r, order)
    ensures var after := PutUnder(folders, rows, r, order);
            if exists path :: path in order && q == RebasePath(path, r.src, r.dst) then
              exists path :: path in order && q == RebasePath(path, r.src, r.dst) && after[q] == Folder(None, rows[path].createdAt)
            else q in folders && after[q] == folders[q]
    decreases |order|
  {
    hide RebasePath;
    if order != [] {
      var front, last := order[..|order| - 1], order[|order| - 1];
      assert forall path :: path in order <==> path in front || path == last;
      if q == RebasePath(last, r.src, r.dst) {
        assert last in order;
      } else {
        PutUnderRows(folders, rows, r, front, q);
      }
    }
  }

  /**
    A notebook's row afterwards: of one carried along, with its date and no directory; of one
    that stayed, the row it was; and of one made above the destination, a new one.
   */
  lemma NotebookRowsAfter(rows: Rows, r: Rebase, p: FolderPlan, q: string)
    requires ValidFolderPlan(rows, r, p) && q in RowsAfter(rows, r, p).folders
    ensures var row := RowsAfter(rows, r, p).folders[q];
            if exists path :: path in rows.folders && IsWithin(path, r.src) && q == RebasePath(path, r.src, r.dst) then
              IsCarriedTo(rows, r, q, row)
            else if q in rows.folders && !IsWithin(q, r.src) then row == rows.folders[q]
            else row == Folder(None, p.now)
  {
    hide RebasePath, IsWithin, AncestorPaths, Settle, FilesAfter, PutUnder;
    PlanIsOfRows(rows, r, p);
    assert forall path :: path in p.folders <==> path in FoldersInside(rows, r);
    var outside := rows.folders - FoldersInside(rows, r);
    PutUnderRows(outside + Ensured(outside, r.dst, p.now), rows.folders, r, p.folders, q);
  }

  /** Files inside keep all but the folder they are in; the others, and all bytes, are as they were. */
  lemma FileRowsAfter(rows: Rows, r: Rebase, p: FolderPlan)
    requires ValidFolderPlan(rows, r, p)
    ensures var after := RowsAfter(rows, r, p);
            && after.files.Keys == rows.files.Keys && after.bytes == rows.bytes
            && (forall id :: id in rows.files ==>
                  after.files[id] ==
                    if IsWithin(rows.files[id].path, r.src)
                    then File(RebasePath(rows.files[id].path, r.src, r.dst), rows.files[id].remoteId, rows.files[id].remoteVersion,
                              rows.files[id].size)
                    else rows.files[id])
  {
    hide RebasePath, IsWithin, Settle, FoldersAfter;
    PlanIsOfRows(rows, r, p);
  }

  // ----- The queue ---------------------------------------------------------------------

  /** An op a notebook's move has nothing to do with: another source's, a write or a removal of a note or a file. */
  predicate IsElsewhere(op: Op, source: Source) {
    op.source != source || op.kind == Write || op.kind == Delete || op.kind == DeleteFile
  }

  lemma MoveLeaves(ops: seq<Op>, source: Source, subject: Subject, isLinked: bool, path: string, from: string, op: Op)
    requires IsElsewhere(op, source)
    ensures op in QueueMove(ops, source, subject, isLinked, path, from) <==> op in ops
  {
    hide WithoutMoves, MovesFor;
  }

  lemma FileMoveLeaves(ops: seq<Op>, source: Source, id: Id, file: File, from: string, op: Op)
    requires IsElsewhere(op, source)
    ensures op in QueueMoveFile(ops, source, id, file, from) <==> op in ops
  {
    hide QueueMove, IsElsewhere;
    if file.remoteId.None? {
      RepathedLeaves(ops, source, id, file.path, op);
    } else {
      MoveLeaves(ops, source, OfFile(id), true, file.path, from, op);
    }
  }

  lemma RepathedLeaves(ops: seq<Op>, source: Source, id: Id, path: string, op: Op)
    requires IsElsewhere(op, source)
    ensures op in Repathed(ops, source, id, path) <==> op in ops
  {
    var kept := Repathed(ops, source, id, path);
    if op in ops {
      var i :| 0 <= i < |ops| && ops[i] == op;
      assert kept[i] == op;
    }
    if op in kept {
      var i :| 0 <= i < |kept| && kept[i] == op;
      assert ops[i] == op;
    }
  }

  lemma {:induction false} FileMovesLeave(
      ops: seq<Op>, source: Source, before: map<Id, File>, after: map<Id, File>, order: seq<Id>, op: Op)
    requires forall each :: each in order ==> each in before && each in after
    requires IsElsewhere(op, source)
    ensures op in QueueFileMoves(ops, source, before, after, order) <==> op in ops
    decreases |order|
  {
    hide QueueMoveFile, IsElsewhere;
    if order != [] {
      FileMoveLeaves(ops, source, order[0], after[order[0]], before[order[0]].path, op);
      FileMovesLeave(QueueMoveFile(ops, source, order[0], after[order[0]], before[order[0]].path), source, before, after, order[1..], op);
    }
  }

  lemma {:induction false} NoteMovesLeave(
      ops: seq<Op>, source: Source, before: map<Id, Note>, after: map<Id, Note>, order: seq<Id>, op: Op)
    requires forall each :: each in order ==> each in before && each in after
    requires IsElsewhere(op, source)
    ensures op in QueueMoves(ops, source, before, after, order) <==> op in ops
    decreases |order|
  {
    hide QueueMove, IsElsewhere;
    if order != [] {
      var id := order[0];
      MoveLeaves(ops, source, OfNote(id), after[id].remoteId.Some?, after[id].path, before[id].path, op);
      NoteMovesLeave(QueueMove(ops, source, OfNote(id), after[id].remoteId.Some?, after[id].path, before[id].path),
                     source, before, after, order[1..], op);
    }
  }

  /** A removal is in the queue where it was, or is of a directory left that the remote has. */
  lemma {:induction false} RmdirsAre(ops: seq<Op>, source: Source, folders: map<string, Folder>, order: seq<string>, op: Op)
    requires forall path :: path in order ==> path in folders
    ensures op in QueueRmdirs(ops, source, folders, order) ==>
              op in ops || exists path :: path in order && folders[path].remoteId.Some?
                                          && op == Op(source, Rmdir, None, None, path, None, folders[path].remoteId)
    ensures op in ops ==> op in QueueRmdirs(ops, source, folders, order)
    decreases |order|
  {
    if order != [] {
      RmdirsAre(QueueRmdir(ops, source, order[0], folders[order[0]].remoteId), source, folders, order[1..], op);
      assert forall path :: path in order <==> path == order[0] || path in order[1..];
    }
  }

  /** Every op a notebook's move has nothing to do with stands. */
  lemma OpsElsewhereStand(ops: seq<Op>, source: Source, before: Rows, after: Rows, src: string, turn: Turn, op: Op)
    requires IsTurnOf(before, after, turn) && IsElsewhere(op, source)
    ensures op in OpsAfter(ops, source, before, after, src, turn) <==> op in ops
  {
    hide QueueAll, QueueFileMoves, QueueMoves, WithdrawMkdirs, QueueRmdirs;
    var made := QueueAll(ops, source, MakeAll(turn.makes));
    var carried := QueueFileMoves(made, source, before.files, after.files, turn.carried);
    var moved := OpsMoved(ops, source, before, after, src, turn);
    MakingLeaves(ops, source, turn.makes, op);
    FileMovesLeave(made, source, before.files, after.files, turn.carried, op);
    NoteMovesLeave(carried, source, before.notes, after.notes, turn.landed, op);
    RmdirsAre(moved, source, before.folders, turn.leaving, op);
  }

  lemma MakingLeaves(ops: seq<Op>, source: Source, paths: seq<string>, op: Op)
    requires IsElsewhere(op, source)
    ensures op in QueueAll(ops, source, MakeAll(paths)) <==> op in ops
  {
    hide QueueAll;
    QueueAllKeeps(ops, source, MakeAll(paths));
    assert forall owe :: owe in MakeAll(paths) ==> !IsOwedBy(op, source, owe);
  }

  /**
    Of the notebooks to be made, those queued stand but for what is inside what was left, and
    beside them is one for each made here. Of the removals, those queued stand but for that of
    a notebook made here, or of one above it, and beside them is one for each directory left.
   */
  lemma DirectoryOpsAre(ops: seq<Op>, source: Source, before: Rows, after: Rows, src: string, turn: Turn, op: Op)
    requires IsTurnOf(before, after, turn) && op.source == source && IsDirectoryOp(op)
    ensures var queued := OpsAfter(ops, source, before, after, src, turn);
            && (op.kind == Mkdir && op in ops ==> (op in queued <==> !IsWithin(op.path, src)))
            && (op.kind == Mkdir && op in queued && op !in ops ==>
                  op.path in turn.makes && op == Op(source, Mkdir, None, None, op.path, None, None))
            && (op.kind == Rmdir && op in ops && !(exists path :: path in turn.makes && (op.path == path || op.path in AncestorPaths(path))) ==>
                  op in queued)
            && (op.kind == Rmdir && op in queued ==>
                  || (op in ops && !(exists path :: path in turn.makes && (op.path == path || op.path in AncestorPaths(path))))
                  || (op.path in turn.leaving && before.folders[op.path].remoteId.Some?
                      && op == Op(source, Rmdir, None, None, op.path, None, before.folders[op.path].remoteId)))
  {
    hide QueueAll, QueueRmdirs, OpsMoved, IsWithin, AncestorPaths, IsTurnOf;
    DirectoriesMoved(ops, source, before, after, src, turn, op);
    TurnLeaves(before, after, turn);
    RmdirsAre(OpsMoved(ops, source, before, after, src, turn), source, before.folders, turn.leaving, op);
    MadeAre(ops, source, turn.makes, op);
  }

  lemma TurnLeaves(before: Rows, after: Rows, turn: Turn)
    requires IsTurnOf(before, after, turn)
    ensures forall path :: path in turn.leaving ==> path in before.folders
  {}

  lemma MadeAre(ops: seq<Op>, source: Source, paths: seq<string>, op: Op)
    requires op.source == source && IsDirectoryOp(op)
    ensures var made := QueueAll(ops, source, MakeAll(paths));
            && (op in ops ==>
                  (op in made <==>
                     !(op.kind == Rmdir && exists path :: path in paths && (op.path == path || op.path in AncestorPaths(path)))))
            && (op in made && op !in ops ==> op.path in paths && op == Op(source, Mkdir, None, None, op.path, None, None))
  {
    hide QueueAll, AncestorPaths;
    var owes := MakeAll(paths);
    QueueAllIs(ops, source, owes);
    if path :| path in paths && (op.path == path || op.path in AncestorPaths(path)) {
      InSequence(paths, path);
    }
    forall owe | owe in owes
      ensures owe.MakeNotebook? && owe.path in paths
    {
      var i :| 0 <= i < |owes| && owes[i] == owe;
    }
  }

  predicate IsUpload(op: Op, source: Source) {
    op.source == source && op.kind == Upload
  }

  /** An upload as it is queued once the files of `order` have been carried: at the path its file has now. */
  function UploadNow(op: Op, files: map<Id, File>, order: seq<Id>): Op
    requires forall id :: id in order ==> id in files
  {
    if op.fileId.Some? && op.fileId.value in order && files[op.fileId.value].remoteId.None?
    then op.(path := files[op.fileId.value].path) else op
  }

  lemma OneUploadNow(ops: seq<Op>, source: Source, id: Id, file: File, from: string, op: Op)
    requires IsUpload(op, source)
    ensures var now, next := UploadNow(op, map[id := file], [id]), QueueMoveFile(ops, source, id, file, from);
            op in ops ==> IsUpload(now, source) && now in next
    ensures op in QueueMoveFile(ops, source, id, file, from) ==>
              exists was :: was in ops && IsUpload(was, source) && UploadNow(was, map[id := file], [id]) == op
  {
    hide QueueMove;
    if file.remoteId.None? {
      var kept := Repathed(ops, source, id, file.path);
      if op in ops {
        var i :| 0 <= i < |ops| && ops[i] == op;
        assert kept[i] == UploadNow(op, map[id := file], [id]);
      }
      if op in kept {
        var i :| 0 <= i < |kept| && kept[i] == op;
        assert ops[i] in ops && UploadNow(ops[i], map[id := file], [id]) == op;
      }
    } else {
      MoveKeepsOthers(ops, source, OfFile(id), true, file.path, from, op);
      assert UploadNow(op, map[id := file], [id]) == op;
    }
  }

  lemma ThenUploadNow(op: Op, files: map<Id, File>, order: seq<Id>)
    requires order != [] && (forall id :: id in order ==> id in files) && order[0] !in order[1..]
    ensures order[0] in order && forall id :: id in order[1..] ==> id in files
    ensures UploadNow(op, files, order) == UploadNow(UploadNow(op, map[order[0] := files[order[0]]], [order[0]]), files, order[1..])
  {
    assert order[0] in order && forall id :: id in order <==> id == order[0] || id in order[1..];
  }

  lemma {:induction false} UploadsInPlace(
      ops: seq<Op>, source: Source, before: map<Id, File>, after: map<Id, File>, order: seq<Id>, op: Op)
    requires forall each :: each in order ==> each in before && each in after
    requires forall i, j :: 0 <= i < j < |order| ==> order[i] != order[j]
    requires IsUpload(op, source)
    ensures op in ops ==> UploadNow(op, after, order) in QueueFileMoves(ops, source, before, after, order)
    ensures op in QueueFileMoves(ops, source, before, after, order) ==>
              exists was :: was in ops && IsUpload(was, source) && UploadNow(was, after, order) == op
    decreases |order|
  {
    hide QueueMoveFile, UploadNow, IsUpload;
    if order == [] {
      NothingCarried(op, after);
    } else {
      var first, rest := order[0], order[1..];
      assert first in order && first !in rest && forall each :: each in rest ==> each in order;
      var next := QueueMoveFile(ops, source, first, after[first], before[first].path);
      OneUploadNow(ops, source, first, after[first], before[first].path, op);
      ThenUploadNow(op, after, order);
      UploadsInPlace(next, source, before, after, rest, op);
      if op in ops {
        UploadsInPlace(next, source, before, after, rest, UploadNow(op, map[first := after[first]], [first]));
      }
      if op in QueueFileMoves(next, source, before, after, rest) {
        var between :| between in next && IsUpload(between, source) && UploadNow(between, after, rest) == op;
        OneUploadNow(ops, source, first, after[first], before[first].path, between);
        var was :| was in ops && IsUpload(was, source) && UploadNow(was, map[first := after[first]], [first]) == between;
        ThenUploadNow(was, after, order);
      }
    }
  }

  lemma NothingCarried(op: Op, files: map<Id, File>)
    ensures UploadNow(op, files, []) == op
  {}

  /** The uploads queued are those there were, each at the path its file has now. */
  lemma UploadsAre(ops: seq<Op>, source: Source, before: Rows, after: Rows, src: string, turn: Turn, op: Op)
    requires IsTurnOf(before, after, turn) && IsUpload(op, source)
    ensures forall id :: id in turn.carried ==> id in after.files
    ensures var queued := OpsAfter(ops, source, before, after, src, turn);
            && (op in ops ==> UploadNow(op, after.files, turn.carried) in queued)
            && (op in queued ==>
                  exists was :: was in ops && IsUpload(was, source) && UploadNow(was, after.files, turn.carried) == op)
  {
    hide QueueAll, QueueFileMoves, QueueMoves, WithdrawMkdirs, QueueRmdirs, UploadNow;
    UploadsBehind(ops, source, before, after, src, turn, op);
    var made := QueueAll(ops, source, MakeAll(turn.makes));
    UploadsInPlace(made, source, before.files, after.files, turn.carried, op);
    UploadsMade(ops, source, turn.makes);
    if op in ops {
      StillUpload(op, source, after.files, turn.carried);
      UploadsBehind(ops, source, before, after, src, turn, UploadNow(op, after.files, turn.carried));
    }
  }

  lemma StillUpload(op: Op, source: Source, files: map<Id, File>, order: seq<Id>)
    requires IsUpload(op, source) && forall id :: id in order ==> id in files
    ensures IsUpload(UploadNow(op, files, order), source)
  {}

  lemma UploadsMade(ops: seq<Op>, source: Source, paths: seq<string>)
    ensures forall op :: IsUpload(op, source) ==> (op in QueueAll(ops, source, MakeAll(paths)) <==> op in ops)
  {
    hide QueueAll;
    QueueAllKeeps(ops, source, MakeAll(paths));
    forall op | IsUpload(op, source)
      ensures forall owe :: owe in MakeAll(paths) ==> !IsOwedBy(op, source, owe)
    {}
  }

  /** What comes after the files touches no upload. */
  lemma UploadsBehind(ops: seq<Op>, source: Source, before: Rows, after: Rows, src: string, turn: Turn, op: Op)
    requires IsTurnOf(before, after, turn) && IsUpload(op, source)
    ensures op in OpsAfter(ops, source, before, after, src, turn) <==>
              op in QueueFileMoves(QueueAll(ops, source, MakeAll(turn.makes)), source, before.files, after.files, turn.carried)
  {
    hide QueueAll, QueueFileMoves, QueueMoves, WithdrawMkdirs, QueueRmdirs;
    var carried := QueueFileMoves(QueueAll(ops, source, MakeAll(turn.makes)), source, before.files, after.files, turn.carried);
    MovesKeepOthers(carried, source, before.notes, after.notes, turn.landed, op);
    RmdirsAre(OpsMoved(ops, source, before, after, src, turn), source, before.folders, turn.leaving, op);
  }
}
