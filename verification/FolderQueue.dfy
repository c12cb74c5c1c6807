/**
  What a notebook's move queues (`moveFolder` in apps/web/src/store/folders.ts;
  `queueMkdir`, `queueMoveFile`, `queueMove`, `withdrawMkdirs` and `queueRmdir` in
  apps/web/src/store/queue.ts): the notebooks made where they are now, the files and then
  the notes moved into them, and the directories they left removed last.
 */
module FolderQueue {
  import opened Options
  import opened Paths
  import opened Library
  import opened Unsynced

  // ----- Moves -------------------------------------------------------------------------

  /** What a move in the queue is about. */
  datatype Subject = OfNote(id: Id) | OfFile(id: Id)

  predicate IsMoveOf(op: Op, source: Source, subject: Subject) {
    op.source == source
    && match subject
       case OfNote(id) => op.kind == MoveNote && op.noteId == Some(id)
       case OfFile(id) => op.kind == MoveFile && op.fileId == Some(id)
  }

  function MoveOp(source: Source, subject: Subject, origin: string, path: string): (op: Op)
    ensures IsMoveOf(op, source, subject) && op.path == origin && op.target == Some(path)
  {
    match subject
    case OfNote(id) => Op(source, MoveNote, Some(id), None, origin, Some(path), None)
    case OfFile(id) => Op(source, MoveFile, None, Some(id), origin, Some(path), None)
  }

  /** The moves queued for a note or a file, in order. */
  function MovesFor(ops: seq<Op>, source: Source, subject: Subject): (moves: seq<Op>)
    ensures forall op :: op in moves ==> IsMoveOf(op, source, subject)
  {
    if ops == [] then []
    else (if IsMoveOf(ops[0], source, subject) then [ops[0]] else []) + MovesFor(ops[1..], source, subject)
  }

  function WithoutMoves(ops: seq<Op>, source: Source, subject: Subject): (kept: seq<Op>)
    ensures forall op :: op in kept <==> op in ops && !IsMoveOf(op, source, subject)
  {
    if ops == [] then []
    else (if IsMoveOf(ops[0], source, subject) then [] else [ops[0]]) + WithoutMoves(ops[1..], source, subject)
  }

  /** Where the remote has the file: where the first move queued would take it from. */
  function RemotePath(ops: seq<Op>, source: Source, subject: Subject, path: string): string {
    var moves := MovesFor(ops, source, subject);
    if moves == [] then path else moves[0].path
  }

  /** `queueMove`, and `queueMoveFile` of a file on the remote: a second rename replaces the first and keeps its origin. */
  function QueueMove(ops: seq<Op>, source: Source, subject: Subject, isLinked: bool, path: string, from: string): seq<Op> {
    var moves := MovesFor(ops, source, subject);
    if |moves| == 1 && moves[0].target == Some(path) then ops
    else
      var origin := if moves == [] then from else moves[0].path;
      WithoutMoves(ops, source, subject)
      + (if isLinked && origin != path then [MoveOp(source, subject, origin, path)] else [])
  }

  predicate IsUploadOf(op: Op, source: Source, id: Id) {
    op.source == source && op.kind == Upload && op.fileId == Some(id)
  }

  /** The uploads of a file, at the path it has now. */
  function Repathed(ops: seq<Op>, source: Source, id: Id, path: string): (kept: seq<Op>)
    ensures |kept| == |ops|
    ensures forall i :: 0 <= i < |ops| ==>
              kept[i] == if IsUploadOf(ops[i], source, id) then ops[i].(path := path) else ops[i]
  {
    seq(|ops|, i requires 0 <= i < |ops| => if IsUploadOf(ops[i], source, id) then ops[i].(path := path) else ops[i])
  }

  /** `queueMoveFile` */
  function QueueMoveFile(ops: seq<Op>, source: Source, id: Id, file: File, from: string): seq<Op> {
    if file.remoteId.None? then Repathed(ops, source, id, file.path)
    else QueueMove(ops, source, OfFile(id), true, file.path, from)
  }

  lemma MovesUnfold(op: Op, rest: seq<Op>, source: Source, subject: Subject)
    ensures MovesFor([op] + rest, source, subject)
            == (if IsMoveOf(op, source, subject) then [op] else []) + MovesFor(rest, source, subject)
  {
    hide IsMoveOf;
    assert ([op] + rest)[1..] == rest;
  }

  lemma {:induction false} MovesOfConcat(a: seq<Op>, b: seq<Op>, source: Source, subject: Subject)
    ensures MovesFor(a + b, source, subject) == MovesFor(a, source, subject) + MovesFor(b, source, subject)
  {
    hide IsMoveOf, MovesFor;
    if a == [] {
      NoMovesOfNothing(source, subject);
      assert a + b == b;
    } else {
      var rest := a[1..];
      assert a == [a[0]] + rest && a + b == [a[0]] + (rest + b);
      MovesOfConcat(rest, b, source, subject);
      MovesUnfold(a[0], rest, source, subject);
      MovesUnfold(a[0], rest + b, source, subject);
    }
  }

  lemma MovesOfOne(op: Op, source: Source, subject: Subject)
    ensures MovesFor([op], source, subject) == if IsMoveOf(op, source, subject) then [op] else []
  {
    assert [op][1..] == [];
  }

  lemma NoMovesOfNothing(source: Source, subject: Subject)
    ensures MovesFor([], source, subject) == []
  {}

  lemma {:induction false} MovesWithout(ops: seq<Op>, source: Source, subject: Subject, other: Subject)
    ensures MovesFor(WithoutMoves(ops, source, subject), source, other)
            == if other == subject then [] else MovesFor(ops, source, other)
  {
    NoMovesOfNothing(source, other);
    if ops != [] {
      MovesWithout(ops[1..], source, subject, other);
      var head := if IsMoveOf(ops[0], source, subject) then [] else [ops[0]];
      MovesOfConcat(head, WithoutMoves(ops[1..], source, subject), source, other);
      MovesOfOne(ops[0], source, other);
    }
  }

  /** At most one move is queued, and it ends at the path. */
  ghost predicate MovesEndAt(ops: seq<Op>, source: Source, subject: Subject, path: string) {
    var moves := MovesFor(ops, source, subject);
    moves == [] || (|moves| == 1 && moves[0].target == Some(path))
  }

  /**
    A note or a file renamed, however often before it is sent: at most one move is queued,
    it ends at its own path and starts at the path its remote file has kept throughout. The
    moves of nothing else change.
   */
  lemma RenameKeepsOrigin(
      ops: seq<Op>, source: Source, subject: Subject, isLinked: bool, path: string, from: string, other: Subject)
    ensures var after := QueueMove(ops, source, subject, isLinked, path, from);
            && MovesEndAt(after, source, subject, path)
            && (isLinked ==> RemotePath(after, source, subject, path) == RemotePath(ops, source, subject, from))
            && (other != subject ==> MovesFor(after, source, other) == MovesFor(ops, source, other))
  {
    hide MovesFor, WithoutMoves, MoveOp;
    var moves := MovesFor(ops, source, subject);
    if !(|moves| == 1 && moves[0].target == Some(path)) {
      var origin := if moves == [] then from else moves[0].path;
      var move := MoveOp(source, subject, origin, path);
      var tail := if isLinked && origin != path then [move] else [];
      MovesWithout(ops, source, subject, subject);
      MovesWithout(ops, source, subject, other);
      MovesOfConcat(WithoutMoves(ops, source, subject), tail, source, subject);
      MovesOfConcat(WithoutMoves(ops, source, subject), tail, source, other);
      MovesOfOne(move, source, subject);
      MovesOfOne(move, source, other);
      NoMovesOfNothing(source, subject);
      NoMovesOfNothing(source, other);
    }
  }

  lemma {:induction false} RepathedMoves(ops: seq<Op>, source: Source, id: Id, path: string, subject: Subject)
    ensures MovesFor(Repathed(ops, source, id, path), source, subject) == MovesFor(ops, source, subject)
  {
    if ops != [] {
      RepathedMoves(ops[1..], source, id, path, subject);
      assert Repathed(ops, source, id, path)[1..] == Repathed(ops[1..], source, id, path);
    }
  }

  // ----- All the notes and files -------------------------------------------------------

  /** Every note that landed, its move queued in turn. */
  function QueueMoves(ops: seq<Op>, source: Source, before: map<Id, Note>, after: map<Id, Note>, order: seq<Id>): seq<Op>
    requires forall id :: id in order ==> id in before && id in after
    decreases |order|
  {
    if order == [] then ops
    else
      var id := order[0];
      QueueMoves(QueueMove(ops, source, OfNote(id), after[id].remoteId.Some?, after[id].path, before[id].path),
                 source, before, after, order[1..])
  }

  function QueueFileMoves(ops: seq<Op>, source: Source, before: map<Id, File>, after: map<Id, File>, order: seq<Id>): seq<Op>
    requires forall id :: id in order ==> id in before && id in after
    decreases |order|
  {
    if order == [] then ops
    else
      QueueFileMoves(QueueMoveFile(ops, source, order[0], after[order[0]], before[order[0]].path), source, before, after, order[1..])
  }

  /** Each note of the turn is renamed once; nothing else is. */
  lemma {:induction false} QueuedInTurn(
      ops: seq<Op>, source: Source, before: map<Id, Note>, after: map<Id, Note>, order: seq<Id>, subject: Subject)
    requires forall each :: each in order ==> each in before && each in after
    requires forall i, j :: 0 <= i < j < |order| ==> order[i] != order[j]
    ensures var queued, id := QueueMoves(ops, source, before, after, order), subject.id;
            if subject.OfNote? && id in order then
              && MovesEndAt(queued, source, subject, after[id].path)
              && (after[id].remoteId.Some? ==>
                    RemotePath(queued, source, subject, after[id].path) == RemotePath(ops, source, subject, before[id].path))
            else MovesFor(queued, source, subject) == MovesFor(ops, source, subject)
    decreases |order|
  {
    hide MovesFor, QueueMove;
    if order != [] {
      var first := order[0];
      assert first in order && first !in order[1..];
      var queued := QueueMove(ops, source, OfNote(first), after[first].remoteId.Some?, after[first].path, before[first].path);
      RenameKeepsOrigin(ops, source, OfNote(first), after[first].remoteId.Some?, after[first].path, before[first].path, subject);
      QueuedInTurn(queued, source, before, after, order[1..], subject);
      assert subject.id in order ==> subject.id == first || subject.id in order[1..];
    }
  }

  lemma {:induction false} FilesInTurn(
      ops: seq<Op>, source: Source, before: map<Id, File>, after: map<Id, File>, order: seq<Id>, subject: Subject)
    requires forall each :: each in order ==> each in before && each in after
    requires forall i, j :: 0 <= i < j < |order| ==> order[i] != order[j]
    ensures var queued, id := QueueFileMoves(ops, source, before, after, order), subject.id;
            if subject.OfFile? && id in order && after[id].remoteId.Some? then
              && MovesEndAt(queued, source, subject, after[id].path)
              && RemotePath(queued, source, subject, after[id].path) == RemotePath(ops, source, subject, before[id].path)
            else MovesFor(queued, source, subject) == MovesFor(ops, source, subject)
    decreases |order|
  {
    hide MovesFor, QueueMove, Repathed;
    if order != [] {
      var first := order[0];
      assert first in order && first !in order[1..];
      RenameKeepsOrigin(ops, source, OfFile(first), true, after[first].path, before[first].path, subject);
      RepathedMoves(ops, source, first, after[first].path, subject);
      var queued := QueueMoveFile(ops, source, first, after[first], before[first].path);
      FilesInTurn(queued, source, before, after, order[1..], subject);
      assert subject.id in order ==> subject.id == first || subject.id in order[1..];
    }
  }

  /** A file not on the remote yet is uploaded at the path it has. */
  ghost predicate UploadsAt(ops: seq<Op>, source: Source, id: Id, path: string) {
    forall op :: op in ops && IsUploadOf(op, source, id) ==> op.path == path
  }

  lemma MoveKeepsUploads(ops: seq<Op>, source: Source, other: Id, file: File, from: string, id: Id, path: string)
    requires UploadsAt(ops, source, id, path) && other != id
    ensures UploadsAt(QueueMoveFile(ops, source, other, file, from), source, id, path)
  {
    hide WithoutMoves, MovesFor, MoveOp;
  }

  lemma RepathedUploads(ops: seq<Op>, source: Source, id: Id, path: string)
    ensures UploadsAt(Repathed(ops, source, id, path), source, id, path)
  {}

  lemma {:induction false} UploadsInTurn(
      ops: seq<Op>, source: Source, before: map<Id, File>, after: map<Id, File>, order: seq<Id>, id: Id, path: string)
    requires forall each :: each in order ==> each in before && each in after
    requires forall i, j :: 0 <= i < j < |order| ==> order[i] != order[j]
    requires id in order ==> after[id].remoteId.None? && after[id].path == path
    requires id !in order ==> UploadsAt(ops, source, id, path)
    ensures UploadsAt(QueueFileMoves(ops, source, before, after, order), source, id, path)
    decreases |order|
  {
    hide QueueMove, Repathed, UploadsAt;
    if order != [] {
      var first := order[0];
      assert first in order && first !in order[1..];
      if first == id {
        RepathedUploads(ops, source, id, path);
      } else if id !in order {
        MoveKeepsUploads(ops, source, first, after[first], before[first].path, id, path);
      }
      UploadsInTurn(QueueMoveFile(ops, source, first, after[first], before[first].path), source, before, after, order[1..], id, path);
    }
  }

  // ----- Directories -------------------------------------------------------------------

  predicate IsMkdirInside(op: Op, source: Source, path: string) {
    op.source == source && op.kind == Mkdir && IsWithin(op.path, path)
  }

  /** `withdrawMkdirs` */
  function WithdrawMkdirs(ops: seq<Op>, source: Source, path: string): (kept: seq<Op>)
    ensures forall op :: op in kept <==> op in ops && !IsMkdirInside(op, source, path)
  {
    if ops == [] then []
    else (if IsMkdirInside(ops[0], source, path) then [] else [ops[0]]) + WithdrawMkdirs(ops[1..], source, path)
  }

  predicate IsRmdirOf(op: Op, source: Source, path: string, remoteId: Id) {
    op.source == source && op.kind == Rmdir && op.path == path && op.remoteId == Some(remoteId)
  }

  /** `queueRmdir` */
  function QueueRmdir(ops: seq<Op>, source: Source, path: string, remoteId: Option<Id>): seq<Op> {
    if remoteId.None? || exists i :: 0 <= i < |ops| && IsRmdirOf(ops[i], source, path, remoteId.value) then ops
    else ops + [Op(source, Rmdir, None, None, path, None, remoteId)]
  }

  function QueueRmdirs(ops: seq<Op>, source: Source, folders: map<string, Folder>, order: seq<string>): seq<Op>
    requires forall path :: path in order ==> path in folders
    decreases |order|
  {
    if order == [] then ops
    else QueueRmdirs(QueueRmdir(ops, source, order[0], folders[order[0]].remoteId), source, folders, order[1..])
  }

  function MakeAll(paths: seq<string>): (owes: seq<Owe>)
    ensures |owes| == |paths| && forall i :: 0 <= i < |paths| ==> owes[i] == MakeNotebook(paths[i])
  {
    seq(|paths|, i requires 0 <= i < |paths| => MakeNotebook(paths[i]))
  }

  lemma {:induction false} WithdrawnMoves(ops: seq<Op>, source: Source, path: string, subject: Subject)
    ensures MovesFor(WithdrawMkdirs(ops, source, path), source, subject) == MovesFor(ops, source, subject)
  {
    hide IsWithin;
    if ops != [] {
      WithdrawnMoves(ops[1..], source, path, subject);
      var head := if IsMkdirInside(ops[0], source, path) then [] else [ops[0]];
      MovesOfConcat(head, WithdrawMkdirs(ops[1..], source, path), source, subject);
      MovesOfOne(ops[0], source, subject);
      NoMovesOfNothing(source, subject);
    }
  }

  lemma {:induction false} WithdrawnRmdirsMoves(ops: seq<Op>, source: Source, path: string, subject: Subject)
    ensures MovesFor(WithdrawRmdirs(ops, source, path), source, subject) == MovesFor(ops, source, subject)
  {
    hide AncestorPaths;
    if ops != [] {
      WithdrawnRmdirsMoves(ops[1..], source, path, subject);
      var head := if IsStale(ops[0], source, path) then [] else [ops[0]];
      MovesOfConcat(head, WithdrawRmdirs(ops[1..], source, path), source, subject);
      MovesOfOne(ops[0], source, subject);
      NoMovesOfNothing(source, subject);
    }
  }

  lemma {:induction false} MadeMoves(ops: seq<Op>, source: Source, owes: seq<Owe>, subject: Subject)
    requires forall i :: 0 <= i < |owes| ==> owes[i].MakeNotebook?
    ensures MovesFor(QueueAll(ops, source, owes), source, subject) == MovesFor(ops, source, subject)
    decreases |owes|
  {
    hide MovesFor, WithdrawRmdirs;
    if owes != [] {
      var path := owes[0].path;
      var kept := WithdrawRmdirs(ops, source, path);
      var op := Op(source, Mkdir, None, None, path, None, None);
      WithdrawnRmdirsMoves(ops, source, path, subject);
      MovesOfConcat(kept, [op], source, subject);
      MovesOfOne(op, source, subject);
      MadeMoves(QueueOne(ops, source, owes[0]), source, owes[1..], subject);
    }
  }

  lemma {:induction false} RmdirsMoves(
      ops: seq<Op>, source: Source, folders: map<string, Folder>, order: seq<string>, subject: Subject)
    requires forall path :: path in order ==> path in folders
    ensures MovesFor(QueueRmdirs(ops, source, folders, order), source, subject) == MovesFor(ops, source, subject)
    decreases |order|
  {
    hide MovesFor;
    if order != [] {
      var op := Op(source, Rmdir, None, None, order[0], None, folders[order[0]].remoteId);
      MovesOfConcat(ops, [op], source, subject);
      MovesOfOne(op, source, subject);
      RmdirsMoves(QueueRmdir(ops, source, order[0], folders[order[0]].remoteId), source, folders, order[1..], subject);
    }
  }

  /** Every directory left that the remote has is to be removed, behind everything queued before. */
  lemma {:induction false} RmdirsComeLast(ops: seq<Op>, source: Source, folders: map<string, Folder>, order: seq<string>)
    requires forall path :: path in order ==> path in folders
    ensures var queued := QueueRmdirs(ops, source, folders, order);
            && ops <= queued
            && (forall i :: |ops| <= i < |queued| ==> queued[i].kind == Rmdir && queued[i].source == source)
            && (forall path :: path in order && folders[path].remoteId.Some? ==>
                  exists op :: op in queued && IsRmdirOf(op, source, path, folders[path].remoteId.value))
    decreases |order|
  {
    if order != [] {
      var first, remoteId := order[0], folders[order[0]].remoteId;
      var next := QueueRmdir(ops, source, first, remoteId);
      RmdirsComeLast(next, source, folders, order[1..]);
      var queued := QueueRmdirs(next, source, folders, order[1..]);
      if remoteId.Some? {
        OneRmdir(ops, source, first, remoteId);
        var op :| op in next && IsRmdirOf(op, source, first, remoteId.value);
        assert op in queued;
      }
    }
  }

  lemma OneRmdir(ops: seq<Op>, source: Source, path: string, remoteId: Option<Id>)
    requires remoteId.Some?
    ensures exists op :: op in QueueRmdir(ops, source, path, remoteId) && IsRmdirOf(op, source, path, remoteId.value)
  {
    var op := Op(source, Rmdir, None, None, path, None, remoteId);
    assert IsRmdirOf(op, source, path, remoteId.value);
    if i :| 0 <= i < |ops| && IsRmdirOf(ops[i], source, path, remoteId.value) {
      assert ops[i] in QueueRmdir(ops, source, path, remoteId);
    } else {
      assert (ops + [op])[|ops|] == op;
    }
  }

  // ----- The whole queue ---------------------------------------------------------------

  /** The turn everything is queued in: notebooks made, files carried, notes landed, directories left. */
  datatype Turn = Turn(makes: seq<string>, carried: seq<Id>, landed: seq<Id>, leaving: seq<string>)

  ghost predicate IsTurnOf(before: Rows, after: Rows, turn: Turn) {
    && (forall id :: id in turn.carried ==> id in before.files && id in after.files)
    && (forall id :: id in turn.landed ==> id in before.notes && id in after.notes)
    && (forall path :: path in turn.leaving ==> path in before.folders)
    && (forall i, j :: 0 <= i < j < |turn.carried| ==> turn.carried[i] != turn.carried[j])
    && (forall i, j :: 0 <= i < j < |turn.landed| ==> turn.landed[i] != turn.landed[j])
  }

  /** The queue with the notebooks made and everything moved, before any directory is removed. */
  function OpsMoved(ops: seq<Op>, source: Source, before: Rows, after: Rows, src: string, turn: Turn): seq<Op>
    requires IsTurnOf(before, after, turn)
  {
    var made := QueueAll(ops, source, MakeAll(turn.makes));
    var carried := QueueFileMoves(made, source, before.files, after.files, turn.carried);
    WithdrawMkdirs(QueueMoves(carried, source, before.notes, after.notes, turn.landed), source, src)
  }

  function OpsAfter(ops: seq<Op>, source: Source, before: Rows, after: Rows, src: string, turn: Turn): seq<Op>
    requires IsTurnOf(before, after, turn)
  {
    QueueRmdirs(OpsMoved(ops, source, before, after, src, turn), source, before.folders, turn.leaving)
  }

  /** Each note of a notebook that moved has its one move queued, and so has each file the remote has. */
  lemma MovesAreQueued(ops: seq<Op>, source: Source, before: Rows, after: Rows, src: string, turn: Turn, subject: Subject)
    requires IsTurnOf(before, after, turn)
    ensures var queued, id := OpsAfter(ops, source, before, after, src, turn), subject.id;
            if subject.OfNote? && id in turn.landed then
              && MovesEndAt(queued, source, subject, after.notes[id].path)
              && (after.notes[id].remoteId.Some? ==>
                    RemotePath(queued, source, subject, after.notes[id].path)
                    == RemotePath(ops, source, subject, before.notes[id].path))
            else if subject.OfFile? && id in turn.carried && after.files[id].remoteId.Some? then
              && MovesEndAt(queued, source, subject, after.files[id].path)
              && RemotePath(queued, source, subject, after.files[id].path)
                 == RemotePath(ops, source, subject, before.files[id].path)
            else MovesFor(queued, source, subject) == MovesFor(ops, source, subject)
  {
    hide MovesFor, QueueMoves, QueueFileMoves, QueueAll, WithdrawMkdirs, QueueRmdirs;
    var made := QueueAll(ops, source, MakeAll(turn.makes));
    var carried := QueueFileMoves(made, source, before.files, after.files, turn.carried);
    var landed := QueueMoves(carried, source, before.notes, after.notes, turn.landed);
    MadeMoves(ops, source, MakeAll(turn.makes), subject);
    FilesInTurn(made, source, before.files, after.files, turn.carried, subject);
    QueuedInTurn(carried, source, before.notes, after.notes, turn.landed, subject);
    WithdrawnMoves(landed, source, src, subject);
    RmdirsMoves(WithdrawMkdirs(landed, source, src), source, before.folders, turn.leaving, subject);
  }

  // ----- What is made and what is removed ----------------------------------------------

  predicate IsDirectoryOp(op: Op) {
    op.kind == Mkdir || op.kind == Rmdir
  }

  predicate IsMove(op: Op) {
    op.kind == MoveNote || op.kind == MoveFile
  }

  lemma {:induction false} FileMovesKeepDirectories(
      ops: seq<Op>, source: Source, before: map<Id, File>, after: map<Id, File>, order: seq<Id>, op: Op)
    requires forall each :: each in order ==> each in before && each in after
    requires IsDirectoryOp(op)
    ensures op in QueueFileMoves(ops, source, before, after, order) <==> op in ops
    decreases |order|
  {
    hide QueueMoveFile;
    if order != [] {
      OneFileKeepsDirectories(ops, source, order[0], after[order[0]], before[order[0]].path, op);
      FileMovesKeepDirectories(
        QueueMoveFile(ops, source, order[0], after[order[0]], before[order[0]].path), source, before, after, order[1..], op);
    }
  }

  lemma OneFileKeepsDirectories(ops: seq<Op>, source: Source, id: Id, file: File, from: string, op: Op)
    requires IsDirectoryOp(op)
    ensures op in QueueMoveFile(ops, source, id, file, from) <==> op in ops
  {
    hide WithoutMoves, MovesFor;
    if file.remoteId.None? {
      var kept := Repathed(ops, source, id, file.path);
      if op in ops {
        var i :| 0 <= i < |ops| && ops[i] == op;
        assert kept[i] == op;
      }
      if op in kept {
        var i :| 0 <= i < |kept| && kept[i] == op;
        assert ops[i] == op;
      }
    } else {
      MoveKeepsOthers(ops, source, OfFile(id), true, file.path, from, op);
    }
  }

  lemma MoveKeepsOthers(
      ops: seq<Op>, source: Source, subject: Subject, isLinked: bool, path: string, from: string, op: Op)
    requires !IsMove(op)
    ensures op in QueueMove(ops, source, subject, isLinked, path, from) <==> op in ops
  {
    hide WithoutMoves, MovesFor;
  }

  lemma {:induction false} MovesKeepOthers(
      ops: seq<Op>, source: Source, before: map<Id, Note>, after: map<Id, Note>, order: seq<Id>, op: Op)
    requires forall each :: each in order ==> each in before && each in after
    requires !IsMove(op)
    ensures op in QueueMoves(ops, source, before, after, order) <==> op in ops
    decreases |order|
  {
    hide QueueMove;
    if order != [] {
      var id := order[0];
      var next := QueueMove(ops, source, OfNote(id), after[id].remoteId.Some?, after[id].path, before[id].path);
      MoveKeepsOthers(ops, source, OfNote(id), after[id].remoteId.Some?, after[id].path, before[id].path, op);
      MovesKeepOthers(next, source, before, after, order[1..], op);
    }
  }

  lemma DirectoriesMoved(ops: seq<Op>, source: Source, before: Rows, after: Rows, src: string, turn: Turn, op: Op)
    requires IsTurnOf(before, after, turn) && IsDirectoryOp(op)
    ensures op in OpsMoved(ops, source, before, after, src, turn)
            <==> op in QueueAll(ops, source, MakeAll(turn.makes)) && !IsMkdirInside(op, source, src)
  {
    hide QueueMoves, QueueFileMoves, QueueAll, WithdrawMkdirs, IsMkdirInside;
    var made := QueueAll(ops, source, MakeAll(turn.makes));
    var carried := QueueFileMoves(made, source, before.files, after.files, turn.carried);
    FileMovesKeepDirectories(made, source, before.files, after.files, turn.carried, op);
    MovesKeepOthers(carried, source, before.notes, after.notes, turn.landed, op);
  }

  /**
    Every notebook at the destination is to be made there, exactly where that is not
    inside what was left, and nothing inside what was left is to be made any more.
   */
  lemma NotebooksAreMadeIff(ops: seq<Op>, source: Source, before: Rows, after: Rows, src: string, turn: Turn, path: string)
    requires IsTurnOf(before, after, turn) && path in turn.makes
    ensures var queued := OpsAfter(ops, source, before, after, src, turn);
            && ((exists op :: op in queued && IsOwedBy(op, source, MakeNotebook(path))) <==> !IsWithin(path, src))
            && (forall op :: op in queued ==> !IsMkdirInside(op, source, src))
  {
    hide QueueAll, IsWithin, QueueRmdirs, OpsMoved;
    var owes := MakeAll(turn.makes);
    var moved, queued := OpsMoved(ops, source, before, after, src, turn), OpsAfter(ops, source, before, after, src, turn);
    QueueAllKeeps(ops, source, owes);
    RmdirsComeLast(moved, source, before.folders, turn.leaving);
    InSequence(turn.makes, path);
    assert MakeNotebook(path) in owes;
    forall op | op in queued && op.kind == Mkdir
      ensures op in moved && !IsMkdirInside(op, source, src)
    {
      var i :| 0 <= i < |queued| && queued[i] == op;
      assert i < |moved| && moved[i] == op;
      DirectoriesMoved(ops, source, before, after, src, turn, op);
    }
    var op :| op in QueueAll(ops, source, owes) && IsOwedBy(op, source, MakeNotebook(path));
    DirectoriesMoved(ops, source, before, after, src, turn, op);
    if !IsWithin(path, src) {
      assert op in moved && op in queued;
    }
  }

  lemma InSequence(paths: seq<string>, path: string)
    requires path in paths
    ensures MakeNotebook(path) in MakeAll(paths)
  {
    var i :| 0 <= i < |paths| && paths[i] == path;
    assert MakeAll(paths)[i] == MakeNotebook(path);
  }

  /**
    Every directory left that the remote has is to be removed, and nothing is queued
    behind a removal that was not there before but other removals: not a move out of it.
   */
  lemma DirectoriesGoLast(ops: seq<Op>, source: Source, before: Rows, after: Rows, src: string, turn: Turn)
    requires IsTurnOf(before, after, turn)
    ensures var queued := OpsAfter(ops, source, before, after, src, turn);
            && (forall path :: path in turn.leaving && before.folders[path].remoteId.Some? ==>
                  exists op :: op in queued && IsRmdirOf(op, source, path, before.folders[path].remoteId.value))
            && (forall i, j :: 0 <= i < j < |queued| && queued[i].kind == Rmdir && queued[i] !in ops ==> queued[j].kind == Rmdir)
  {
    hide QueueAll, QueueRmdirs, OpsMoved, IsMkdirInside;
    var moved, queued := OpsMoved(ops, source, before, after, src, turn), OpsAfter(ops, source, before, after, src, turn);
    RmdirsComeLast(moved, source, before.folders, turn.leaving);
    QueueAllKeeps(ops, source, MakeAll(turn.makes));
    forall i | 0 <= i < |moved| && moved[i].kind == Rmdir
      ensures moved[i] in ops
    {
      assert moved[i] in moved;
      DirectoriesMoved(ops, source, before, after, src, turn, moved[i]);
      MadeRmdirs(ops, source, turn.makes, moved[i]);
    }
    assert forall i :: 0 <= i < |moved| ==> queued[i] == moved[i];
  }

  lemma MadeRmdirs(ops: seq<Op>, source: Source, paths: seq<string>, op: Op)
    requires op in QueueAll(ops, source, MakeAll(paths)) && op.kind == Rmdir
    ensures op in ops
  {
    hide QueueAll;
    QueueAllKeeps(ops, source, MakeAll(paths));
    assert forall owe :: IsOwedBy(op, source, owe) ==> op.kind != Rmdir;
  }

  /** A file the remote does not have yet is uploaded, if it is queued to be, at the path it has now. */
  lemma UploadsFollow(ops: seq<Op>, source: Source, before: Rows, after: Rows, src: string, turn: Turn, id: Id)
    requires IsTurnOf(before, after, turn) && id in turn.carried && after.files[id].remoteId.None?
    ensures UploadsAt(OpsAfter(ops, source, before, after, src, turn), source, id, after.files[id].path)
  {
    hide QueueAll, QueueFileMoves, QueueMoves, WithdrawMkdirs, QueueRmdirs, IsMkdirInside;
    var made := QueueAll(ops, source, MakeAll(turn.makes));
    var carried := QueueFileMoves(made, source, before.files, after.files, turn.carried);
    var moved, queued := OpsMoved(ops, source, before, after, src, turn), OpsAfter(ops, source, before, after, src, turn);
    UploadsInTurn(made, source, before.files, after.files, turn.carried, id, after.files[id].path);
    RmdirsComeLast(moved, source, before.folders, turn.leaving);
    forall op | op in queued && IsUploadOf(op, source, id)
      ensures op.path == after.files[id].path
    {
      var i :| 0 <= i < |queued| && queued[i] == op;
      assert i < |moved| && moved[i] == op;
      MovesKeepOthers(carried, source, before.notes, after.notes, turn.landed, op);
    }
  }
}
