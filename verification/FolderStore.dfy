/**
  A notebook's move as it is carried out, rows and queue (`moveFolder` in
  apps/web/src/store/folders.ts).
 */
module FolderStore {
  import opened Options
  import opened Paths
  import opened Naming
  import opened Library
  import opened Unsynced
  import opened FolderMoves
  import opened FolderQueue
  import opened Transactions

  // ----- The move ----------------------------------------------------------------------

  /** The notebooks there are at the destination once it is ensured and the rows are put under it. */
  function MadeAt(rows: Rows, r: Rebase, now: int): set<string> {
    Ensured(rows.folders - FoldersInside(rows, r), r.dst, now).Keys
    + set path | path in FoldersInside(rows, r) :: RebasePath(path, r.src, r.dst)
  }

  /** Notebooks made and left outermost first; every file carried; the tombstones landed, and then the live notes. */
  ghost predicate IsTurn(rows: Rows, r: Rebase, p: FolderPlan, turn: Turn) {
    && Enumerates(turn.makes, MadeAt(rows, r, p.now)) && AreByDepth(turn.makes)
    && Enumerates(turn.carried, FilesInside(rows, r))
    && Enumerates(turn.landed, NotesInside(rows, r)) && (exists buried :: turn.landed == buried + p.live)
    && Enumerates(turn.leaving, FoldersInside(rows, r)) && AreByDepth(turn.leaving)
  }

  predicate AreByDepth(order: seq<string>) {
    forall i, j :: 0 <= i < j < |order| ==> PathDepth(order[i]) <= PathDepth(order[j])
  }

  lemma TurnIsOfRows(rows: Rows, r: Rebase, p: FolderPlan, turn: Turn)
    requires ValidFolderPlan(rows, r, p) && IsTurn(rows, r, p, turn)
    ensures IsTurnOf(rows, RowsAfter(rows, r, p), turn)
  {
    hide IsWithin, RebasePath, AreByDepth, FoldersAfter, Settle, Ensured;
    PlanIsOfRows(rows, r, p);
    assert forall id :: id in turn.carried ==> id in FilesInside(rows, r);
    assert forall id :: id in turn.landed ==> id in NotesInside(rows, r);
    assert forall path :: path in turn.leaving ==> path in FoldersInside(rows, r);
  }

  class Notebooks {
    const source: Source
    var rows: Rows
    var ops: seq<Op>

    constructor (source: Source, rows: Rows, ops: seq<Op>)
      ensures this.source == source && this.rows == rows && this.ops == ops
    {
      this.source, this.rows, this.ops := source, rows, ops;
    }

    /**
      A refusal changes nothing, and neither does a move of nothing. Any other move leaves
      the rows as `RowsAfter` says, and the queue as `OpsAfter` does.
     */
    method MoveFolder(from: string, to: string, now: int) returns (refusal: Option<Refusal>, ghost plan: FolderPlan, ghost turn: Turn)
      modifies this
      ensures refusal == Refused(old(rows), from, to)
      ensures !Proceeds(old(rows), from, to) ==> rows == old(rows) && ops == old(ops)
      ensures Proceeds(old(rows), from, to) ==>
                var r := Rebase(NormalizePath(from), NormalizePath(to));
                && ValidFolderPlan(old(rows), r, plan) && IsTurn(old(rows), r, plan, turn)
                && rows == RowsAfter(old(rows), r, plan)
                && IsTurnOf(old(rows), rows, turn)
                && ops == OpsAfter(old(ops), source, old(rows), rows, r.src, turn)
    {
      hide IsWithin, NormalizePath, RebasePath, FreePath, FoldersAfter, FilesAfter, QueueMove, QueueMoves, Settle,
        IsOccupied, OpsAfter, OpsMoved, Ensured, PathDepth;
      plan, turn := FolderPlan([], [], now), Turn([], [], [], []);
      refusal := Refused(rows, from, to);
      var r := Rebase(NormalizePath(from), NormalizePath(to));
      if refusal.Some? || r.src == r.dst || IsNothing(rows, r) { return; }
      var before := rows;
      var moving := OutermostFirst(FoldersInside(before, r));
      var live := Enumerate(LiveInside(before, r));
      var buried := Enumerate(NotesInside(before, r) - LiveInside(before, r));
      plan := FolderPlan(moving, live, now);
      PlanIsOfRows(before, r, plan);
      var settled := SettleAll(before, r, live);
      rows := Rows(NotesAt(before.notes, settled), FoldersAfter(before, r, moving, now), FilesAfter(before, r), before.bytes);
      LandedAreNotes(before, r, buried, live);
      var makes := OutermostFirst(MadeAt(before, r, now));
      var carried := Enumerate(FilesInside(before, r));
      var queueing := Turn(makes, carried, buried + live, moving);
      turn := queueing;
      TurnIsOfRows(before, r, plan, turn);
      ops := QueueInTurn(ops, source, before, rows, r.src, queueing);
    }
  }

  /** The queue written to op by op: notebooks, files, notes, and then the directories left. */
  method QueueInTurn(ops: seq<Op>, source: Source, before: Rows, after: Rows, src: string, turn: Turn) returns (queued: seq<Op>)
    requires IsTurnOf(before, after, turn)
    ensures queued == OpsAfter(ops, source, before, after, src, turn)
  {
    hide QueueMove, QueueMoveFile, QueueOne, QueueRmdir, WithdrawMkdirs;
    queued := MakeInTurn(ops, source, turn.makes);
    queued := CarryInTurn(queued, source, before.files, after.files, turn.carried);
    queued := LandInTurn(queued, source, before.notes, after.notes, turn.landed);
    queued := WithdrawMkdirs(queued, source, src);
    queued := LeaveInTurn(queued, source, before.folders, turn.leaving);
  }

  method MakeInTurn(ops: seq<Op>, source: Source, paths: seq<string>) returns (queued: seq<Op>)
    ensures queued == QueueAll(ops, source, MakeAll(paths))
  {
    hide QueueOne;
    queued := ops;
    ghost var owes := MakeAll(paths);
    assert owes[0..] == owes;
    for i := 0 to |paths|
      invariant QueueAll(ops, source, owes) == QueueAll(queued, source, owes[i..])
    {
      assert owes[i..][0] == owes[i] && owes[i..][1..] == owes[i + 1..];
      queued := QueueOne(queued, source, MakeNotebook(paths[i]));
    }
    assert owes[|owes|..] == [];
  }

  method CarryInTurn(ops: seq<Op>, source: Source, before: map<Id, File>, after: map<Id, File>, order: seq<Id>) returns (queued: seq<Op>)
    requires forall id :: id in order ==> id in before && id in after
    ensures queued == QueueFileMoves(ops, source, before, after, order)
  {
    hide QueueMoveFile;
    queued := ops;
    assert order[0..] == order;
    for i := 0 to |order|
      invariant QueueFileMoves(ops, source, before, after, order) == QueueFileMoves(queued, source, before, after, order[i..])
    {
      assert order[i..][0] == order[i] && order[i..][1..] == order[i + 1..] && order[i] in order;
      queued := QueueMoveFile(queued, source, order[i], after[order[i]], before[order[i]].path);
    }
    assert order[|order|..] == [];
  }

  method LandInTurn(ops: seq<Op>, source: Source, before: map<Id, Note>, after: map<Id, Note>, order: seq<Id>) returns (queued: seq<Op>)
    requires forall id :: id in order ==> id in before && id in after
    ensures queued == QueueMoves(ops, source, before, after, order)
  {
    hide QueueMove;
    queued := ops;
    assert order[0..] == order;
    for i := 0 to |order|
      invariant QueueMoves(ops, source, before, after, order) == QueueMoves(queued, source, before, after, order[i..])
    {
      var id := order[i];
      assert order[i..][0] == id && order[i..][1..] == order[i + 1..] && id in order;
      queued := QueueMove(queued, source, OfNote(id), after[id].remoteId.Some?, after[id].path, before[id].path);
    }
    assert order[|order|..] == [];
  }

  method LeaveInTurn(ops: seq<Op>, source: Source, folders: map<string, Folder>, order: seq<string>) returns (queued: seq<Op>)
    requires forall path :: path in order ==> path in folders
    ensures queued == QueueRmdirs(ops, source, folders, order)
  {
    hide QueueRmdir;
    queued := ops;
    assert order[0..] == order;
    for i := 0 to |order|
      invariant QueueRmdirs(ops, source, folders, order) == QueueRmdirs(queued, source, folders, order[i..])
    {
      assert order[i..][0] == order[i] && order[i..][1..] == order[i + 1..] && order[i] in order;
      queued := QueueRmdir(queued, source, order[i], folders[order[i]].remoteId);
    }
    assert order[|order|..] == [];
  }

  lemma LandedAreNotes(rows: Rows, r: Rebase, buried: seq<Id>, live: seq<Id>)
    requires Enumerates(live, LiveInside(rows, r)) && Enumerates(buried, NotesInside(rows, r) - LiveInside(rows, r))
    ensures Enumerates(buried + live, NotesInside(rows, r))
    ensures forall id :: id in buried + live ==> id in rows.notes
  {
    hide IsWithin;
    var order := buried + live;
    assert forall id :: id in order <==> id in buried || id in live;
    assert forall id :: id in buried ==> id in NotesInside(rows, r) - LiveInside(rows, r);
    assert forall id :: id in live ==> id in LiveInside(rows, r);
    forall i, j | 0 <= i < j < |order|
      ensures order[i] != order[j]
    {
      if i < |buried| && j >= |buried| {
        assert order[i] in buried && order[j] in live;
      }
    }
  }

  /** The live notes in turn, each taking its path out of circulation. */
  method SettleAll(rows: Rows, r: Rebase, order: seq<Id>) returns (settled: map<Id, string>)
    requires Enumerates(order, LiveInside(rows, r))
    ensures forall id :: id in order ==> id in rows.notes
    ensures settled == Settle(rows, r, SettledFirst(rows, r), order)
  {
    hide IsWithin, RebasePath, FreePath;
    assert forall id :: id in order ==> id in LiveInside(rows, r);
    LiveAreNotFirst(rows, r);
    settled := SettledFirst(rows, r);
    var taken := settled.Values;
    assert order[0..] == order;
    for i := 0 to |order|
      invariant Settle(rows, r, SettledFirst(rows, r), order) == Settle(rows, r, settled, order[i..])
      invariant taken == settled.Values
      invariant forall j :: i <= j < |order| ==> order[j] !in settled
    {
      var id := order[i];
      assert order[i..][0] == id && order[i..][1..] == order[i + 1..] && id in order;
      var path := FreePath(RebasePath(rows.notes[id].path, r.src, r.dst), taken);
      PathsGrow(settled, id, path);
      settled := settled[id := path];
      taken := taken + {path};
    }
    assert order[|order|..] == [];
  }

  lemma PathsGrow(settled: map<Id, string>, id: Id, path: string)
    requires id !in settled
    ensures settled[id := path].Values == settled.Values + {path}
  {
    var more := settled[id := path];
    forall each | each in settled.Values + {path}
      ensures each in more.Values
    {
      if each == path {
        assert more[id] == path;
      } else {
        var i :| i in settled && settled[i] == each;
        assert more[i] == each;
      }
    }
  }
}
