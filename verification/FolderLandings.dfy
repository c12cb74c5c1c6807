/**
  Where each live note of a notebook that moves lands, said of the rows afterwards
  (`moveFolder` in apps/web/src/store/folders.ts): at the very path its own leads to wherever
  nothing settled before it is there, and otherwise beside that, under the first free number.
 */
module FolderLandings {
  import opened Options
  import opened Paths
  import opened Naming
  import opened Library
  import opened MoveSpellings
  import opened FolderMoves

  /** Where a note's path leads under the destination. */
  function Wanted(rows: Rows, r: Rebase, id: Id): string
    requires id in rows.notes
  {
    RebasePath(rows.notes[id].path, r.src, r.dst)
  }

  /** The notes settled before the one read at `i`: those outside, the tombstones, and the live ones read before it. */
  predicate IsSettledBefore(rows: Rows, r: Rebase, order: seq<Id>, i: nat, other: Id)
    requires i <= |order|
  {
    other in rows.notes
    && (!IsWithin(rows.notes[other].path, r.src) || rows.notes[other].deleted || other in order[..i])
  }

  /** The paths of those, as the notes are afterwards. */
  function PathsBefore(rows: Rows, r: Rebase, after: map<Id, Note>, order: seq<Id>, i: nat): set<string>
    requires i <= |order|
  {
    set other | other in after && IsSettledBefore(rows, r, order, i, other) :: after[other].path
  }

  // ----- Settling, one by one ----------------------------------------------------------

  function PathsOf(paths: map<Id, string>, first: set<Id>, order: seq<Id>): set<string> {
    set id | id in paths && (id in first || id in order) :: paths[id]
  }

  lemma {:induction false} SettlesAt(rows: Rows, r: Rebase, settled: map<Id, string>, order: seq<Id>, i: nat)
    requires forall id :: id in order ==> id in rows.notes && id !in settled
    requires forall a, b :: 0 <= a < b < |order| ==> order[a] != order[b]
    requires i < |order|
    ensures var after := Settle(rows, r, settled, order);
            && order[i] in rows.notes && order[i] in after
            && after[order[i]] == FreePath(Wanted(rows, r, order[i]), PathsOf(after, settled.Keys, order[..i]))
    decreases |order|
  {
    hide FreePath, RebasePath, Settle, PathsOf;
    var id := order[0];
    assert id in order;
    SettleUnfolds(rows, r, settled, order);
    var more := settled[id := FreePath(Wanted(rows, r, id), settled.Values)];
    assert forall each :: each in order[1..] ==> each in order && each != id;
    SettleStays(rows, r, settled, order);
    SettleStays(rows, r, more, order[1..]);
    var after := Settle(rows, r, settled, order);
    if i == 0 {
      assert order[..0] == [];
      SameValues(settled, after);
      assert id in more && after[id] == more[id];
    } else {
      SettlesAt(rows, r, more, order[1..], i - 1);
      assert order[1..][i - 1] == order[i];
      assert order[..i] == [id] + order[1..][..i - 1];
      assert more.Keys == settled.Keys + {id};
      OneSettled(after, settled.Keys, id, order[1..][..i - 1]);
    }
  }

  lemma OneSettled(paths: map<Id, string>, first: set<Id>, id: Id, order: seq<Id>)
    ensures PathsOf(paths, first + {id}, order) == PathsOf(paths, first, [id] + order)
  {}

  lemma SettleUnfolds(rows: Rows, r: Rebase, settled: map<Id, string>, order: seq<Id>)
    requires order != [] && forall id :: id in order ==> id in rows.notes
    ensures order[0] in order
    ensures Settle(rows, r, settled, order)
            == Settle(rows, r, settled[order[0] := FreePath(Wanted(rows, r, order[0]), settled.Values)], order[1..])
  {
    hide FreePath, RebasePath;
  }

  /** What is settled stays settled. */
  lemma SettleStays(rows: Rows, r: Rebase, settled: map<Id, string>, order: seq<Id>)
    requires forall id :: id in order ==> id in rows.notes && id !in settled
    requires forall a, b :: 0 <= a < b < |order| ==> order[a] != order[b]
    ensures var after := Settle(rows, r, settled, order);
            && after.Keys == settled.Keys + Members(order) && forall id :: id in settled ==> after[id] == settled[id]
  {
    hide FoldPath, FreePath, RebasePath, Settle;
    LiveLandApart(rows, r, settled, {}, order);
  }

  lemma SameValues(settled: map<Id, string>, after: map<Id, string>)
    requires forall id :: id in settled ==> id in after && after[id] == settled[id]
    ensures PathsOf(after, settled.Keys, []) == settled.Values
  {
    forall path | path in settled.Values
      ensures path in PathsOf(after, settled.Keys, [])
    {
      var id :| id in settled && settled[id] == path;
      assert id in after && after[id] == path;
    }
  }

  // ----- Where a live note lands -------------------------------------------------------

  /** A live note lands at the free path nearest the one its own leads to. */
  lemma LandsFree(rows: Rows, r: Rebase, p: FolderPlan, i: nat)
    requires ValidFolderPlan(rows, r, p) && i < |p.live|
    ensures var after := RowsAfter(rows, r, p).notes;
            && p.live[i] in rows.notes && p.live[i] in after
            && after[p.live[i]].path == FreePath(Wanted(rows, r, p.live[i]), PathsBefore(rows, r, after, p.live, i))
  {
    PlanIsOfRows(rows, r, p);
    SettledPathsAre(rows, r, p);
    LiveAreNotFirst(rows, r);
    OrderIsLive(rows, r, p);
    hide FreePath, RebasePath, Settle, RowsAfter, IsWithin, FoldPath, LiveInside, SettledFirst, ValidFolderPlan, PathsOf;
    SettlesAt(rows, r, SettledFirst(rows, r), p.live, i);
    SamePathsBefore(rows, r, Settle(rows, r, SettledFirst(rows, r), p.live), RowsAfter(rows, r, p).notes, p.live, i);
  }

  lemma OrderIsLive(rows: Rows, r: Rebase, p: FolderPlan)
    requires ValidFolderPlan(rows, r, p)
    ensures forall id :: id in p.live ==> id in LiveInside(rows, r) && id in rows.notes
    ensures forall a, b :: 0 <= a < b < |p.live| ==> p.live[a] != p.live[b]
  {
    hide IsWithin;
    assert forall id :: id in p.live ==> id in LiveInside(rows, r);
  }

  /** The notes afterwards are where they were settled. */
  lemma SettledPathsAre(rows: Rows, r: Rebase, p: FolderPlan)
    requires ValidFolderPlan(rows, r, p)
    ensures forall id :: id in p.live ==> id in rows.notes
    ensures var settled, after := Settle(rows, r, SettledFirst(rows, r), p.live), RowsAfter(rows, r, p).notes;
            settled.Keys == rows.notes.Keys && after.Keys == rows.notes.Keys
            && forall id :: id in after ==> after[id].path == settled[id]
  {
    AllSettled(rows, r, p);
    hide FreePath, RebasePath, Settle, FoldersAfter, FilesAfter, IsWithin, FoldPath, SettledFirst, Apart;
  }

  lemma SamePathsBefore(rows: Rows, r: Rebase, settled: map<Id, string>, after: map<Id, Note>, order: seq<Id>, i: nat)
    requires i <= |order| && forall id :: id in order ==> id in rows.notes
    requires settled.Keys == after.Keys && forall id :: id in after ==> after[id].path == settled[id]
    ensures PathsOf(settled, SettledFirst(rows, r).Keys, order[..i]) == PathsBefore(rows, r, after, order, i)
  {
    SettledBeforeAre(rows, r, order, i);
    hide IsSettledBefore, SettledFirst;
  }

  lemma SettledBeforeAre(rows: Rows, r: Rebase, order: seq<Id>, i: nat)
    requires i <= |order| && forall id :: id in order ==> id in rows.notes
    ensures forall id :: IsSettledBefore(rows, r, order, i, id) <==> id in SettledFirst(rows, r) || id in order[..i]
  {
    hide IsWithin, RebasePath;
    assert forall id :: id in order[..i] ==> id in order;
  }

  /**
    A live note lands in the folder its path leads to, and at that very path exactly when no
    note settled before it is there: none outside, no tombstone, and none read before it.
   */
  lemma LandsWhereWantedIff(rows: Rows, r: Rebase, p: FolderPlan, i: nat)
    requires ValidFolderPlan(rows, r, p) && i < |p.live|
    ensures var after, id := RowsAfter(rows, r, p).notes, p.live[i];
            && id in rows.notes && id in after
            && FoldPath(ParentPath(after[id].path)) == FoldPath(ParentPath(Wanted(rows, r, id)))
            && (PathSegments(Wanted(rows, r, id)) != [] ==> ParentPath(after[id].path) == ParentPath(Wanted(rows, r, id)))
            && (after[id].path == Wanted(rows, r, id) <==>
                  forall other :: other in after && IsSettledBefore(rows, r, p.live, i, other) ==>
                    FoldPath(after[other].path) != FoldPath(Wanted(rows, r, id)))
  {
    LandsFree(rows, r, p, i);
    hide FreePath, RebasePath, RowsAfter, IsSettledBefore, FoldPath, ParentPath, PathSegments;
    var after, wanted := RowsAfter(rows, r, p).notes, Wanted(rows, r, p.live[i]);
    var taken := PathsBefore(rows, r, after, p.live, i);
    FreePathIsFree(wanted, taken);
    if PathSegments(wanted) != [] {
      FreeIsInTheSameNotebook(wanted, taken);
    }
    FreeIffFree(wanted, taken);
    if other :| other in after && IsSettledBefore(rows, r, p.live, i, other) && FoldPath(after[other].path) == FoldPath(wanted) {
      assert after[other].path in taken && FoldPath(after[other].path) in FoldedPaths(taken);
    }
  }

  lemma FreeIffFree(wanted: string, taken: set<string>)
    ensures FreePath(wanted, taken) == wanted <==> !Occupied(wanted, taken)
  {
    hide FoldPath, FreePath;
    FreePathIsFree(wanted, taken);
  }

  /** No note that stays, and no tombstone that moves, is at the place a live note's path leads to. */
  ghost predicate IsClear(rows: Rows, r: Rebase, id: Id)
    requires id in rows.notes
  {
    && (forall other :: other in rows.notes && !IsWithin(rows.notes[other].path, r.src) ==>
          FoldPath(rows.notes[other].path) != FoldPath(Wanted(rows, r, id)))
    && (forall other :: other in rows.notes && IsWithin(rows.notes[other].path, r.src) && rows.notes[other].deleted ==>
          FoldPath(Wanted(rows, r, other)) != FoldPath(Wanted(rows, r, id)))
  }

  /** The live notes that move go to different places. */
  ghost predicate WantApart(rows: Rows, r: Rebase) {
    forall i, j :: i in LiveInside(rows, r) && j in LiveInside(rows, r) && i != j ==>
      i in rows.notes && j in rows.notes && FoldPath(Wanted(rows, r, i)) != FoldPath(Wanted(rows, r, j))
  }

  /** So where nothing is in their way and none is in another's, every live note lands exactly where its path leads. */
  lemma {:induction false} AllLandWhereWanted(rows: Rows, r: Rebase, p: FolderPlan, i: nat)
    requires ValidFolderPlan(rows, r, p) && i <= |p.live| && WantApart(rows, r)
    requires forall id :: id in LiveInside(rows, r) ==> id in rows.notes && IsClear(rows, r, id)
    ensures var after := RowsAfter(rows, r, p).notes;
            forall k :: 0 <= k < i ==>
              p.live[k] in rows.notes && p.live[k] in after && after[p.live[k]].path == Wanted(rows, r, p.live[k])
  {
    hide FoldPath, RebasePath, RowsAfter, IsWithin, IsClear, WantApart, LiveInside;
    if i > 0 {
      AllLandWhereWanted(rows, r, p, i - 1);
      LandsWhereWantedIff(rows, r, p, i - 1);
      NothingIsInTheWay(rows, r, p, i - 1);
    }
  }

  lemma NothingIsInTheWay(rows: Rows, r: Rebase, p: FolderPlan, i: nat)
    requires ValidFolderPlan(rows, r, p) && i < |p.live| && WantApart(rows, r) && p.live[i] in rows.notes
    requires IsClear(rows, r, p.live[i])
    requires var after := RowsAfter(rows, r, p).notes;
             forall k :: 0 <= k < i ==>
               p.live[k] in rows.notes && p.live[k] in after && after[p.live[k]].path == Wanted(rows, r, p.live[k])
    ensures var after := RowsAfter(rows, r, p).notes;
            forall other :: other in after && IsSettledBefore(rows, r, p.live, i, other) ==>
              FoldPath(after[other].path) != FoldPath(Wanted(rows, r, p.live[i]))
  {
    NotesLandApart(rows, r, p);
    hide FoldPath, RebasePath, RowsAfter, IsWithin;
    var after, id := RowsAfter(rows, r, p).notes, p.live[i];
    assert id in p.live && id in LiveInside(rows, r);
    forall other | other in after && IsSettledBefore(rows, r, p.live, i, other)
      ensures FoldPath(after[other].path) != FoldPath(Wanted(rows, r, id))
    {
      if other in p.live[..i] {
        var k :| 0 <= k < i && p.live[k] == other;
        assert other in p.live && other in LiveInside(rows, r) && other != id;
      }
    }
  }
}
