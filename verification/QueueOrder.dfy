/**
  The order in which what is owed at once is queued (`queueByNotebook`, `preOrder` in
  apps/web/src/store/queue.ts, `queueOwed` in apps/web/src/store/connection.ts): notebook
  by notebook, each made before anything inside it, and files before notes.
 */
module QueueOrder {
  import opened Options
  import opened Paths
  import opened Naming
  import opened Library
  import opened MoveRows
  import opened Unsynced

  /** How names are compared: any two are, and what compares equal compares alike with everything. */
  ghost predicate IsCollation(compare: (string, string) -> int) {
    && (forall a, b :: compare(a, b) < 0 <==> compare(b, a) > 0)
    && (forall a, b, c :: compare(a, b) <= 0 && compare(b, c) <= 0 ==> compare(a, c) <= 0)
  }

  type Collation = compare: (string, string) -> int | IsCollation(compare) ghost witness (a, b) => 0

  /** Depth first: a notebook comes before those inside it, and of two beside each other the one whose name does. */
  function PreOrder(compare: Collation, a: seq<string>, b: seq<string>): int {
    if a == [] || b == [] then |a| - |b|
    else if compare(a[0], b[0]) != 0 then compare(a[0], b[0])
    else PreOrder(compare, a[1..], b[1..])
  }

  /** The folded names of the notebook something owed is in; a notebook is in itself. */
  function NotebookOf(owe: Owe): seq<string> {
    match owe
    case MakeNotebook(path) => FoldSegments(path)
    case SendFile(_, path) => FoldSegments(ParentPath(path))
    case WriteNote(_, path) => FoldSegments(ParentPath(path))
  }

  function Rank(owe: Owe): nat {
    match owe
    case MakeNotebook(_) => 0
    case SendFile(_, _) => 1
    case WriteNote(_, _) => 2
  }

  function ByNotebook(compare: Collation): (Owe, Owe) -> int {
    (x: Owe, y: Owe) =>
      if PreOrder(compare, NotebookOf(x), NotebookOf(y)) != 0 then PreOrder(compare, NotebookOf(x), NotebookOf(y))
      else Rank(x) - Rank(y)
  }

  function ByPath(compare: Collation): (Owe, Owe) -> int {
    (x: Owe, y: Owe) => compare(x.path, y.path)
  }

  // ----- Comparisons -------------------------------------------------------------------

  /** A comparison by which things can be sorted. */
  ghost predicate IsOrder(order: (Owe, Owe) -> int) {
    && (forall x, y :: order(x, y) < 0 <==> order(y, x) > 0)
    && (forall x, y, z :: order(x, y) <= 0 && order(y, z) <= 0 ==> order(x, z) <= 0)
  }

  lemma {:induction false} PreOrderReversed(compare: Collation, a: seq<string>, b: seq<string>)
    ensures PreOrder(compare, a, b) < 0 <==> PreOrder(compare, b, a) > 0
  {
    if a != [] && b != [] {
      PreOrderReversed(compare, a[1..], b[1..]);
      assert compare(a[0], b[0]) < 0 <==> compare(b[0], a[0]) > 0;
      assert compare(b[0], a[0]) < 0 <==> compare(a[0], b[0]) > 0;
    }
  }

  lemma {:induction false} PreOrderTransitive(compare: Collation, a: seq<string>, b: seq<string>, c: seq<string>)
    requires PreOrder(compare, a, b) <= 0 && PreOrder(compare, b, c) <= 0
    ensures PreOrder(compare, a, c) <= 0
    ensures PreOrder(compare, a, c) == 0 ==> PreOrder(compare, a, b) == 0 && PreOrder(compare, b, c) == 0
  {
    if a != [] && b != [] && c != [] {
      NamesTransitive(compare, a[0], b[0], c[0]);
      if compare(a[0], b[0]) == 0 && compare(b[0], c[0]) == 0 {
        PreOrderTransitive(compare, a[1..], b[1..], c[1..]);
      }
    }
  }

  lemma NamesTransitive(compare: Collation, a: string, b: string, c: string)
    ensures compare(a, b) <= 0 && compare(b, c) <= 0 ==> compare(a, c) <= 0
    ensures compare(a, b) <= 0 && compare(b, c) <= 0 && compare(a, c) == 0 ==> compare(a, b) == 0 && compare(b, c) == 0
  {
    if compare(a, b) <= 0 && compare(b, c) <= 0 && compare(a, c) == 0 {
      assert compare(c, a) <= 0 by {
        assert compare(a, c) < 0 <==> compare(c, a) > 0;
      }
      assert compare(b, a) <= 0;
      assert compare(c, b) <= 0;
      assert compare(a, b) < 0 <==> compare(b, a) > 0;
      assert compare(b, c) < 0 <==> compare(c, b) > 0;
    }
  }

  lemma ByNotebookIsOrder(compare: Collation)
    ensures IsOrder(ByNotebook(compare))
  {
    hide NotebookOf, PreOrder;
    var order := ByNotebook(compare);
    forall x, y
      ensures order(x, y) < 0 <==> order(y, x) > 0
    {
      PreOrderReversed(compare, NotebookOf(x), NotebookOf(y));
      PreOrderReversed(compare, NotebookOf(y), NotebookOf(x));
    }
    forall x, y, z | order(x, y) <= 0 && order(y, z) <= 0
      ensures order(x, z) <= 0
    {
      PreOrderTransitive(compare, NotebookOf(x), NotebookOf(y), NotebookOf(z));
    }
  }

  lemma ByPathIsOrder(compare: Collation)
    ensures IsOrder(ByPath(compare))
  {
    var order := ByPath(compare);
    forall x, y, z | order(x, y) <= 0 && order(y, z) <= 0
      ensures order(x, z) <= 0
    {
      NamesTransitive(compare, x.path, y.path, z.path);
    }
    forall x, y
      ensures order(x, y) < 0 <==> order(y, x) > 0
    {
      assert compare(x.path, y.path) < 0 <==> compare(y.path, x.path) > 0;
    }
  }

  // ----- Sorting -----------------------------------------------------------------------

  /** Before everything it does not come after. */
  function Inserted(order: (Owe, Owe) -> int, owe: Owe, owes: seq<Owe>): seq<Owe> {
    if owes == [] || order(owe, owes[0]) <= 0 then [owe] + owes
    else [owes[0]] + Inserted(order, owe, owes[1..])
  }

  /** A stable sort. */
  function Sorted(order: (Owe, Owe) -> int, owes: seq<Owe>): seq<Owe> {
    if owes == [] then [] else Inserted(order, owes[0], Sorted(order, owes[1..]))
  }

  ghost predicate InOrder(order: (Owe, Owe) -> int, owes: seq<Owe>) {
    forall i, j :: 0 <= i < j < |owes| ==> order(owes[i], owes[j]) <= 0
  }

  lemma {:induction false} InsertedHas(order: (Owe, Owe) -> int, owe: Owe, owes: seq<Owe>)
    ensures multiset(Inserted(order, owe, owes)) == multiset(owes) + multiset{owe}
  {
    if owes != [] && order(owe, owes[0]) > 0 {
      InsertedHas(order, owe, owes[1..]);
      assert owes == [owes[0]] + owes[1..];
    }
  }

  lemma {:induction false} SortedHas(order: (Owe, Owe) -> int, owes: seq<Owe>)
    ensures multiset(Sorted(order, owes)) == multiset(owes)
  {
    if owes != [] {
      SortedHas(order, owes[1..]);
      InsertedHas(order, owes[0], Sorted(order, owes[1..]));
      assert owes == [owes[0]] + owes[1..];
    }
  }

  lemma OneInFront(order: (Owe, Owe) -> int, owe: Owe, owes: seq<Owe>)
    requires InOrder(order, owes) && forall j :: 0 <= j < |owes| ==> order(owe, owes[j]) <= 0
    ensures InOrder(order, [owe] + owes)
  {
    var all := [owe] + owes;
    forall i, j | 0 <= i < j < |all|
      ensures order(all[i], all[j]) <= 0
    {
      assert all[j] == owes[j - 1];
      assert i > 0 ==> all[i] == owes[i - 1];
    }
  }

  lemma InOrderRest(order: (Owe, Owe) -> int, owes: seq<Owe>)
    requires InOrder(order, owes) && owes != []
    ensures InOrder(order, owes[1..]) && forall j :: 0 <= j < |owes[1..]| ==> order(owes[0], owes[1..][j]) <= 0
  {}

  lemma {:induction false} InsertedInOrder(order: (Owe, Owe) -> int, owe: Owe, owes: seq<Owe>)
    requires IsOrder(order) && InOrder(order, owes)
    ensures InOrder(order, Inserted(order, owe, owes))
  {
    if owes == [] {
    } else if order(owe, owes[0]) <= 0 {
      FirstIsBefore(order, owe, owes);
      OneInFront(order, owe, owes);
    } else {
      var rest := Inserted(order, owe, owes[1..]);
      InOrderRest(order, owes);
      InsertedInOrder(order, owe, owes[1..]);
      InsertedHas(order, owe, owes[1..]);
      AllBehind(order, owes[0], owe, owes[1..], rest);
      OneInFront(order, owes[0], rest);
    }
  }

  lemma FirstIsBefore(order: (Owe, Owe) -> int, owe: Owe, owes: seq<Owe>)
    requires IsOrder(order) && InOrder(order, owes) && owes != [] && order(owe, owes[0]) <= 0
    ensures forall j :: 0 <= j < |owes| ==> order(owe, owes[j]) <= 0
  {
    forall j | 0 <= j < |owes|
      ensures order(owe, owes[j]) <= 0
    {
      assert j > 0 ==> order(owes[0], owes[j]) <= 0;
    }
  }

  lemma AllBehind(order: (Owe, Owe) -> int, first: Owe, owe: Owe, owes: seq<Owe>, rest: seq<Owe>)
    requires IsOrder(order) && order(owe, first) > 0 && multiset(rest) == multiset(owes) + multiset{owe}
    requires forall j :: 0 <= j < |owes| ==> order(first, owes[j]) <= 0
    ensures forall j :: 0 <= j < |rest| ==> order(first, rest[j]) <= 0
  {
    assert order(first, owe) < 0;
    forall j | 0 <= j < |rest|
      ensures order(first, rest[j]) <= 0
    {
      assert rest[j] in multiset(rest);
      assert rest[j] in owes || rest[j] == owe;
    }
  }

  lemma {:induction false} SortedInOrder(order: (Owe, Owe) -> int, owes: seq<Owe>)
    requires IsOrder(order)
    ensures InOrder(order, Sorted(order, owes))
  {
    if owes != [] {
      SortedInOrder(order, owes[1..]);
      InsertedInOrder(order, owes[0], Sorted(order, owes[1..]));
    }
  }

  /** Those that compare equal to one of them, as they come. */
  function Equals(order: (Owe, Owe) -> int, owe: Owe, owes: seq<Owe>): seq<Owe> {
    if owes == [] then []
    else (if order(owes[0], owe) == 0 then [owes[0]] else []) + Equals(order, owe, owes[1..])
  }

  lemma {:induction false} InsertedEquals(order: (Owe, Owe) -> int, x: Owe, owes: seq<Owe>, owe: Owe)
    requires IsOrder(order)
    ensures Equals(order, owe, Inserted(order, x, owes)) == Equals(order, owe, [x] + owes)
  {
    assert ([x] + owes)[1..] == owes;
    if owes != [] && order(x, owes[0]) > 0 {
      InsertedEquals(order, x, owes[1..], owe);
      assert ([x] + owes[1..])[1..] == owes[1..];
      assert Inserted(order, x, owes)[1..] == Inserted(order, x, owes[1..]);
      EqualsAreEqual(order, x, owes[0], owe);
    }
  }

  lemma EqualsAreEqual(order: (Owe, Owe) -> int, x: Owe, y: Owe, owe: Owe)
    requires IsOrder(order)
    ensures order(x, owe) == 0 && order(y, owe) == 0 ==> order(x, y) <= 0
  {
    assert order(y, owe) < 0 <==> order(owe, y) > 0;
  }

  /** Things that compare equal keep the order they were given in. */
  lemma {:induction false} SortedIsStable(order: (Owe, Owe) -> int, owes: seq<Owe>, owe: Owe)
    requires IsOrder(order)
    ensures Equals(order, owe, Sorted(order, owes)) == Equals(order, owe, owes)
  {
    if owes != [] {
      SortedIsStable(order, owes[1..], owe);
      InsertedEquals(order, owes[0], Sorted(order, owes[1..]), owe);
      assert ([owes[0]] + Sorted(order, owes[1..]))[1..] == Sorted(order, owes[1..]);
    }
  }

  /** What is owed, sorted: the notebooks as they are given, the files and the notes by path. */
  function InTurn(compare: Collation, folders: seq<Owe>, files: seq<Owe>, notes: seq<Owe>): seq<Owe> {
    Sorted(ByNotebook(compare), folders + Sorted(ByPath(compare), files) + Sorted(ByPath(compare), notes))
  }

  lemma InTurnHasAll(compare: Collation, folders: seq<Owe>, files: seq<Owe>, notes: seq<Owe>)
    ensures multiset(InTurn(compare, folders, files, notes)) == multiset(folders) + multiset(files) + multiset(notes)
    ensures InOrder(ByNotebook(compare), InTurn(compare, folders, files, notes))
  {
    SortedHas(ByPath(compare), files);
    SortedHas(ByPath(compare), notes);
    SortedHas(ByNotebook(compare), folders + Sorted(ByPath(compare), files) + Sorted(ByPath(compare), notes));
    ByNotebookIsOrder(compare);
    SortedInOrder(ByNotebook(compare), folders + Sorted(ByPath(compare), files) + Sorted(ByPath(compare), notes));
  }

  /** Any two that compare equal to a third come as they do among all that do. */
  lemma {:induction false} EqualsKeepOrder(order: (Owe, Owe) -> int, owe: Owe, owes: seq<Owe>, i: nat, j: nat)
      returns (a: nat, b: nat)
    requires i < j < |owes| && order(owes[i], owe) == 0 && order(owes[j], owe) == 0
    ensures a < b < |Equals(order, owe, owes)|
    ensures Equals(order, owe, owes)[a] == owes[i] && Equals(order, owe, owes)[b] == owes[j]
  {
    var skip := if order(owes[0], owe) == 0 then 1 else 0;
    if i > 0 {
      a, b := EqualsKeepOrder(order, owe, owes[1..], i - 1, j - 1);
      a, b := skip + a, skip + b;
    } else {
      b := EqualsHas(order, owe, owes[1..], j - 1);
      a, b := 0, 1 + b;
    }
  }

  lemma {:induction false} EqualsHas(order: (Owe, Owe) -> int, owe: Owe, owes: seq<Owe>, j: nat) returns (b: nat)
    requires j < |owes| && order(owes[j], owe) == 0
    ensures b < |Equals(order, owe, owes)| && Equals(order, owe, owes)[b] == owes[j]
  {
    b := 0;
    if j > 0 {
      b := EqualsHas(order, owe, owes[1..], j - 1);
      b := b + if order(owes[0], owe) == 0 then 1 else 0;
    }
  }

  /** What compares equal to something is in another order, as it comes. */
  ghost predicate EqualsAreIn(order: (Owe, Owe) -> int, owe: Owe, owes: seq<Owe>, other: (Owe, Owe) -> int) {
    forall i, j :: 0 <= i < j < |owes| && order(owes[i], owe) == 0 && order(owes[j], owe) == 0 ==>
      other(owes[i], owes[j]) <= 0
  }

  lemma {:induction false} EqualsInOrder(order: (Owe, Owe) -> int, owe: Owe, owes: seq<Owe>, other: (Owe, Owe) -> int)
    requires EqualsAreIn(order, owe, owes, other)
    ensures InOrder(other, Equals(order, owe, owes))
    ensures forall each :: each in Equals(order, owe, owes) ==> each in owes && order(each, owe) == 0
  {
    if owes != [] {
      var rest := owes[1..];
      assert EqualsAreIn(order, owe, rest, other) by {
        assert forall i :: 0 <= i < |rest| ==> rest[i] == owes[i + 1];
      }
      EqualsInOrder(order, owe, rest, other);
      var equals := Equals(order, owe, rest);
      forall b | 0 <= b < |equals| && order(owes[0], owe) == 0
        ensures other(owes[0], equals[b]) <= 0
      {
        assert equals[b] in rest;
        var k :| 0 <= k < |rest| && rest[k] == equals[b];
        assert owes[k + 1] == equals[b];
      }
      if order(owes[0], owe) == 0 {
        OneInFront(other, owes[0], equals);
      }
    }
  }

  ghost predicate AreOfRank(owes: seq<Owe>, rank: nat) {
    forall i :: 0 <= i < |owes| ==> Rank(owes[i]) == rank
  }

  /** Within one notebook the files are by path, and so are the notes. */
  ghost predicate ByPathWithin(compare: Collation, owes: seq<Owe>) {
    forall i, j :: 0 <= i < j < |owes| && ByNotebook(compare)(owes[i], owes[j]) == 0 && Rank(owes[i]) > 0 ==>
      ByPath(compare)(owes[i], owes[j]) <= 0
  }

  lemma InTurnByPath(compare: Collation, folders: seq<Owe>, files: seq<Owe>, notes: seq<Owe>)
    requires AreOfRank(folders, 0) && AreOfRank(files, 1) && AreOfRank(notes, 2)
    ensures ByPathWithin(compare, InTurn(compare, folders, files, notes))
  {
    hide PreOrder, NotebookOf, ByPath, InTurn;
    var owes := InTurn(compare, folders, files, notes);
    forall i, j | 0 <= i < j < |owes| && ByNotebook(compare)(owes[i], owes[j]) == 0 && Rank(owes[i]) > 0
      ensures ByPath(compare)(owes[i], owes[j]) <= 0
    {
      TwoByPath(compare, folders, files, notes, i, j);
    }
  }

  lemma TwoByPath(compare: Collation, folders: seq<Owe>, files: seq<Owe>, notes: seq<Owe>, i: nat, j: nat)
    requires AreOfRank(folders, 0) && AreOfRank(files, 1) && AreOfRank(notes, 2)
    requires i < j < |InTurn(compare, folders, files, notes)|
    requires var owes := InTurn(compare, folders, files, notes);
             ByNotebook(compare)(owes[i], owes[j]) == 0 && Rank(owes[i]) > 0
    ensures var owes := InTurn(compare, folders, files, notes); ByPath(compare)(owes[i], owes[j]) <= 0
  {
    hide PreOrder, NotebookOf, Equals, Sorted, EqualsAreIn;
    var owes := InTurn(compare, folders, files, notes);
    var given := folders + Sorted(ByPath(compare), files) + Sorted(ByPath(compare), notes);
    var order, owe := ByNotebook(compare), owes[j];
    ByNotebookIsOrder(compare);
    assert order(owe, owe) < 0 <==> order(owe, owe) > 0;
    SortedIsStable(order, given, owe);
    var a, b := EqualsKeepOrder(order, owe, owes, i, j);
    assert Rank(owes[i]) == Rank(owe);
    GivenByPath(compare, folders, files, notes, owe);
    EqualsInOrder(order, owe, given, ByPath(compare));
  }

  lemma GivenByPath(compare: Collation, folders: seq<Owe>, files: seq<Owe>, notes: seq<Owe>, owe: Owe)
    requires AreOfRank(folders, 0) && AreOfRank(files, 1) && AreOfRank(notes, 2) && Rank(owe) > 0
    ensures var given := folders + Sorted(ByPath(compare), files) + Sorted(ByPath(compare), notes);
            EqualsAreIn(ByNotebook(compare), owe, given, ByPath(compare))
  {
    hide PreOrder, NotebookOf, Sorted, ByPath, IsOrder;
    var a, b := Sorted(ByPath(compare), files), Sorted(ByPath(compare), notes);
    ByPathIsOrder(compare);
    SortedInOrder(ByPath(compare), files);
    SortedInOrder(ByPath(compare), notes);
    SortedRank(ByPath(compare), files, 1);
    SortedRank(ByPath(compare), notes, 2);
    var given := folders + a + b;
    forall i, j | 0 <= i < j < |given| && ByNotebook(compare)(given[i], owe) == 0 && ByNotebook(compare)(given[j], owe) == 0
      ensures ByPath(compare)(given[i], given[j]) <= 0
    {
      assert Rank(given[i]) == Rank(owe) == Rank(given[j]);
      if Rank(owe) == 1 {
        assert given[i] == a[i - |folders|] && given[j] == a[j - |folders|];
      } else {
        assert given[i] == b[i - |folders| - |a|] && given[j] == b[j - |folders| - |a|];
      }
    }
  }

  lemma SortedRank(order: (Owe, Owe) -> int, owes: seq<Owe>, rank: nat)
    requires AreOfRank(owes, rank)
    ensures AreOfRank(Sorted(order, owes), rank)
  {
    SortedHas(order, owes);
    var sorted := Sorted(order, owes);
    forall i | 0 <= i < |sorted|
      ensures Rank(sorted[i]) == rank
    {
      assert sorted[i] in multiset(sorted);
      assert sorted[i] in owes;
    }
  }

  // ----- A notebook at a time ----------------------------------------------------------

  /** In the notebook, or in one inside it, as names are compared. */
  predicate IsInside(compare: Collation, folder: seq<string>, notebook: seq<string>) {
    |folder| <= |notebook| && PreOrder(compare, folder, notebook[..|folder|]) == 0
  }

  lemma {:induction false} InsideIsTogether(
      compare: Collation, folder: seq<string>, a: seq<string>, b: seq<string>, c: seq<string>)
    requires IsInside(compare, folder, a) && IsInside(compare, folder, c)
    requires PreOrder(compare, a, b) <= 0 && PreOrder(compare, b, c) <= 0
    ensures IsInside(compare, folder, b)
  {
    if folder != [] {
      var name := folder[0];
      assert a[..|folder|][0] == a[0] && a[..|folder|][1..] == a[1..][..|folder| - 1];
      assert c[..|folder|][0] == c[0] && c[..|folder|][1..] == c[1..][..|folder| - 1];
      assert compare(name, a[0]) == 0 && compare(name, c[0]) == 0;
      assert b != [];
      SameName(compare, name, a[0], b[0], c[0]);
      InsideIsTogether(compare, folder[1..], a[1..], b[1..], c[1..]);
      assert b[..|folder|][0] == b[0] && b[..|folder|][1..] == b[1..][..|folder| - 1];
    }
  }

  lemma SameName(compare: Collation, name: string, a: string, b: string, c: string)
    requires compare(name, a) == 0 && compare(name, c) == 0
    requires compare(a, b) <= 0 && compare(b, c) <= 0
    ensures compare(a, b) == 0 && compare(b, c) == 0 && compare(name, b) == 0
  {
    assert compare(a, name) <= 0 by {
      assert compare(name, a) < 0 <==> compare(a, name) > 0;
    }
    assert compare(c, name) <= 0 by {
      assert compare(name, c) < 0 <==> compare(c, name) > 0;
    }
    assert compare(c, a) <= 0;
    NamesTransitive(compare, a, b, c);
    assert compare(b, name) <= 0;
    assert compare(name, b) <= 0;
    assert compare(name, b) < 0 <==> compare(b, name) > 0;
    assert compare(b, name) < 0 <==> compare(name, b) > 0;
    assert compare(b, a) <= 0;
    assert compare(c, b) <= 0;
    assert compare(a, b) < 0 <==> compare(b, a) > 0;
    assert compare(b, c) < 0 <==> compare(c, b) > 0;
  }

  /** Whatever is between two things of a notebook, in the order they are queued, is of that notebook as well. */
  lemma ANotebookAtATime(compare: Collation, owes: seq<Owe>, folder: seq<string>, i: nat, j: nat, k: nat)
    requires InOrder(ByNotebook(compare), owes) && i < j < k < |owes|
    requires IsInside(compare, folder, NotebookOf(owes[i])) && IsInside(compare, folder, NotebookOf(owes[k]))
    ensures IsInside(compare, folder, NotebookOf(owes[j]))
  {
    hide NotebookOf, IsInside;
    assert ByNotebook(compare)(owes[i], owes[j]) <= 0 && ByNotebook(compare)(owes[j], owes[k]) <= 0;
    InsideIsTogether(compare, folder, NotebookOf(owes[i]), NotebookOf(owes[j]), NotebookOf(owes[k]));
  }

  // ----- The queue ---------------------------------------------------------------------

  /** Every op that does what is owed second has before it one that does what is owed first. */
  ghost predicate IsBefore(ops: seq<Op>, source: Source, first: Owe, second: Owe) {
    forall j :: 0 <= j < |ops| && IsOwedBy(ops[j], source, second) ==>
      exists i :: 0 <= i < j && IsOwedBy(ops[i], source, first)
  }

  ghost predicate IsQueued(ops: seq<Op>, source: Source, owe: Owe) {
    exists op :: op in ops && IsOwedBy(op, source, owe)
  }

  lemma {:induction false} WithdrawnKeepsOrder(ops: seq<Op>, source: Source, path: string, first: Owe, second: Owe)
    requires IsBefore(ops, source, first, second)
    ensures IsBefore(WithdrawRmdirs(ops, source, path), source, first, second)
    decreases |ops|
  {
    hide IsStale, IsBefore, WithdrawRmdirs;
    if ops == [] {
      NothingWithdrawn(source, path, first, second);
    } else {
      var front, last := ops[..|ops| - 1], ops[|ops| - 1];
      assert ops == front + [last];
      FrontIsBefore(front, last, source, first, second);
      WithdrawnKeepsOrder(front, source, path, first, second);
      WithdrawnLast(front, last, source, path);
      OneMoreKept(front, last, source, path, first, second);
      var kept := WithdrawRmdirs(front, source, path);
      assert kept + [] == kept;
    }
  }

  lemma NothingWithdrawn(source: Source, path: string, first: Owe, second: Owe)
    ensures IsBefore(WithdrawRmdirs([], source, path), source, first, second)
  {}

  lemma OneMoreKept(front: seq<Op>, last: Op, source: Source, path: string, first: Owe, second: Owe)
    requires IsBefore(front + [last], source, first, second)
    requires IsBefore(WithdrawRmdirs(front, source, path), source, first, second)
    ensures IsBefore(WithdrawRmdirs(front, source, path) + [last], source, first, second)
  {
    hide IsStale, WithdrawRmdirs, IsOwedBy;
    var kept, all := WithdrawRmdirs(front, source, path), front + [last];
    if IsOwedBy(last, source, second) {
      assert all[|front|] == last;
      var i :| 0 <= i < |front| && IsOwedBy(all[i], source, first);
      assert all[i] == front[i] && front[i] in front;
      NotWithdrawn(front, source, path, front[i], first);
      LastIsBefore(kept, last, source, first, second);
    } else {
      LastIsOther(kept, last, source, first, second);
    }
  }

  lemma FrontIsBefore(front: seq<Op>, last: Op, source: Source, first: Owe, second: Owe)
    requires IsBefore(front + [last], source, first, second)
    ensures IsBefore(front, source, first, second)
  {
    hide IsOwedBy;
    forall j | 0 <= j < |front| && IsOwedBy(front[j], source, second)
      ensures exists i :: 0 <= i < j && IsOwedBy(front[i], source, first)
    {
      assert (front + [last])[j] == front[j];
      var i :| 0 <= i < j && IsOwedBy((front + [last])[i], source, first);
      assert front[i] == (front + [last])[i];
    }
  }

  lemma LastIsBefore(kept: seq<Op>, last: Op, source: Source, first: Owe, second: Owe)
    requires IsBefore(kept, source, first, second) && IsQueued(kept, source, first)
    ensures IsBefore(kept + [last], source, first, second)
  {
    hide IsOwedBy;
    var op :| op in kept && IsOwedBy(op, source, first);
    var at :| 0 <= at < |kept| && kept[at] == op;
    var all := kept + [last];
    forall j | 0 <= j < |all| && IsOwedBy(all[j], source, second)
      ensures exists i :: 0 <= i < j && IsOwedBy(all[i], source, first)
    {
      if j < |kept| {
        var i :| 0 <= i < j && IsOwedBy(kept[i], source, first);
        assert all[i] == kept[i];
      } else {
        assert all[at] == op;
      }
    }
  }

  lemma LastIsOther(kept: seq<Op>, last: Op, source: Source, first: Owe, second: Owe)
    requires IsBefore(kept, source, first, second) && !IsOwedBy(last, source, second)
    ensures IsBefore(kept + [last], source, first, second)
  {
    hide IsOwedBy;
    var all := kept + [last];
    forall j | 0 <= j < |all| && IsOwedBy(all[j], source, second)
      ensures exists i :: 0 <= i < j && IsOwedBy(all[i], source, first)
    {
      assert all[j] == kept[j];
      var i :| 0 <= i < j && IsOwedBy(kept[i], source, first);
      assert all[i] == kept[i];
    }
  }

  lemma {:induction false} WithdrawnLast(front: seq<Op>, last: Op, source: Source, path: string)
    ensures WithdrawRmdirs(front + [last], source, path)
            == WithdrawRmdirs(front, source, path) + (if IsStale(last, source, path) then [] else [last])
  {
    hide IsStale;
    if front == [] {
      assert [] + [last] == [last] && [last][1..] == [];
    } else {
      assert (front + [last])[1..] == front[1..] + [last];
      WithdrawnLast(front[1..], last, source, path);
    }
  }

  lemma NotWithdrawn(front: seq<Op>, source: Source, path: string, op: Op, owe: Owe)
    requires op in front && IsOwedBy(op, source, owe)
    ensures IsQueued(WithdrawRmdirs(front, source, path), source, owe)
  {
    hide AncestorPaths;
    assert !IsStale(op, source, path);
    assert op in WithdrawRmdirs(front, source, path);
  }

  /** One thing queued: what is queued stays so and in its order, and what was not is unless it is that thing. */
  lemma QueueOneInOrder(ops: seq<Op>, source: Source, owe: Owe, first: Owe, second: Owe)
    requires IsBefore(ops, source, first, second)
    requires IsQueued(ops, source, first) || !IsOwedAs(owe, second)
    ensures IsBefore(QueueOne(ops, source, owe), source, first, second)
    ensures IsQueued(ops, source, first) ==> IsQueued(QueueOne(ops, source, owe), source, first)
  {
    hide WithdrawRmdirs, IsStale, AncestorPaths;
    QueueOneKeeps(ops, source, owe);
    QueuedStays(ops, source, owe, first);
    match owe {
      case MakeNotebook(path) =>
        WithdrawnKeepsOrder(ops, source, path, first, second);
        var kept := WithdrawRmdirs(ops, source, path);
        WithdrawnStays(ops, source, path, first);
        OneMore(kept, Op(source, Mkdir, None, None, path, None, None), source, owe, first, second);
      case SendFile(id, path) =>
        OneMore(ops, Op(source, Upload, None, Some(id), path, None, None), source, owe, first, second);
      case WriteNote(id, path) =>
        OneMore(ops, Op(source, Write, Some(id), None, path, None, None), source, owe, first, second);
    }
  }

  /** Done by the same ops. */
  predicate IsOwedAs(x: Owe, y: Owe) {
    match (x, y)
    case (MakeNotebook(p), MakeNotebook(q)) => p == q
    case (SendFile(i, _), SendFile(j, _)) => i == j
    case (WriteNote(i, _), WriteNote(j, _)) => i == j
    case _ => false
  }

  lemma QueuedStays(ops: seq<Op>, source: Source, owe: Owe, first: Owe)
    requires forall op :: op in ops && (op.source != source || op.kind != Rmdir) ==> op in QueueOne(ops, source, owe)
    ensures IsQueued(ops, source, first) ==> IsQueued(QueueOne(ops, source, owe), source, first)
  {
    hide QueueOne;
    if IsQueued(ops, source, first) {
      var op :| op in ops && IsOwedBy(op, source, first);
      assert op.kind != Rmdir;
    }
  }

  lemma WithdrawnStays(ops: seq<Op>, source: Source, path: string, first: Owe)
    ensures IsQueued(ops, source, first) ==> IsQueued(WithdrawRmdirs(ops, source, path), source, first)
  {
    hide WithdrawRmdirs, IsStale;
    if IsQueued(ops, source, first) {
      var op :| op in ops && IsOwedBy(op, source, first);
      NotWithdrawn(ops, source, path, op, first);
    }
  }

  lemma OneMore(kept: seq<Op>, op: Op, source: Source, owe: Owe, first: Owe, second: Owe)
    requires IsBefore(kept, source, first, second) && IsOwedBy(op, source, owe)
    requires op.fileId.Some? ==> op.noteId.None? && op.kind == Upload
    requires IsQueued(kept, source, first) || !IsOwedAs(owe, second)
    ensures IsBefore(kept + [op], source, first, second)
  {
    if IsOwedBy(op, source, second) {
      assert IsOwedAs(owe, second);
      LastIsBefore(kept, op, source, first, second);
    } else {
      LastIsOther(kept, op, source, first, second);
    }
  }

  lemma {:induction false} AllInOrder(ops: seq<Op>, source: Source, owes: seq<Owe>, first: Owe, second: Owe)
    requires IsBefore(ops, source, first, second)
    requires IsQueued(ops, source, first) ||
             exists i :: 0 <= i < |owes| && owes[i] == first && forall j :: 0 <= j <= i ==> !IsOwedAs(owes[j], second)
    ensures IsBefore(QueueAll(ops, source, owes), source, first, second)
    decreases |owes|
  {
    hide IsBefore, QueueOne, IsOwedBy;
    if owes != [] {
      var owe := owes[0];
      var next := QueueOne(ops, source, owe);
      QueueOneInOrder(ops, source, owe, first, second);
      QueueOneKeeps(ops, source, owe);
      if !IsQueued(ops, source, first) {
        var i :| 0 <= i < |owes| && owes[i] == first && forall j :: 0 <= j <= i ==> !IsOwedAs(owes[j], second);
        if i == 0 {
          assert IsQueued(next, source, first);
        } else {
          assert owes[1..][i - 1] == first;
          assert forall j :: 0 <= j <= i - 1 ==> owes[1..][j] == owes[j + 1];
        }
      }
      AllInOrder(next, source, owes[1..], first, second);
    }
  }

  /**
    Of two things owed, with nothing queued yet for the one that comes after: every op
    queued for it is behind one for the other.
   */
  lemma QueuedInTurn(compare: Collation, ops: seq<Op>, source: Source, owes: seq<Owe>, first: Owe, second: Owe)
    requires InOrder(ByNotebook(compare), owes) && first in owes
    requires !IsQueued(ops, source, second)
    requires forall owe :: owe in owes && IsOwedAs(owe, second) ==> owe == second
    requires ByNotebook(compare)(first, second) < 0
    ensures IsBefore(QueueAll(ops, source, owes), source, first, second)
  {
    hide QueueAll, NotebookOf, PreOrder, IsOwedAs, IsOwedBy, IsOrder, InOrder;
    ByNotebookIsOrder(compare);
    var i :| 0 <= i < |owes| && owes[i] == first;
    forall j | 0 <= j <= i
      ensures !IsOwedAs(owes[j], second)
    {
      assert owes[j] in owes;
      ComesLater(ByNotebook(compare), owes, i, j, second);
    }
    AllInOrder(ops, source, owes, first, second);
  }

  lemma ComesLater(order: (Owe, Owe) -> int, owes: seq<Owe>, i: nat, j: nat, second: Owe)
    requires IsOrder(order) && InOrder(order, owes) && j <= i < |owes| && order(owes[i], second) < 0
    ensures owes[j] != second
  {
    assert j < i ==> order(owes[j], owes[i]) <= 0;
    assert order(owes[i], second) < 0 <==> order(second, owes[i]) > 0;
    assert order(second, second) < 0 <==> order(second, second) > 0;
  }

  /** A notebook comes before everything in it and in those inside it. */
  lemma {:induction false} PrefixComesFirst(compare: Collation, a: seq<string>, b: seq<string>)
    requires a <= b
    ensures PreOrder(compare, a, b) == |a| - |b|
  {
    if a != [] {
      assert compare(a[0], b[0]) < 0 <==> compare(b[0], a[0]) > 0;
      PrefixComesFirst(compare, a[1..], b[1..]);
    }
  }

  /** So every notebook is made before anything new is sent into it, or into a notebook inside it. */
  lemma NotebooksAreMadeFirst(
      compare: Collation, ops: seq<Op>, source: Source, rows: Rows, owed: Owed, owes: seq<Owe>, path: string, owe: Owe)
    requires InOrder(ByNotebook(compare), owes) && Enumerates(owes, OwesOf(rows, owed))
    requires MakeNotebook(path) in owes && owe in owes && !IsQueued(ops, source, owe)
    requires FoldSegments(path) <= NotebookOf(owe) && (owe.MakeNotebook? ==> FoldSegments(path) != NotebookOf(owe))
    ensures IsBefore(QueueAll(ops, source, owes), source, MakeNotebook(path), owe)
  {
    hide QueueAll, FoldSegments, IsOwedAs, IsQueued, InOrder, IsBefore, OwesOf;
    OwedOnce(rows, owed);
    PrefixComesFirst(compare, FoldSegments(path), NotebookOf(owe));
    assert ByNotebook(compare)(MakeNotebook(path), owe) < 0;
    QueuedInTurn(compare, ops, source, owes, MakeNotebook(path), owe);
  }

  /** And a notebook's files go before its notes. */
  lemma FilesGoBeforeNotes(
      compare: Collation, ops: seq<Op>, source: Source, rows: Rows, owed: Owed, owes: seq<Owe>, file: Owe, note: Owe)
    requires InOrder(ByNotebook(compare), owes) && Enumerates(owes, OwesOf(rows, owed))
    requires file in owes && file.SendFile? && note in owes && note.WriteNote? && !IsQueued(ops, source, note)
    requires NotebookOf(file) == NotebookOf(note)
    ensures IsBefore(QueueAll(ops, source, owes), source, file, note)
  {
    hide QueueAll, NotebookOf, IsOwedAs, IsQueued, InOrder, IsBefore, OwesOf;
    OwedOnce(rows, owed);
    PrefixComesFirst(compare, NotebookOf(file), NotebookOf(note));
    assert ByNotebook(compare)(file, note) < 0;
    QueuedInTurn(compare, ops, source, owes, file, note);
  }

  /** What a move owes names each row once. */
  lemma OwedOnce(rows: Rows, owed: Owed)
    ensures forall x, y :: x in OwesOf(rows, owed) && y in OwesOf(rows, owed) && IsOwedAs(x, y) ==> x == y
  {}
}
