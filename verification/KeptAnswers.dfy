/**
  A cache of answers by key, bounded by room that grows with the lists shown
  (apps/web/src/store/kept.ts).
 */
module KeptAnswers {
  import opened Options

  // ----- Room --------------------------------------------------------------------------

  /** The longest each list has been, in the order they were first shown. */
  datatype Shown = Shown(list: string, rows: nat)

  function RowsOf(lists: seq<Shown>, list: string): nat {
    if lists == [] then 0 else if lists[0].list == list then lists[0].rows else RowsOf(lists[1..], list)
  }

  function SetRows(lists: seq<Shown>, list: string, rows: nat): seq<Shown> {
    if lists == [] then [Shown(list, rows)]
    else if lists[0].list == list then [Shown(list, rows)] + lists[1..]
    else [lists[0]] + SetRows(lists[1..], list, rows)
  }

  /** `keepRows` */
  function KeepRows(lists: seq<Shown>, list: string, count: nat): seq<Shown> {
    if count > RowsOf(lists, list) then SetRows(lists, list, count) else lists
  }

  function Total(lists: seq<Shown>): nat {
    if lists == [] then 0 else lists[0].rows + Total(lists[1..])
  }

  /** `roomFor`: a quarter more than the rows there have been, rounded up, and `floor` at least. */
  function RoomFor(lists: seq<Shown>, floor: nat): nat {
    var room := (Total(lists) * 5 + 3) / 4;
    if room < floor then floor else room
  }

  lemma {:induction false} SetTotal(lists: seq<Shown>, list: string, rows: nat)
    ensures Total(SetRows(lists, list, rows)) == Total(lists) - RowsOf(lists, list) + rows
    ensures Total(lists) >= RowsOf(lists, list)
    ensures RowsOf(SetRows(lists, list, rows), list) == rows
    ensures forall other :: other != list ==> RowsOf(SetRows(lists, list, rows), other) == RowsOf(lists, other)
  {
    if lists == [] {
      assert [Shown(list, rows)][1..] == [];
    } else if lists[0].list == list {
      assert ([Shown(list, rows)] + lists[1..])[1..] == lists[1..];
    } else {
      SetTotal(lists[1..], list, rows);
      assert SetRows(lists, list, rows)[1..] == SetRows(lists[1..], list, rows);
    }
  }

  /**
    A list counts as long as it has ever been, whatever the others do; and there is room for a
    quarter more than the rows shown, and no more but to the floor, so that it only ever grows.
   */
  lemma RoomGrows(lists: seq<Shown>, list: string, count: nat, floor: nat)
    ensures var after := KeepRows(lists, list, count);
            && RowsOf(after, list) == (if count > RowsOf(lists, list) then count else RowsOf(lists, list))
            && (forall other :: other != list ==> RowsOf(after, other) == RowsOf(lists, other))
            && Total(after) == Total(lists) - RowsOf(lists, list) + RowsOf(after, list)
            && RoomFor(after, floor) >= RoomFor(lists, floor) >= floor
            && RoomFor(after, floor) * 4 >= Total(after) * 5
            && (RoomFor(after, floor) > floor ==> (RoomFor(after, floor) - 1) * 4 < Total(after) * 5)
  {
    SetTotal(lists, list, count);
  }

  // ----- Answers -----------------------------------------------------------------------

  /** An answer kept, the longest unasked first. None is an answer that was `undefined`. */
  datatype Kept<A> = Kept(key: string, answer: Option<A>)

  function Keys<A>(seen: seq<Kept<A>>): seq<string> {
    seq(|seen|, i requires 0 <= i < |seen| => seen[i].key)
  }

  function IndexOf(keys: seq<string>, key: string): (at: nat)
    ensures at <= |keys| && key !in keys[..at]
    ensures at < |keys| ==> keys[at] == key
    ensures at < |keys| <==> key in keys
  {
    if keys == [] || keys[0] == key then 0 else 1 + IndexOf(keys[1..], key)
  }

  /** The kept answer a key is answered with: none where it has none, or one that was `undefined`. */
  function Known<A>(seen: seq<Kept<A>>, key: string): Option<A> {
    var at := IndexOf(Keys(seen), key);
    if at < |seen| then seen[at].answer else None
  }

  /** Asked again: to the back. */
  function ToBack<A>(seen: seq<Kept<A>>, at: nat): seq<Kept<A>>
    requires at < |seen|
  {
    seen[..at] + seen[at + 1..] + [seen[at]]
  }

  /** Kept: where the key is, or at the back. */
  function Set<A>(seen: seq<Kept<A>>, key: string, answer: Option<A>): seq<Kept<A>> {
    var at := IndexOf(Keys(seen), key);
    if at < |seen| then seen[at := Kept(key, answer)] else seen + [Kept(key, answer)]
  }

  /** What is kept after a key is asked, with the bound as it then is. */
  function After<A>(seen: seq<Kept<A>>, key: string, made: Option<A>, keep: bool, most: nat): seq<Kept<A>> {
    if Known(seen, key).Some? then ToBack(seen, IndexOf(Keys(seen), key))
    else if !keep then seen
    else
      var more := Set(seen, key, made);
      if |more| > most then more[1..] else more
  }

  function Answered<A>(seen: seq<Kept<A>>, key: string, made: Option<A>): Option<A> {
    if Known(seen, key).Some? then Known(seen, key) else made
  }

  /** Everything kept is what would be made, and no key is kept twice. */
  ghost predicate Faithful<A>(seen: seq<Kept<A>>, make: string -> Option<A>) {
    && (forall i :: 0 <= i < |seen| ==> seen[i].answer == make(seen[i].key))
    && (forall i, j :: 0 <= i < j < |seen| ==> seen[i].key != seen[j].key)
  }

  lemma KnownIsFaithful<A>(seen: seq<Kept<A>>, make: string -> Option<A>, key: string)
    requires Faithful(seen, make)
    ensures key in Keys(seen) ==> Known(seen, key) == make(key)
    ensures Known(seen, key).Some? ==> key in Keys(seen) && Known(seen, key) == make(key)
  {
    var at := IndexOf(Keys(seen), key);
    assert at < |seen| ==> seen[at].key == Keys(seen)[at];
  }

  lemma ToBackIsFaithful<A>(seen: seq<Kept<A>>, make: string -> Option<A>, at: nat)
    requires Faithful(seen, make) && at < |seen|
    ensures Faithful(ToBack(seen, at), make)
  {
    var moved := ToBack(seen, at);
    forall i | 0 <= i < |moved|
      ensures moved[i] == if i < at then seen[i] else if i < |seen| - 1 then seen[i + 1] else seen[at]
    {}
  }

  lemma SetIsFaithful<A>(seen: seq<Kept<A>>, make: string -> Option<A>, key: string)
    requires Faithful(seen, make)
    ensures Faithful(Set(seen, key, make(key)), make)
    ensures |Set(seen, key, make(key))| <= |seen| + 1
  {
    var at := IndexOf(Keys(seen), key);
    assert at < |seen| ==> Keys(seen)[at] == seen[at].key == key;
    assert forall i :: 0 <= i < |seen| ==> Keys(seen)[i] == seen[i].key;
    assert at == |seen| ==> forall i :: 0 <= i < |seen| ==> seen[i].key in Keys(seen) && seen[i].key != key;
  }

  lemma DropIsFaithful<A>(seen: seq<Kept<A>>, make: string -> Option<A>)
    requires Faithful(seen, make) && seen != []
    ensures Faithful(seen[1..], make)
  {}

  /**
    With a `make` that always makes the same, every answer is the one it makes; what is
    kept stays faithful; and no more is kept than the bound, as long as it only grows.
   */
  lemma AnswersAreMade<A>(seen: seq<Kept<A>>, make: string -> Option<A>, key: string, keep: bool, before: nat, most: nat)
    requires Faithful(seen, make) && |seen| <= before <= most
    ensures Answered(seen, key, make(key)) == make(key)
    ensures Faithful(After(seen, key, make(key), keep, most), make)
    ensures |After(seen, key, make(key), keep, most)| <= most
  {
    hide Faithful, IndexOf, Set, Known;
    KnownIsFaithful(seen, make, key);
    if Known(seen, key).Some? {
      ToBackIsFaithful(seen, make, IndexOf(Keys(seen), key));
    } else {
      SetIsFaithful(seen, make, key);
      var more := Set(seen, key, make(key));
      if |more| > most {
        DropIsFaithful(more, make);
      }
    }
  }

  /** A call: what is asked, whether it is kept, and the bound as it then is. */
  datatype Call = Call(key: string, keep: bool, most: nat)

  function AfterAll<A>(seen: seq<Kept<A>>, make: string -> Option<A>, calls: seq<Call>): seq<Kept<A>>
    decreases |calls|
  {
    if calls == [] then seen
    else AfterAll(After(seen, calls[0].key, make(calls[0].key), calls[0].keep, calls[0].most), make, calls[1..])
  }

  /** Over any run of calls under a bound that only grows, no more is kept than it, and every answer is the one made. */
  lemma {:induction false} RunIsBounded<A>(seen: seq<Kept<A>>, make: string -> Option<A>, calls: seq<Call>, bound: nat, last: Call)
    requires Faithful(seen, make) && |seen| <= bound
    requires forall i, j :: 0 <= i < j < |calls| ==> calls[i].most <= calls[j].most
    requires forall i :: 0 <= i < |calls| ==> bound <= calls[i].most
    ensures var after := AfterAll(seen, make, calls);
            && Faithful(after, make)
            && |after| <= (if calls == [] then bound else calls[|calls| - 1].most)
            && Answered(after, last.key, make(last.key)) == make(last.key)
    decreases |calls|
  {
    hide After, Faithful, Answered;
    if calls == [] {
      AnswersAreMade(seen, make, last.key, last.keep, |seen|, |seen|);
    } else {
      var call := calls[0];
      AnswersAreMade(seen, make, call.key, call.keep, bound, call.most);
      RunIsBounded(After(seen, call.key, make(call.key), call.keep, call.most), make, calls[1..], call.most, last);
    }
  }

  // ----- The least recently asked ------------------------------------------------------

  function Without(keys: seq<string>, key: string): (left: seq<string>)
    ensures forall each :: each in left <==> each in keys && each != key
  {
    if keys == [] then [] else (if keys[0] == key then [] else [keys[0]]) + Without(keys[1..], key)
  }

  /** The keys asked for, each where it was last asked, the longest ago first. */
  function Recency(asked: seq<string>): seq<string> {
    if asked == [] then []
    else Without(Recency(asked[..|asked| - 1]), asked[|asked| - 1]) + [asked[|asked| - 1]]
  }

  predicate IsSuffix(a: seq<string>, b: seq<string>) {
    |a| <= |b| && b[|b| - |a|..] == a
  }

  lemma {:induction false} WithoutAbsent(keys: seq<string>, key: string)
    requires key !in keys
    ensures Without(keys, key) == keys
  {
    if keys != [] {
      WithoutAbsent(keys[1..], key);
    }
  }

  lemma {:induction false} WithoutConcat(a: seq<string>, b: seq<string>, key: string)
    ensures Without(a + b, key) == Without(a, key) + Without(b, key)
  {
    if a == [] {
      assert a + b == b;
    } else {
      assert (a + b)[1..] == a[1..] + b;
      WithoutConcat(a[1..], b, key);
    }
  }

  /** What is left of the most recent keys once one is taken from among them all. */
  lemma SuffixWithout(kept: seq<string>, all: seq<string>, key: string)
    requires IsSuffix(kept, all)
    ensures IsSuffix(Without(kept, key), Without(all, key))
  {
    var front := all[..|all| - |kept|];
    assert all == front + kept;
    WithoutConcat(front, kept, key);
    var a, b := Without(front, key), Without(kept, key);
    assert (a + b)[|a + b| - |b|..] == b;
  }

  lemma SuffixAdd(kept: seq<string>, all: seq<string>, key: string)
    requires IsSuffix(kept, all)
    ensures IsSuffix(kept + [key], all + [key])
  {
    assert (all + [key])[|all + [key]| - |kept + [key]|..] == all[|all| - |kept|..] + [key];
  }

  lemma SuffixDrop(kept: seq<string>, all: seq<string>)
    requires IsSuffix(kept, all) && kept != []
    ensures IsSuffix(kept[1..], all)
  {
    assert all[|all| - |kept[1..]|..] == all[|all| - |kept|..][1..];
  }

  lemma KeysOfSet<A>(seen: seq<Kept<A>>, key: string, made: Option<A>)
    ensures IndexOf(Keys(seen), key) == |seen| ==> Keys(Set(seen, key, made)) == Keys(seen) + [key] && key !in Keys(seen)
  {
    if IndexOf(Keys(seen), key) == |seen| {
      assert Keys(seen)[..|seen|] == Keys(seen);
    }
  }

  lemma {:induction false} WithoutOne(front: seq<string>, key: string, back: seq<string>)
    requires key !in front && key !in back
    ensures Without(front + [key] + back, key) == front + back
  {
    WithoutConcat(front + [key], back, key);
    WithoutConcat(front, [key], key);
    WithoutAbsent(front, key);
    WithoutAbsent(back, key);
    assert [key][1..] == [];
    assert Without([key], key) == [];
    assert front + [] == front;
  }

  lemma KeysMoved<A>(seen: seq<Kept<A>>, at: nat)
    requires at < |seen|
    ensures Keys(seen) == Keys(seen)[..at] + [seen[at].key] + Keys(seen)[at + 1..]
    ensures Keys(ToBack(seen, at)) == Keys(seen)[..at] + Keys(seen)[at + 1..] + [seen[at].key]
  {}

  lemma NowhereElse<A>(seen: seq<Kept<A>>, at: nat)
    requires at < |seen| && forall i, j :: 0 <= i < j < |seen| ==> seen[i].key != seen[j].key
    ensures seen[at].key !in Keys(seen)[..at] && seen[at].key !in Keys(seen)[at + 1..]
  {
    forall i | 0 <= i < |seen| && i != at
      ensures Keys(seen)[i] != seen[at].key
    {
      assert seen[i].key != seen[at].key;
    }
  }

  lemma KeysOfToBack<A>(seen: seq<Kept<A>>, key: string)
    requires key in Keys(seen) && forall i, j :: 0 <= i < j < |seen| ==> seen[i].key != seen[j].key
    ensures IndexOf(Keys(seen), key) < |seen|
    ensures Keys(ToBack(seen, IndexOf(Keys(seen), key))) == Without(Keys(seen), key) + [key]
  {
    var at: nat := IndexOf(Keys(seen), key);
    assert seen[at].key == Keys(seen)[at] == key;
    hide Without, IndexOf, ToBack, Keys;
    KeysMoved(seen, at);
    NowhereElse(seen, at);
    WithoutOne(Keys(seen)[..at], key, Keys(seen)[at + 1..]);
  }

  /** What a call of the cache asks, if it asks anything of what is kept. */
  predicate Touches<A>(seen: seq<Kept<A>>, key: string, keep: bool) {
    Known(seen, key).Some? || keep
  }

  /** Kept as `undefined`, and asked for before some other key was. */
  predicate IsStale<A>(seen: seq<Kept<A>>, key: string) {
    exists i :: 0 <= i < |seen| - 1 && seen[i].key == key && seen[i].answer.None?
  }

  /**
    A call leaves what is kept the most recently asked keys, in the order they were last
    asked, exactly when the key asked is not one kept as `undefined` with others behind it:
    it is then the least recently asked that goes to make room.
   */
  lemma RecentIff<A>(
      seen: seq<Kept<A>>, make: string -> Option<A>, key: string, keep: bool, most: nat, asked: seq<string>)
    requires Faithful(seen, make) && IsSuffix(Keys(seen), Recency(asked)) && |seen| <= most
    requires Touches(seen, key, keep)
    ensures IsSuffix(Keys(After(seen, key, make(key), keep, most)), Recency(asked + [key])) <==> !IsStale(seen, key)
  {
    hide IndexOf, Set, Without, IsSuffix, Faithful;
    KnownIsFaithful(seen, make, key);
    var all := Recency(asked);
    assert (asked + [key])[..|asked|] == asked;
    assert Recency(asked + [key]) == Without(all, key) + [key];
    SuffixWithout(Keys(seen), all, key);
    SuffixAdd(Without(Keys(seen), key), Without(all, key), key);
    StaleIsUndefined(seen, make, key);
    if Known(seen, key).Some? {
      FaithfulIsDistinct(seen, make);
      KeysOfToBack(seen, key);
    } else if key in Keys(seen) {
      UndefinedIsSetInPlace(seen, make, key);
      UndefinedRecency(seen, make, key, Without(all, key));
    } else {
      KeysOfSet(seen, key, make(key));
      WithoutAbsent(Keys(seen), key);
      DroppedIsRecent(Set(seen, key, make(key)), Recency(asked + [key]), most);
    }
  }

  lemma FaithfulIsDistinct<A>(seen: seq<Kept<A>>, make: string -> Option<A>)
    requires Faithful(seen, make)
    ensures forall i, j :: 0 <= i < j < |seen| ==> seen[i].key != seen[j].key
  {}

  lemma StaleIsUndefined<A>(seen: seq<Kept<A>>, make: string -> Option<A>, key: string)
    requires Faithful(seen, make)
    ensures IsStale(seen, key) ==> make(key).None? && key in Keys(seen)
  {
    if IsStale(seen, key) {
      var i :| 0 <= i < |seen| - 1 && seen[i].key == key && seen[i].answer.None?;
      assert Keys(seen)[i] == key;
    }
  }

  lemma UndefinedIsSetInPlace<A>(seen: seq<Kept<A>>, make: string -> Option<A>, key: string)
    requires Faithful(seen, make) && key in Keys(seen) && make(key).None?
    ensures Set(seen, key, make(key)) == seen
  {
    var at := IndexOf(Keys(seen), key);
    assert seen[at].key == Keys(seen)[at];
  }

  /** What is kept ends in the key exactly when no other is behind it. */
  lemma UndefinedRecency<A>(seen: seq<Kept<A>>, make: string -> Option<A>, key: string, rest: seq<string>)
    requires Faithful(seen, make) && key in Keys(seen) && make(key).None?
    requires IsSuffix(Without(Keys(seen), key), rest)
    ensures IsSuffix(Keys(seen), rest + [key]) <==> !IsStale(seen, key)
  {
    hide IndexOf, Without;
    var at: nat, last := IndexOf(Keys(seen), key), |seen| - 1;
    IndexIsThere(Keys(seen), key);
    assert seen[at].key == Keys(seen)[at] == key;
    if at < last {
      assert IsStale(seen, key);
      assert Keys(seen)[last] == seen[last].key;
      SuffixEnds(Keys(seen), rest + [key]);
    } else {
      var front := Keys(seen)[..last];
      assert Keys(seen) == front + [key] + [];
      forall i | 0 <= i < |front|
        ensures front[i] != key
      {
        assert front[i] == seen[i].key;
      }
      WithoutOne(front, key, []);
      assert front + [] == front && front + [key] + [] == front + [key];
      SuffixAdd(front, rest, key);
    }
  }

  lemma SuffixEnds(a: seq<string>, b: seq<string>)
    requires a != [] && b != []
    ensures IsSuffix(a, b) ==> a[|a| - 1] == b[|b| - 1]
  {
    assert IsSuffix(a, b) ==> b[|b| - |a|..][|a| - 1] == b[|b| - 1];
  }

  lemma IndexIsThere(keys: seq<string>, key: string)
    requires key in keys
    ensures IndexOf(keys, key) < |keys| && keys[IndexOf(keys, key)] == key
  {}

  lemma DroppedIsRecent<A>(more: seq<Kept<A>>, all: seq<string>, most: nat)
    requires IsSuffix(Keys(more), all)
    ensures IsSuffix(Keys(if |more| > most then more[1..] else more), all)
  {
    if |more| > most {
      SuffixDrop(Keys(more), all);
      assert Keys(more[1..]) == Keys(more)[1..];
    }
  }

  /** An answer that was `undefined` is made again each time, and its key is not sent to the back. */
  lemma UndefinedIsNotRecent()
    ensures var seen: seq<Kept<int>> := [Kept("a", None), Kept("b", Some(1))];
            && IsStale(seen, "a") && After(seen, "a", None, true, 2) == seen
            && Keys(After(After(seen, "a", None, true, 2), "c", Some(2), true, 2)) == ["b", "c"]
  {
    var seen: seq<Kept<int>> := [Kept("a", None), Kept("b", Some(1))];
    assert seen[0].key == "a" && Keys(seen) == ["a", "b"];
    assert IndexOf(["a", "b"], "a") == 0;
    assert seen[0 := Kept("a", None)] == seen;
    assert ["a", "b"][1..] == ["b"] && ["b"][1..] == [];
    assert IndexOf(["b"], "c") == 1;
    assert IndexOf(["a", "b"], "c") == 2;
    var more := Set(seen, "c", Some(2));
    assert more[1..] == [Kept("b", Some(1)), Kept("c", Some(2))];
  }

  // ----- Runs --------------------------------------------------------------------------

  /** The keys asked for so far, once a call that reads or writes what is kept has asked for its own. */
  function AskedBy<A>(seen: seq<Kept<A>>, asked: seq<string>, call: Call): seq<string> {
    if Touches(seen, call.key, call.keep) then asked + [call.key] else asked
  }

  function AfterCall<A>(seen: seq<Kept<A>>, make: string -> Option<A>, call: Call): seq<Kept<A>> {
    After(seen, call.key, make(call.key), call.keep, call.most)
  }

  /** After every call, what is kept is the most recently asked, in order. */
  ghost predicate StaysRecent<A>(seen: seq<Kept<A>>, make: string -> Option<A>, asked: seq<string>, calls: seq<Call>)
    decreases |calls|
  {
    calls == [] ||
    (&& IsSuffix(Keys(AfterCall(seen, make, calls[0])), Recency(AskedBy(seen, asked, calls[0])))
     && StaysRecent(AfterCall(seen, make, calls[0]), make, AskedBy(seen, asked, calls[0]), calls[1..]))
  }

  /** No call keeps an answer for a key that is stale. */
  ghost predicate NoneIsStale<A>(seen: seq<Kept<A>>, make: string -> Option<A>, calls: seq<Call>)
    decreases |calls|
  {
    calls == [] ||
    (&& !(calls[0].keep && IsStale(seen, calls[0].key))
     && NoneIsStale(AfterCall(seen, make, calls[0]), make, calls[1..]))
  }

  /** Over any run under a bound that only grows: the order is by recency throughout exactly when no call is stale. */
  lemma {:induction false} RunIsRecentIff<A>(
      seen: seq<Kept<A>>, make: string -> Option<A>, asked: seq<string>, calls: seq<Call>, bound: nat)
    requires Faithful(seen, make) && IsSuffix(Keys(seen), Recency(asked)) && |seen| <= bound
    requires forall i, j :: 0 <= i < j < |calls| ==> calls[i].most <= calls[j].most
    requires forall i :: 0 <= i < |calls| ==> bound <= calls[i].most
    ensures StaysRecent(seen, make, asked, calls) <==> NoneIsStale(seen, make, calls)
    decreases |calls|
  {
    hide Faithful, IsSuffix, Recency, IsStale, Known, Keys, Set, IndexOf;
    if calls != [] {
      var call := calls[0];
      AnswersAreMade(seen, make, call.key, call.keep, bound, call.most);
      StaleIsUndefined(seen, make, call.key);
      KnownIsFaithful(seen, make, call.key);
      if Touches(seen, call.key, call.keep) {
        RecentIff(seen, make, call.key, call.keep, call.most, asked);
      }
      if IsSuffix(Keys(AfterCall(seen, make, call)), Recency(AskedBy(seen, asked, call))) {
        RunIsRecentIff(AfterCall(seen, make, call), make, AskedBy(seen, asked, call), calls[1..], call.most);
      }
    }
  }

  /** So with no answer of the calls `undefined`: the least recently asked is always the one to go. */
  lemma {:induction false} LeastRecentGoes<A>(
      seen: seq<Kept<A>>, make: string -> Option<A>, asked: seq<string>, calls: seq<Call>, bound: nat)
    requires Faithful(seen, make) && IsSuffix(Keys(seen), Recency(asked)) && |seen| <= bound
    requires forall i, j :: 0 <= i < j < |calls| ==> calls[i].most <= calls[j].most
    requires forall i :: 0 <= i < |calls| ==> bound <= calls[i].most && make(calls[i].key).Some?
    ensures StaysRecent(seen, make, asked, calls)
  {
    hide Faithful, IsSuffix, StaysRecent, NoneIsStale;
    DefinedIsNotStale(seen, make, calls, bound);
    RunIsRecentIff(seen, make, asked, calls, bound);
  }

  lemma {:induction false} DefinedIsNotStale<A>(seen: seq<Kept<A>>, make: string -> Option<A>, calls: seq<Call>, bound: nat)
    requires Faithful(seen, make) && |seen| <= bound
    requires forall i, j :: 0 <= i < j < |calls| ==> calls[i].most <= calls[j].most
    requires forall i :: 0 <= i < |calls| ==> bound <= calls[i].most && make(calls[i].key).Some?
    ensures NoneIsStale(seen, make, calls)
    decreases |calls|
  {
    hide Faithful, IsStale, After;
    if calls != [] {
      var call := calls[0];
      StaleIsUndefined(seen, make, call.key);
      AnswersAreMade(seen, make, call.key, call.keep, bound, call.most);
      DefinedIsNotStale(AfterCall(seen, make, call), make, calls[1..], call.most);
    }
  }

  /** Where a key was last asked for. */
  function LastAsked(asked: seq<string>, key: string): (at: nat)
    requires key in asked
    ensures at < |asked| && asked[at] == key
    decreases |asked|
  {
    if asked[|asked| - 1] == key then |asked| - 1 else LastAsked(asked[..|asked| - 1], key)
  }

  lemma {:induction false} WithoutKeepsOrder(keys: seq<string>, key: string, i: nat, j: nat)
    requires i < j < |Without(keys, key)|
    ensures exists a, b :: 0 <= a < b < |keys| && keys[a] == Without(keys, key)[i] && keys[b] == Without(keys, key)[j]
  {
    var left := Without(keys, key);
    if keys[0] == key {
      WithoutKeepsOrder(keys[1..], key, i, j);
      var a, b :| 0 <= a < b < |keys[1..]| && keys[1..][a] == left[i] && keys[1..][b] == left[j];
      assert keys[a + 1] == left[i] && keys[b + 1] == left[j];
    } else if i == 0 {
      assert left[j] == Without(keys[1..], key)[j - 1];
      assert left[j] in keys[1..];
      var b :| 0 <= b < |keys[1..]| && keys[1..][b] == left[j];
      assert keys[0] == left[0] && keys[b + 1] == left[j];
    } else {
      WithoutKeepsOrder(keys[1..], key, i - 1, j - 1);
      var a, b :| 0 <= a < b < |keys[1..]| && keys[1..][a] == left[i] && keys[1..][b] == left[j];
      assert keys[a + 1] == left[i] && keys[b + 1] == left[j];
    }
  }

  lemma {:induction false} RecencyHasAll(asked: seq<string>)
    ensures forall key :: key in Recency(asked) <==> key in asked
    decreases |asked|
  {
    if asked != [] {
      var front, last := asked[..|asked| - 1], asked[|asked| - 1];
      assert asked == front + [last];
      RecencyHasAll(front);
    }
  }

  /** What `Recency` says: every key asked for, each once, those asked longer ago first. */
  lemma {:induction false} RecencyIsByLastAsked(asked: seq<string>, i: nat, j: nat)
    requires i < j < |Recency(asked)|
    ensures Recency(asked)[i] in asked && Recency(asked)[j] in asked
    ensures LastAsked(asked, Recency(asked)[i]) < LastAsked(asked, Recency(asked)[j])
    decreases |asked|
  {
    RecencyHasAll(asked);
    assert Recency(asked)[i] in Recency(asked) && Recency(asked)[j] in Recency(asked);
    var front, last := asked[..|asked| - 1], asked[|asked| - 1];
    var left := Without(Recency(front), last);
    RecencyHasAll(front);
    assert asked == front + [last] && Recency(asked) == left + [last];
    assert left[i] in left && left[i] in front && left[i] != last;
    if j < |left| {
      assert left[j] in left && left[j] in front && left[j] != last;
      WithoutKeepsOrder(Recency(front), last, i, j);
      var a, b :| 0 <= a < b < |Recency(front)| && Recency(front)[a] == left[i] && Recency(front)[b] == left[j];
      RecencyIsByLastAsked(front, a, b);
    }
  }

  // ----- What a list drawn again finds ---------------------------------------------------

  /** Kept with an answer, and behind it nothing but keys of these. */
  ghost predicate IsBehind<A>(seen: seq<Kept<A>>, key: string, others: set<string>, at: nat) {
    && at < |seen| && seen[at].key == key && seen[at].answer.Some?
    && forall i :: at < i < |seen| ==> seen[i].key in others
  }

  lemma {:induction false} DistinctAreFew(keys: seq<string>, others: set<string>)
    requires forall i, j :: 0 <= i < j < |keys| ==> keys[i] != keys[j]
    requires forall i :: 0 <= i < |keys| ==> keys[i] in others
    ensures |keys| <= |others|
    decreases |keys|
  {
    if keys != [] {
      DistinctAreFew(keys[1..], others - {keys[0]});
    }
  }

  /** One call more: only the keys asked for since come behind, and too few of them to push it out. */
  lemma CallKeepsBehind<A>(seen: seq<Kept<A>>, make: string -> Option<A>, key: string, others: set<string>, at: nat, call: Call)
      returns (now: nat)
    requires Faithful(seen, make) && IsBehind(seen, key, others, at) && |seen| <= call.most
    requires call.key == key || call.key in others
    requires |others| < call.most
    ensures IsBehind(AfterCall(seen, make, call), key, others, now)
  {
    hide IndexOf;
    var j: nat := IndexOf(Keys(seen), call.key);
    KnownIsFaithful(seen, make, call.key);
    if call.key == key {
      IndexIsFirst(seen, make, key, at);
      now := |seen| - 1;
    } else if Known(seen, call.key).Some? {
      IndexIsThere(Keys(seen), call.key);
      now := if j < at then at - 1 else at;
    } else if !call.keep {
      now := at;
    } else {
      var more := Set(seen, call.key, make(call.key));
      SetBehind(seen, make, key, others, at, call.key);
      SetIsFaithful(seen, make, call.key);
      if |more| > call.most {
        if at == 0 {
          AllBehind(more, make, others);
          assert false;
        }
        now := at - 1;
      } else {
        now := at;
      }
    }
  }

  lemma AllBehind<A>(more: seq<Kept<A>>, make: string -> Option<A>, others: set<string>)
    requires Faithful(more, make) && more != [] && forall i :: 0 < i < |more| ==> more[i].key in others
    ensures |more| <= |others| + 1
  {
    DistinctAreFew(Keys(more)[1..], others);
  }

  lemma IndexIsFirst<A>(seen: seq<Kept<A>>, make: string -> Option<A>, key: string, at: nat)
    requires Faithful(seen, make) && at < |seen| && seen[at].key == key
    ensures IndexOf(Keys(seen), key) == at
  {
    assert Keys(seen)[at] == key;
    IndexIsThere(Keys(seen), key);
    assert Keys(seen)[IndexOf(Keys(seen), key)] == seen[IndexOf(Keys(seen), key)].key;
  }

  lemma SetBehind<A>(seen: seq<Kept<A>>, make: string -> Option<A>, key: string, others: set<string>, at: nat, other: string)
    requires Faithful(seen, make) && IsBehind(seen, key, others, at) && other != key && other in others
    ensures IsBehind(Set(seen, other, make(other)), key, others, at)
  {
    hide IndexOf;
    var j: nat := IndexOf(Keys(seen), other);
    if j < |seen| {
      IndexIsThere(Keys(seen), other);
      assert Keys(seen)[j] == seen[j].key;
    }
  }

  /**
    A key asked for and kept is answered from what is kept for as long as fewer other keys
    than there is room for are asked for after.
   */
  lemma {:induction false} AskedIsStillKept<A>(
      seen: seq<Kept<A>>, make: string -> Option<A>, key: string, others: set<string>, at: nat, calls: seq<Call>, bound: nat)
    requires Faithful(seen, make) && IsBehind(seen, key, others, at) && |seen| <= bound && |others| < bound
    requires forall i, j :: 0 <= i < j < |calls| ==> calls[i].most <= calls[j].most
    requires forall i :: 0 <= i < |calls| ==> bound <= calls[i].most && (calls[i].key == key || calls[i].key in others)
    ensures Known(AfterAll(seen, make, calls), key).Some?
    decreases |calls|
  {
    hide After, Faithful;
    if calls == [] {
      IndexIsFirst(seen, make, key, at);
    } else {
      var call := calls[0];
      var now := CallKeepsBehind(seen, make, key, others, at, call);
      AnswersAreMade(seen, make, call.key, call.keep, bound, call.most);
      AskedIsStillKept(AfterCall(seen, make, call), make, key, others, now, calls[1..], call.most);
    }
  }

  /** Just asked for, with an answer, and kept: nothing is behind it. */
  lemma AskedIsLast<A>(seen: seq<Kept<A>>, make: string -> Option<A>, key: string, keep: bool, most: nat) returns (at: nat)
    requires Faithful(seen, make) && make(key).Some? && Touches(seen, key, keep) && |seen| <= most && most > 0
    ensures IsBehind(After(seen, key, make(key), keep, most), key, {}, at)
  {
    hide IndexOf;
    KnownIsFaithful(seen, make, key);
    var j: nat := IndexOf(Keys(seen), key);
    if key in Keys(seen) {
      IndexIsThere(Keys(seen), key);
      assert seen[j].key == Keys(seen)[j];
      at := |seen| - 1;
    } else {
      var more := Set(seen, key, make(key));
      at := if |more| > most then |more| - 2 else |more| - 1;
    }
  }

  /** A list no longer than the room there is, drawn again: each of its rows is answered from what is kept. */
  lemma RedrawMakesNothing<A>(
      seen: seq<Kept<A>>, make: string -> Option<A>, first: Call, others: set<string>, calls: seq<Call>)
    requires Faithful(seen, make) && |seen| <= first.most && first.keep && make(first.key).Some? && |others| < first.most
    requires forall i, j :: 0 <= i < j < |calls| ==> calls[i].most <= calls[j].most
    requires forall i :: 0 <= i < |calls| ==>
               first.most <= calls[i].most && (calls[i].key == first.key || calls[i].key in others)
    ensures Known(AfterAll(seen, make, [first] + calls), first.key).Some?
  {
    hide After, Faithful;
    var at := AskedIsLast(seen, make, first.key, first.keep, first.most);
    AnswersAreMade(seen, make, first.key, first.keep, |seen|, first.most);
    var next := AfterCall(seen, make, first);
    AskedIsStillKept(next, make, first.key, others, at, calls, first.most);
    assert ([first] + calls)[1..] == calls;
  }

  // ----- The cache itself --------------------------------------------------------------

  class Answers<A> {
    var seen: seq<Kept<A>>

    constructor ()
      ensures seen == []
    {
      seen := [];
    }

    /** The answer for a key, made where none is kept. */
    method Ask(key: string, make: string -> Option<A>, keep: bool, most: nat) returns (answer: Option<A>)
      modifies this
      ensures seen == After(old(seen), key, make(key), keep, most)
      ensures answer == Answered(old(seen), key, make(key))
    {
      var at := IndexOf(Keys(seen), key);
      if at < |seen| && seen[at].answer.Some? {
        answer := seen[at].answer;
        seen := seen[..at] + seen[at + 1..] + [seen[at]];
        return;
      }
      answer := make(key);
      if !keep { return; }
      seen := if at < |seen| then seen[at := Kept(key, answer)] else seen + [Kept(key, answer)];
      if |seen| > most {
        seen := seen[1..];
      }
    }
  }
}
