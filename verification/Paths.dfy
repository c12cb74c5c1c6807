/**
  Paths of the library (packages/core/src/paths.ts): POSIX, relative to the app's
  folder, the root being the empty string.

  A path is modelled as the string it is. Its meaning is the list of segments it
  names (`PathSegments`), and what the string operations do is stated on that list:
  `Join` is a bijection from lists of proper segments to normal paths.
 */
module Paths {
  const ROOT: string := ""

  // ----- Splitting and joining ---------------------------------------------------------

  /** `split('/')`: the parts between separators, so `""` is one empty part. */
  function Split(s: string): (parts: seq<string>)
    ensures |parts| > 0
    ensures forall part :: part in parts ==> '/' !in part
  {
    if s == "" then [""]
    else if s[0] == '/' then [""] + Split(s[1..])
    else
      var rest := Split(s[1..]);
      [[s[0]] + rest[0]] + rest[1..]
  }

  /** `join('/')`. */
  function Join(parts: seq<string>): string {
    if |parts| == 0 then ""
    else if |parts| == 1 then parts[0]
    else parts[0] + "/" + Join(parts[1..])
  }

  lemma {:induction false} JoinOfSplit(s: string)
    ensures Join(Split(s)) == s
  {
    if s != "" {
      JoinOfSplit(s[1..]);
      var rest := Split(s[1..]);
      if s[0] == '/' {
        assert ([""] + rest)[1..] == rest;
      } else {
        var parts := [[s[0]] + rest[0]] + rest[1..];
        assert parts[1..] == rest[1..];
        if |rest| > 1 {
          assert Join(parts) == [s[0]] + (rest[0] + "/" + Join(rest[1..]));
        }
      }
    }
  }

  lemma {:induction false} SplitOfJoin(parts: seq<string>)
    requires |parts| > 0
    requires forall part :: part in parts ==> '/' !in part
    ensures Split(Join(parts)) == parts
  {
    if |parts| == 1 {
      SplitPlain(parts[0]);
    } else {
      SplitOfJoin(parts[1..]);
      SplitAtSeparator(parts[0], Join(parts[1..]));
      assert Join(parts) == parts[0] + "/" + Join(parts[1..]);
    }
  }

  lemma {:induction false} SplitPlain(s: string)
    requires '/' !in s
    ensures Split(s) == [s]
  {
    if s != "" {
      SplitPlain(s[1..]);
      assert [s[0]] + s[1..] == s;
    }
  }

  /** What follows the first separator is split on its own. */
  lemma {:induction false} SplitAtSeparator(first: string, rest: string)
    requires '/' !in first
    ensures Split(first + "/" + rest) == [first] + Split(rest)
  {
    var s := first + "/" + rest;
    if first == "" {
      assert s[1..] == rest;
    } else {
      SplitAtSeparator(first[1..], rest);
      assert s[1..] == first[1..] + "/" + rest;
      assert [first[0]] + first[1..] == first;
    }
  }

  // ----- Normal paths ------------------------------------------------------------------

  /** A segment a normal path may have. */
  predicate IsSegment(part: string) {
    part != "" && part != "." && part != ".." && '/' !in part
  }

  predicate AreSegments(parts: seq<string>) {
    forall i :: 0 <= i < |parts| ==> IsSegment(parts[i])
  }

  /** How many characters `[^/]+` takes. */
  function RunLength(s: string): (n: nat)
    ensures n <= |s|
    ensures n < |s| ==> s[n] == '/'
    ensures '/' !in s[..n]
  {
    if s == "" || s[0] == '/' then 0 else
    var n := RunLength(s[1..]) + 1;
    assert s[..n] == [s[0]] + s[1..][..n - 1];
    n
  }

  /** The lookahead `\.\.?(?:\/|$)`. */
  predicate DotAhead(s: string) {
    || (|s| >= 1 && s[0] == '.' && (|s| == 1 || s[1] == '/'))
    || (|s| >= 2 && s[0] == '.' && s[1] == '.' && (|s| == 2 || s[2] == '/'))
  }

  /** One segment that is no dot segment, and after each separator another. */
  predicate SegmentsMatch(s: string) {
    var n := RunLength(s);
    n > 0 && !DotAhead(s) && (n == |s| || SegmentsMatch(s[n + 1..]))
  }

  /** The pattern `ALREADY_NORMAL`, tested on the characters without splitting. */
  predicate AlreadyNormal(path: string) {
    path == "" || SegmentsMatch(path)
  }

  /** Neither empty parts nor `.` parts. */
  function Kept(parts: seq<string>): seq<string> {
    if parts == [] then []
    else (if parts[0] != "" && parts[0] != "." then [parts[0]] else []) + Kept(parts[1..])
  }

  /** The parts resolved from the left: `..` takes off the last part kept, and is nothing at the root. */
  function Climb(done: seq<string>, parts: seq<string>): seq<string>
    decreases parts
  {
    if parts == [] then done
    else if parts[0] == ".." then Climb(if done == [] then [] else done[..|done| - 1], parts[1..])
    else Climb(done + [parts[0]], parts[1..])
  }

  /** Split, filter, resolve: what a path names, whatever it is spelled like. */
  function Resolved(path: string): seq<string> {
    Climb([], Kept(Split(path)))
  }

  function NormalizePath(path: string): string {
    if AlreadyNormal(path) then path else Join(Resolved(path))
  }

  function PathSegments(path: string): seq<string> {
    var normalized := NormalizePath(path);
    if normalized == ROOT then [] else Split(normalized)
  }

  lemma {:induction false} KeptAreNamed(parts: seq<string>)
    requires forall part :: part in parts ==> '/' !in part
    ensures forall part :: part in Kept(parts) ==> IsSegment(part) || part == ".."
  {
    if parts != [] {
      assert forall part :: part in parts[1..] ==> part in parts;
      KeptAreNamed(parts[1..]);
    }
  }

  lemma {:induction false} ClimbGivesSegments(done: seq<string>, parts: seq<string>)
    requires AreSegments(done)
    requires forall part :: part in parts ==> IsSegment(part) || part == ".."
    ensures AreSegments(Climb(done, parts))
    decreases parts
  {
    if parts != [] {
      assert forall part :: part in parts[1..] ==> part in parts;
      if parts[0] == ".." {
        ClimbGivesSegments(if done == [] then [] else done[..|done| - 1], parts[1..]);
      } else {
        assert parts[0] in parts;
        ClimbGivesSegments(done + [parts[0]], parts[1..]);
      }
    }
  }

  lemma ResolvedAreSegments(path: string)
    ensures AreSegments(Resolved(path))
  {
    KeptAreNamed(Split(path));
    ClimbGivesSegments([], Kept(Split(path)));
  }

  lemma {:induction false} KeptOfSegments(parts: seq<string>)
    requires AreSegments(parts)
    ensures Kept(parts) == parts
  {
    if parts != [] {
      assert IsSegment(parts[0]);
      assert forall i :: 0 <= i < |parts| - 1 ==> parts[1..][i] == parts[i + 1];
      KeptOfSegments(parts[1..]);
    }
  }

  lemma {:induction false} ClimbOfSegments(done: seq<string>, parts: seq<string>)
    requires AreSegments(parts)
    ensures Climb(done, parts) == done + parts
    decreases parts
  {
    if parts != [] {
      assert IsSegment(parts[0]);
      assert forall i :: 0 <= i < |parts| - 1 ==> parts[1..][i] == parts[i + 1];
      ClimbOfSegments(done + [parts[0]], parts[1..]);
    }
  }

  lemma SegmentsHaveNoSeparator(parts: seq<string>)
    requires AreSegments(parts)
    ensures forall part :: part in parts ==> '/' !in part
  {}

  /** The pattern holds of exactly the strings whose parts are all proper segments. */
  lemma {:induction false} MatchIffSegments(s: string)
    ensures SegmentsMatch(s) <==> AreSegments(Split(s))
    decreases |s|
  {
    var n := RunLength(s);
    var first := s[..n];
    if n == |s| {
      assert first == s;
      SplitPlain(s);
      assert AreSegments([s]) <==> IsSegment([s][0]);
      assert !DotAhead(s) <==> s != "." && s != "..";
    } else {
      var rest := s[n + 1..];
      assert s == first + "/" + rest;
      SplitAtSeparator(first, rest);
      MatchIffSegments(rest);
      assert Split(s) == [first] + Split(rest);
      assert Split(s)[0] == first && Split(s)[1..] == Split(rest);
      SegmentsCons(first, Split(rest));
      DotAheadIsDotSegment(s, n);
    }
  }

  lemma SegmentsCons(first: string, rest: seq<string>)
    ensures AreSegments([first] + rest) <==> IsSegment(first) && AreSegments(rest)
  {
    var all := [first] + rest;
    assert all[0] == first;
    assert forall i :: 0 <= i < |rest| ==> all[i + 1] == rest[i];
  }

  lemma DotAheadIsDotSegment(s: string, n: nat)
    requires n < |s| && s[n] == '/' && '/' !in s[..n]
    ensures n > 0 ==> (DotAhead(s) <==> s[..n] == "." || s[..n] == "..")
  {
    forall i | 0 <= i < n
      ensures s[i] != '/'
    {
      assert s[i] == s[..n][i];
    }
    if n == 1 {
      assert s[..n] == [s[0]];
    } else if n == 2 {
      assert s[..n] == [s[0], s[1]];
    }
  }

  /** The shortcut answers what the long way would, on every string. */
  lemma ShortcutAgrees(path: string)
    ensures NormalizePath(path) == Join(Resolved(path))
  {
    if AlreadyNormal(path) {
      if path == "" {
        assert Split("") == [""];
        assert Kept([""]) == [] + Kept([""][1..]);
      } else {
        MatchIffSegments(path);
        KeptOfSegments(Split(path));
        ClimbOfSegments([], Split(path));
        assert [] + Split(path) == Split(path);
        JoinOfSplit(path);
      }
    }
  }

  /** A normal path names its own parts, and the parts spell the path. */
  lemma JoinIsNormal(segments: seq<string>)
    requires AreSegments(segments)
    ensures AlreadyNormal(Join(segments))
    ensures NormalizePath(Join(segments)) == Join(segments)
    ensures PathSegments(Join(segments)) == segments
    ensures Join(segments) == ROOT <==> segments == []
  {
    if segments != [] {
      SegmentsHaveNoSeparator(segments);
      SplitOfJoin(segments);
      MatchIffSegments(Join(segments));
      assert IsSegment(segments[0]);
      assert Split("") == [""];
      assert Join(segments) == "" ==> segments == [""];
    }
  }

  lemma SegmentsOfPath(path: string)
    ensures AreSegments(PathSegments(path))
    ensures Join(PathSegments(path)) == NormalizePath(path)
    ensures PathSegments(path) == Resolved(path)
  {
    ShortcutAgrees(path);
    ResolvedAreSegments(path);
    JoinIsNormal(Resolved(path));
    JoinOfSplit(NormalizePath(path));
    SegmentsHaveNoSeparator(Resolved(path));
    if Resolved(path) != [] {
      SplitOfJoin(Resolved(path));
    }
  }

  lemma NormalizeIdempotent(path: string)
    ensures NormalizePath(NormalizePath(path)) == NormalizePath(path)
    ensures PathSegments(NormalizePath(path)) == PathSegments(path)
  {
    SegmentsOfPath(path);
    JoinIsNormal(PathSegments(path));
  }

  /** Two paths are normalized alike exactly when they name the same segments. */
  lemma SameSegments(a: string, b: string)
    ensures NormalizePath(a) == NormalizePath(b) <==> PathSegments(a) == PathSegments(b)
  {
    SegmentsOfPath(a);
    SegmentsOfPath(b);
  }

  // ----- Parents, names, joining -------------------------------------------------------

  function Init(parts: seq<string>): seq<string> {
    if parts == [] then [] else parts[..|parts| - 1]
  }

  function ParentPath(path: string): string {
    Join(Init(PathSegments(path)))
  }

  function Basename(path: string): string {
    var segments := PathSegments(path);
    if segments == [] then ROOT else segments[|segments| - 1]
  }

  /** `joinPath` of two parts, which is how the store calls it. */
  function JoinPath(folder: string, name: string): string {
    NormalizePath(folder + "/" + name)
  }

  function ReplaceBasename(path: string, name: string): string {
    JoinPath(ParentPath(path), name)
  }

  lemma ParentSegments(path: string)
    ensures PathSegments(ParentPath(path)) == Init(PathSegments(path))
    ensures NormalizePath(ParentPath(path)) == ParentPath(path)
    ensures PathSegments(path) != [] ==>
              PathSegments(path) == PathSegments(ParentPath(path)) + [Basename(path)]
              && IsSegment(Basename(path))
  {
    SegmentsOfPath(path);
    JoinIsNormal(Init(PathSegments(path)));
  }

  lemma {:induction false} KeptConcat(a: seq<string>, b: seq<string>)
    ensures Kept(a + b) == Kept(a) + Kept(b)
  {
    if a == [] {
      assert a + b == b;
    } else {
      assert (a + b)[1..] == a[1..] + b;
      KeptConcat(a[1..], b);
    }
  }

  lemma {:induction false} SplitConcat(a: string, b: string)
    ensures Split(a + "/" + b) == Split(a) + Split(b)
    decreases |a|
  {
    hide Split;
    var n := RunLength(a);
    if n == |a| {
      assert a[..n] == a;
      SplitPlain(a);
      SplitAtSeparator(a, b);
    } else {
      var first, rest := a[..n], a[n + 1..];
      assert a == first + "/" + rest;
      SplitConcat(rest, b);
      SplitAtSeparator(first, rest);
      SplitAtSeparator(first, rest + "/" + b);
      assert a + "/" + b == first + "/" + (rest + "/" + b);
    }
  }

  lemma {:induction false} ClimbConcat(done: seq<string>, a: seq<string>, b: seq<string>)
    ensures Climb(done, a + b) == Climb(Climb(done, a), b)
    decreases a
  {
    if a == [] {
      assert a + b == b;
    } else {
      assert (a + b)[1..] == a[1..] + b && (a + b)[0] == a[0];
      ClimbConcat(if a[0] == ".." then (if done == [] then [] else done[..|done| - 1]) else done + [a[0]], a[1..], b);
    }
  }

  /**
    What a path names, one part at a time: nothing more for an empty part or a dot, one
    segment less for two dots where there is one, and the part itself otherwise. It is
    spelled as its segments are, joined. This is all of it, as every path is one part, or
    a path and a part.
   */
  lemma SegmentsInTurn(path: string, part: string)
    requires '/' !in part
    ensures PathSegments(path + "/" + part)
            == if part == "" || part == "." then PathSegments(path)
               else if part == ".." then Init(PathSegments(path))
               else PathSegments(path) + [part]
    ensures PathSegments(part) == if IsSegment(part) then [part] else []
    ensures NormalizePath(path) == Join(PathSegments(path))
  {
    SplitConcat(path, part);
    SplitPlain(part);
    KeptConcat(Split(path), [part]);
    ClimbConcat([], Kept(Split(path)), Kept([part]));
    KeptOfOne(part);
    ClimbOfOne(Resolved(path), part);
    ClimbOfOne([], part);
    SegmentsOfPath(path);
    SegmentsOfPath(part);
    SegmentsOfPath(path + "/" + part);
  }

  lemma KeptOfOne(part: string)
    ensures Kept([part]) == if part == "" || part == "." then [] else [part]
  {
    assert [part][1..] == [];
  }

  lemma ClimbOfOne(done: seq<string>, part: string)
    ensures Climb(done, [part]) == if part == ".." then Init(done) else done + [part]
    ensures Climb(done, []) == done
  {
    assert [part][1..] == [];
    assert Climb(done + [part], []) == done + [part];
  }

  /** A folder's path and one name in it, joined, is the folder's segments and the name. */
  lemma JoinPathSegments(folder: string, name: string)
    requires IsSegment(name)
    ensures PathSegments(JoinPath(folder, name)) == PathSegments(folder) + [name]
    ensures NormalizePath(JoinPath(folder, name)) == JoinPath(folder, name)
    ensures Basename(JoinPath(folder, name)) == name
    ensures PathSegments(ParentPath(JoinPath(folder, name))) == PathSegments(folder)
  {
    var path := folder + "/" + name;
    SplitConcat(folder, name);
    SplitPlain(name);
    KeptConcat(Split(folder), [name]);
    assert Kept([name]) == [name] + Kept([name][1..]);
    ClimbConcat([], Kept(Split(folder)), [name]);
    var before := Resolved(folder);
    assert Climb(before, [name]) == Climb(before + [name], [name][1..]);
    SegmentsOfPath(path);
    SegmentsOfPath(folder);
    NormalizeIdempotent(path);
    ParentSegments(JoinPath(folder, name));
    assert Init(PathSegments(folder) + [name]) == PathSegments(folder);
  }

  /** The proper prefixes of a path's segments but the empty one, by length. */
  function AncestorPaths(path: string): seq<string>
    decreases |PathSegments(path)|
  {
    var parent := ParentPath(path);
    SegmentsOfPath(path);
    ParentSegments(path);
    if parent == ROOT then []
    else
      assert PathSegments(path) != [];
      AncestorPaths(parent) + [parent]
  }

  // ----- Containment -------------------------------------------------------------------

  predicate IsPrefix(a: string, b: string) {
    |a| <= |b| && b[..|a|] == a
  }

  predicate IsWithin(path: string, folder: string) {
    var target, base := NormalizePath(path), NormalizePath(folder);
    base == ROOT || target == base || IsPrefix(base + "/", target)
  }

  lemma {:induction false} JoinAppend(a: seq<string>, b: seq<string>)
    requires a != [] && b != []
    ensures Join(a + b) == Join(a) + "/" + Join(b)
  {
    if |a| == 1 {
      assert (a + b)[1..] == b;
    } else {
      assert (a + b)[1..] == a[1..] + b;
      JoinAppend(a[1..], b);
    }
  }

  /** A path is within a folder exactly when the folder's segments begin the path's. */
  lemma WithinIsPrefix(path: string, folder: string)
    ensures IsWithin(path, folder) <==> PathSegments(folder) <= PathSegments(path)
  {
    var p, f := PathSegments(path), PathSegments(folder);
    var target, base := NormalizePath(path), NormalizePath(folder);
    SegmentsOfPath(path);
    SegmentsOfPath(folder);
    JoinIsNormal(f);
    if f != [] {
      if f <= p {
        assert p == f + p[|f|..];
        if p[|f|..] != [] {
          JoinAppend(f, p[|f|..]);
        } else {
          assert p == f;
        }
      }
      if IsPrefix(base + "/", target) {
        var rest := target[|base| + 1..];
        assert target == base + "/" + rest;
        SplitConcat(base, rest);
        SegmentsHaveNoSeparator(f);
        SplitOfJoin(f);
        assert Split(target) == f + Split(rest);
      }
      if target == base {
        SameSegments(path, folder);
      }
    }
  }

  /** The path under `from` moved to sit under `to`. */
  function RebasePath(path: string, from: string, to: string): string {
    if !IsWithin(path, from) then NormalizePath(path)
    else
      WithinIsPrefix(path, from);
      SegmentsOfPath(path);
      SegmentsOfPath(from);
      PrefixIsShorter(PathSegments(from), PathSegments(path));
      NormalizePath(NormalizePath(to) + NormalizePath(path)[|NormalizePath(from)|..])
  }

  lemma PrefixIsShorter(a: seq<string>, b: seq<string>)
    requires a <= b
    ensures |Join(a)| <= |Join(b)|
  {
    if a != [] && a != b {
      assert b == a + b[|a|..];
      JoinAppend(a, b[|a|..]);
    }
  }

  /** On segments: the prefix `from` is replaced by `to`. */
  lemma RebaseSegments(path: string, from: string, to: string)
    requires IsWithin(path, from) && PathSegments(from) != []
    ensures PathSegments(from) <= PathSegments(path)
    ensures PathSegments(RebasePath(path, from, to))
            == PathSegments(to) + PathSegments(path)[|PathSegments(from)|..]
    ensures NormalizePath(RebasePath(path, from, to)) == RebasePath(path, from, to)
  {
    hide PathSegments, Join, AlreadyNormal, Resolved;
    SuffixOfPath(path, from);
    var f, rest := PathSegments(from), PathSegments(path)[|PathSegments(from)|..];
    var moved := NormalizePath(to) + NormalizePath(path)[|NormalizePath(from)|..];
    NormalizeIdempotent(moved);
    NormalizeIdempotent(to);
    if rest == [] {
      assert moved == NormalizePath(to);
      assert PathSegments(to) + rest == PathSegments(to);
    } else {
      RebasedParts(NormalizePath(to), rest);
      assert moved == NormalizePath(to) + "/" + Join(rest);
    }
  }

  /** What `rebasePath` slices off: the rest of the path, with the separator before it. */
  lemma SuffixOfPath(path: string, from: string)
    requires IsWithin(path, from) && PathSegments(from) != []
    ensures PathSegments(from) <= PathSegments(path)
    ensures AreSegments(PathSegments(path)[|PathSegments(from)|..])
    ensures |NormalizePath(from)| <= |NormalizePath(path)|
    ensures var rest := PathSegments(path)[|PathSegments(from)|..];
            NormalizePath(path)[|NormalizePath(from)|..] == if rest == [] then "" else "/" + Join(rest)
  {
    var p, f := PathSegments(path), PathSegments(from);
    WithinIsPrefix(path, from);
    SegmentsOfPath(path);
    SegmentsOfPath(from);
    var rest := p[|f|..];
    assert p == f + rest;
    if rest == [] {
      assert p == f;
    } else {
      JoinAppend(f, rest);
      assert NormalizePath(path) == NormalizePath(from) + ("/" + Join(rest));
    }
  }

  lemma RebasedParts(to: string, rest: seq<string>)
    requires AreSegments(rest) && rest != []
    ensures PathSegments(to + "/" + Join(rest)) == PathSegments(to) + rest
  {
    SplitConcat(to, Join(rest));
    SegmentsHaveNoSeparator(rest);
    SplitOfJoin(rest);
    KeptConcat(Split(to), rest);
    KeptOfSegments(rest);
    ClimbConcat([], Kept(Split(to)), rest);
    ClimbOfSegments(Resolved(to), rest);
    SegmentsOfPath(to + "/" + Join(rest));
    SegmentsOfPath(to);
  }

  /** Moving a subtree and moving it back is the identity on the paths in it. */
  lemma RebaseUndone(path: string, from: string, to: string)
    requires PathSegments(from) != [] && PathSegments(to) != []
    requires IsWithin(path, from)
    ensures IsWithin(RebasePath(path, from, to), to)
    ensures RebasePath(RebasePath(path, from, to), to, from) == NormalizePath(path)
  {
    hide IsWithin, RebasePath, PathSegments, NormalizePath;
    var there := RebasePath(path, from, to);
    RebaseSegments(path, from, to);
    WithinIsPrefix(there, to);
    RebaseSegments(there, to, from);
    SegmentsOfPath(path);
    var p, f, t := PathSegments(path), PathSegments(from), PathSegments(to);
    assert (t + p[|f|..])[|t|..] == p[|f|..];
    assert f + p[|f|..] == p;
    SameSegments(RebasePath(there, to, from), path);
  }

  /** And it keeps which of two paths in the subtree holds the other. */
  lemma RebaseKeepsWithin(path: string, folder: string, from: string, to: string)
    requires PathSegments(from) != []
    requires IsWithin(path, from) && IsWithin(folder, from)
    ensures IsWithin(RebasePath(path, from, to), RebasePath(folder, from, to))
            <==> IsWithin(path, folder)
  {
    hide IsWithin, RebasePath, PathSegments;
    RebaseSegments(path, from, to);
    RebaseSegments(folder, from, to);
    WithinIsPrefix(path, folder);
    WithinIsPrefix(RebasePath(path, from, to), RebasePath(folder, from, to));
    var p, d := PathSegments(path), PathSegments(folder);
    var f, t := PathSegments(from), PathSegments(to);
    PrefixSwap(f, p[|f|..], d[|f|..]);
    PrefixSwap(t, p[|f|..], d[|f|..]);
    assert p == f + p[|f|..] && d == f + d[|f|..];
  }

  lemma PrefixSwap(front: seq<string>, a: seq<string>, b: seq<string>)
    ensures front + b <= front + a <==> b <= a
  {
    if front + b <= front + a {
      forall i | 0 <= i < |b|
        ensures b[i] == a[i]
      {
        assert (front + b)[|front| + i] == (front + a)[|front| + i];
      }
    }
  }

  /** Rebasing tells apart what it was told apart by. */
  lemma RebaseInjective(a: string, b: string, from: string, to: string)
    requires PathSegments(from) != []
    requires IsWithin(a, from) && IsWithin(b, from)
    requires RebasePath(a, from, to) == RebasePath(b, from, to)
    ensures NormalizePath(a) == NormalizePath(b)
  {
    hide IsWithin, RebasePath, PathSegments, NormalizePath;
    RebaseSegments(a, from, to);
    RebaseSegments(b, from, to);
    var p, q, f := PathSegments(a), PathSegments(b), PathSegments(from);
    SameTail(PathSegments(to), p[|f|..], q[|f|..]);
    assert p == f + p[|f|..] && q == f + q[|f|..];
    SameSegments(a, b);
  }

  lemma SameTail(front: seq<string>, a: seq<string>, b: seq<string>)
    requires front + a == front + b
    ensures a == b
  {
    assert (front + a)[|front|..] == a && (front + b)[|front|..] == b;
  }

  /** The ancestors are the proper prefixes of the segments, the shortest first. */
  lemma {:induction false} AncestorsArePrefixes(path: string)
    ensures |AncestorPaths(path)| == if PathSegments(path) == [] then 0 else |PathSegments(path)| - 1
    ensures forall i :: 0 <= i < |AncestorPaths(path)| ==>
              PathSegments(AncestorPaths(path)[i]) == PathSegments(path)[..i + 1]
              && NormalizePath(AncestorPaths(path)[i]) == AncestorPaths(path)[i]
    decreases |PathSegments(path)|
  {
    hide PathSegments, Join, NormalizePath;
    var p, parent := PathSegments(path), ParentPath(path);
    ParentSegments(path);
    SegmentsOfPath(path);
    JoinIsNormal(Init(p));
    if parent != ROOT {
      AncestorsArePrefixes(parent);
      forall i | 0 <= i < |AncestorPaths(parent)|
        ensures PathSegments(AncestorPaths(path)[i]) == p[..i + 1]
      {
        assert Init(p)[..i + 1] == p[..i + 1];
      }
    }
  }

  /** So they are exactly the folders, other than the root and the path itself, the path is within. */
  lemma AncestorsAreEnclosing(path: string, folder: string)
    requires NormalizePath(folder) == folder
    ensures folder in AncestorPaths(path)
            <==> folder != ROOT && folder != NormalizePath(path) && IsWithin(path, folder)
  {
    var p, f := PathSegments(path), PathSegments(folder);
    AncestorsArePrefixes(path);
    WithinIsPrefix(path, folder);
    SegmentsOfPath(folder);
    JoinIsNormal(f);
    SameSegments(path, folder);
    var all := AncestorPaths(path);
    if folder in all {
      var i :| 0 <= i < |all| && all[i] == folder;
      assert f == p[..i + 1];
    }
    if folder != ROOT && folder != NormalizePath(path) && f <= p {
      assert 0 < |f| < |p|;
      var i := |f| - 1;
      assert PathSegments(all[i]) == p[..i + 1] == f;
      SameSegments(all[i], folder);
    }
  }

  /** How many segments a path has. */
  function PathDepth(path: string): nat {
    |PathSegments(path)|
  }
}
