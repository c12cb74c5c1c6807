/**
  Free names (apps/web/src/store/naming.ts) and the names they are made of
  (packages/core/src/names): how two names are compared, the numbered name a
  collision gives way to, the name of a conflict copy, and the spelling a notebook
  takes in a source.

  Names are compared by `FoldName`. Case is folded for ASCII letters; every other
  character is its own fold.
 */
module Naming {
  import opened Paths

  const NOTE_EXTENSION := ".md"

  // ----- Folding -----------------------------------------------------------------------

  function Lower(c: char): char {
    if 'A' <= c <= 'Z' then (c as int + 32) as char else c
  }

  function FoldName(name: string): (folded: string)
    ensures |folded| == |name|
    ensures forall i :: 0 <= i < |name| ==> folded[i] == Lower(name[i])
  {
    seq(|name|, i requires 0 <= i < |name| => Lower(name[i]))
  }

  function FoldPath(path: string): string {
    FoldName(NormalizePath(path))
  }

  function FoldAll(names: seq<string>): (folded: seq<string>)
    ensures |folded| == |names|
    ensures forall i :: 0 <= i < |names| ==> folded[i] == FoldName(names[i])
  {
    seq(|names|, i requires 0 <= i < |names| => FoldName(names[i]))
  }

  /** What a path is compared by: its segments, folded. */
  function FoldSegments(path: string): seq<string> {
    FoldAll(PathSegments(path))
  }

  lemma FoldConcat(a: string, b: string)
    ensures FoldName(a + b) == FoldName(a) + FoldName(b)
  {}

  lemma FoldIdempotent(name: string)
    ensures FoldName(FoldName(name)) == FoldName(name)
  {}

  lemma {:induction false} FoldJoin(parts: seq<string>)
    ensures FoldName(Join(parts)) == Join(FoldAll(parts))
  {
    if |parts| > 1 {
      FoldJoin(parts[1..]);
      assert FoldAll(parts)[1..] == FoldAll(parts[1..]);
      FoldConcat(parts[0] + "/", Join(parts[1..]));
      FoldConcat(parts[0], "/");
      assert FoldName("/") == "/";
    }
  }

  lemma FoldKeepsSegment(name: string)
    ensures IsSegment(FoldName(name)) <==> IsSegment(name)
  {
    if '/' in name {
      var i :| 0 <= i < |name| && name[i] == '/';
      assert FoldName(name)[i] == '/';
    }
    if '/' in FoldName(name) {
      var i :| 0 <= i < |name| && FoldName(name)[i] == '/';
      assert name[i] == '/';
    }
    if FoldName(name) == "." || FoldName(name) == ".." {
      assert forall i :: 0 <= i < |name| ==> FoldName(name)[i] == '.' && name[i] == '.';
    }
  }

  /** A folded path is the path of the folded segments. */
  lemma FoldPathSegments(path: string)
    ensures FoldPath(path) == Join(FoldSegments(path))
    ensures AreSegments(FoldSegments(path))
    ensures PathSegments(FoldPath(path)) == FoldSegments(path)
    ensures FoldPath(FoldPath(path)) == FoldPath(path)
  {
    SegmentsOfPath(path);
    FoldJoin(PathSegments(path));
    forall i | 0 <= i < |FoldSegments(path)|
      ensures IsSegment(FoldSegments(path)[i])
    {
      FoldKeepsSegment(PathSegments(path)[i]);
    }
    JoinIsNormal(FoldSegments(path));
    FoldIdempotent(NormalizePath(path));
  }

  lemma SameFold(a: string, b: string)
    ensures FoldPath(a) == FoldPath(b) <==> FoldSegments(a) == FoldSegments(b)
  {
    FoldPathSegments(a);
    FoldPathSegments(b);
  }

  /** Two paths below the root are one file exactly when their folders are one and their names are. */
  lemma SameFoldByParts(a: string, b: string)
    requires PathSegments(a) != [] && PathSegments(b) != []
    ensures FoldPath(a) == FoldPath(b)
            <==> FoldPath(ParentPath(a)) == FoldPath(ParentPath(b))
                 && FoldName(Basename(a)) == FoldName(Basename(b))
  {
    SameFold(a, b);
    SameFold(ParentPath(a), ParentPath(b));
    FoldOfParts(a);
    FoldOfParts(b);
    var x, y := FoldSegments(ParentPath(a)), FoldSegments(ParentPath(b));
    if x + [FoldName(Basename(a))] == y + [FoldName(Basename(b))] {
      assert (x + [FoldName(Basename(a))])[..|x|] == x;
      assert (y + [FoldName(Basename(b))])[..|y|] == y;
    }
  }

  lemma FoldOfParts(path: string)
    requires PathSegments(path) != []
    ensures FoldSegments(path) == FoldSegments(ParentPath(path)) + [FoldName(Basename(path))]
  {
    ParentSegments(path);
  }

  /** Joining a name onto a folder, folded. */
  lemma FoldOfJoin(folder: string, name: string)
    requires IsSegment(name)
    ensures FoldSegments(JoinPath(folder, name)) == FoldSegments(folder) + [FoldName(name)]
  {
    JoinPathSegments(folder, name);
  }

  // ----- Numbers in names --------------------------------------------------------------

  function Digit(d: nat): char
    requires d < 10
  {
    ('0' as int + d) as char
  }

  function Decimal(n: nat): (digits: string)
    ensures |digits| > 0
    ensures forall i :: 0 <= i < |digits| ==> '0' <= digits[i] <= '9'
  {
    if n < 10 then [Digit(n)] else Decimal(n / 10) + [Digit(n % 10)]
  }

  /** What digits are read as. */
  function ValueOf(digits: string): int {
    if digits == "" then 0
    else ValueOf(digits[..|digits| - 1]) * 10 + (digits[|digits| - 1] as int - '0' as int)
  }

  lemma {:induction false} DecimalReadBack(n: nat)
    ensures ValueOf(Decimal(n)) == n
  {
    var digits := Decimal(n);
    if n < 10 {
      assert digits[..0] == "";
    } else {
      DecimalReadBack(n / 10);
      assert digits[..|digits| - 1] == Decimal(n / 10);
    }
  }

  lemma DecimalInjective(n: nat, m: nat)
    requires Decimal(n) == Decimal(m)
    ensures n == m
  {
    DecimalReadBack(n);
    DecimalReadBack(m);
  }

  lemma FoldDecimal(n: nat)
    ensures FoldName(Decimal(n)) == Decimal(n)
  {}

  /** How many digits a name ends with. */
  function DigitRun(name: string): (n: nat)
    ensures n <= |name|
  {
    if name != "" && '0' <= name[|name| - 1] <= '9' then DigitRun(name[..|name| - 1]) + 1 else 0
  }

  lemma {:induction false} DigitRunAfterMark(a: string, mark: char, digits: string)
    requires !('0' <= mark <= '9')
    requires forall i :: 0 <= i < |digits| ==> '0' <= digits[i] <= '9'
    ensures DigitRun(a + [mark] + digits) == |digits|
  {
    var name := a + [mark] + digits;
    if digits != "" {
      var fewer := digits[..|digits| - 1];
      DigitRunAfterMark(a, mark, fewer);
      assert name[..|name| - 1] == a + [mark] + fewer;
    }
  }

  lemma SameFront(a: string, b: string, rest: string)
    ensures a + rest == b + rest ==> a == b
  {
    if a + rest == b + rest {
      assert (a + rest)[..|a|] == a && (b + rest)[..|b|] == b;
    }
  }

  /** A number ending a name can be read back, whatever the name before it. */
  lemma NumberReadBack(a: string, b: string, mark: char, n: nat, m: nat, rest: string)
    requires !('0' <= mark <= '9')
    requires a + [mark] + Decimal(n) + rest == b + [mark] + Decimal(m) + rest
    ensures n == m
  {
    var x, y := a + [mark] + Decimal(n), b + [mark] + Decimal(m);
    SameFront(x, y, rest);
    DigitRunAfterMark(a, mark, Decimal(n));
    DigitRunAfterMark(b, mark, Decimal(m));
    assert x[|a| + 1..] == Decimal(n) && y[|b| + 1..] == Decimal(m);
    DecimalInjective(n, m);
  }

  // ----- The least free candidate ------------------------------------------------------

  ghost predicate Distinct(candidate: nat -> string) {
    forall i: nat, j: nat :: candidate(i) == candidate(j) ==> i == j
  }

  /** What is left of `used` for the search to step over. */
  ghost function Ahead(candidate: nat -> string, used: set<string>, n: nat): set<string> {
    set name | name in used && exists m: nat :: m >= n && candidate(m) == name
  }

  lemma AheadShrinks(candidate: nat -> string, used: set<string>, n: nat)
    requires Distinct(candidate) && candidate(n) in used
    ensures Ahead(candidate, used, n + 1) < Ahead(candidate, used, n)
  {
    assert candidate(n) in Ahead(candidate, used, n);
    assert candidate(n) !in Ahead(candidate, used, n + 1);
  }

  /** The search every renamer makes: the first candidate, from `n` up, that is not used. */
  function LeastFree(candidate: nat -> string, used: set<string>, n: nat): (free: nat)
    requires Distinct(candidate)
    ensures n <= free && candidate(free) !in used
    ensures forall m: nat :: n <= m < free ==> candidate(m) in used
    decreases Ahead(candidate, used, n)
  {
    if candidate(n) !in used then n
    else
      AheadShrinks(candidate, used, n);
      LeastFree(candidate, used, n + 1)
  }

  /** The search looks at nothing of what is used but the candidates. */
  lemma LeastFreeSame(candidate: nat -> string, a: set<string>, b: set<string>)
    requires Distinct(candidate) && forall m: nat :: candidate(m) in a <==> candidate(m) in b
    ensures LeastFree(candidate, a, 0) == LeastFree(candidate, b, 0)
  {
    var x: nat, y: nat := LeastFree(candidate, a, 0), LeastFree(candidate, b, 0);
    assert candidate(x) !in a && candidate(y) !in b;
  }

  // ----- Slugs -------------------------------------------------------------------------

  const UNSAFE := "/\\:*?\"<>|#%{}^[]`~$&+=;@!'()"
  const UNTITLED_SLUG := "untitled"
  const MAX_SLUG_CODE_POINTS := 120
  const MAX_SLUG_BYTES := 216
  const MAX_NAME_BYTES := 255

  predicate IsControl(c: char) {
    c < ' ' || '\U{7f}' <= c <= '\U{9f}'
  }

  predicate IsSpace(c: char) {
    || c == ' ' || '\t' <= c <= '\r'
    || c == '\U{a0}' || c == '\U{1680}' || '\U{2000}' <= c <= '\U{200a}'
    || c == '\U{2028}' || c == '\U{2029}' || c == '\U{202f}' || c == '\U{205f}'
    || c == '\U{3000}' || c == '\U{feff}'
  }

  /** Whitespace and the punctuation people separate words with. */
  predicate IsGap(c: char) {
    IsSpace(c) || c == '.' || c == '_' || c == ',' || c == '-'
  }

  function Cleaned(c: char): char {
    var low := Lower(c);
    if IsControl(low) || low in UNSAFE then ' ' else low
  }

  /** Every run of gaps is one hyphen. */
  function Hyphenated(title: string, inGap: bool): (slug: string)
    ensures '/' !in slug
  {
    if title == "" then ""
    else
      var c := Cleaned(title[0]);
      if IsGap(c) then (if inGap then "" else "-") + Hyphenated(title[1..], true)
      else [c] + Hyphenated(title[1..], false)
  }

  function TrimStart(s: string): (t: string)
    ensures '/' !in s ==> '/' !in t
  {
    if s != "" && s[0] == '-' then TrimStart(s[1..]) else s
  }

  function TrimEnd(s: string): (t: string)
    ensures '/' !in s ==> '/' !in t
  {
    if s != "" && s[|s| - 1] == '-' then TrimEnd(s[..|s| - 1]) else s
  }

  /** How many bytes of UTF-8 a character takes. */
  function CharBytes(c: char): nat {
    if c < '\U{80}' then 1 else if c < '\U{800}' then 2 else if c < '\U{10000}' then 3 else 4
  }

  function Utf8Length(text: string): nat {
    if text == "" then 0 else CharBytes(text[0]) + Utf8Length(text[1..])
  }

  /** The longest prefix of `text` within a number of characters and a number of bytes. */
  function Cut(text: string, points: nat, bytes: int): (fit: string)
    ensures fit <= text
  {
    if text == "" || points == 0 || CharBytes(text[0]) > bytes then ""
    else [text[0]] + Cut(text[1..], points - 1, bytes - CharBytes(text[0]))
  }

  function ToSlug(title: string): string {
    TrimEnd(Cut(TrimEnd(TrimStart(Hyphenated(title, false))), MAX_SLUG_CODE_POINTS, MAX_SLUG_BYTES))
  }

  predicate IsReserved(slug: string) {
    || slug == "con" || slug == "prn" || slug == "aux" || slug == "nul"
    || (|slug| == 4 && (slug[..3] == "com" || slug[..3] == "lpt")
        && ('0' <= slug[3] <= '9' || slug[3] in "\U{b9}\U{b2}\U{b3}"))
  }

  function Slugify(title: string): (slug: string)
    ensures slug != "" && '/' !in slug
  {
    var slug := ToSlug(title);
    if slug == "" then UNTITLED_SLUG else if IsReserved(slug) then slug + "-note" else slug
  }

  lemma {:induction false} HyphenatedHasNoBracket(title: string, inGap: bool)
    ensures '(' !in Hyphenated(title, inGap)
  {
    if title != "" {
      HyphenatedHasNoBracket(title[1..], true);
      HyphenatedHasNoBracket(title[1..], false);
    }
  }

  lemma {:induction false} TrimmedHasNoBracket(s: string)
    requires '(' !in s
    ensures '(' !in TrimStart(s) && '(' !in TrimEnd(s)
    decreases |s|
  {
    if s != "" {
      TrimmedHasNoBracket(s[1..]);
      TrimmedHasNoBracket(s[..|s| - 1]);
    }
  }

  /** A slug never has a bracket, which every conflict name has. */
  lemma SlugHasNoBracket(title: string)
    ensures '(' !in Slugify(title)
  {
    var hyphenated := Hyphenated(title, false);
    HyphenatedHasNoBracket(title, false);
    TrimmedHasNoBracket(hyphenated);
    TrimmedHasNoBracket(TrimStart(hyphenated));
    var trimmed := TrimEnd(TrimStart(hyphenated));
    var fit := Cut(trimmed, MAX_SLUG_CODE_POINTS, MAX_SLUG_BYTES);
    assert forall i :: 0 <= i < |fit| ==> fit[i] == trimmed[i];
    TrimmedHasNoBracket(fit);
  }

  // ----- Free names --------------------------------------------------------------------

  function Folded(names: set<string>): set<string> {
    set name | name in names :: FoldName(name)
  }

  function FoldedPaths(paths: set<string>): set<string> {
    set path | path in paths :: FoldPath(path)
  }

  /** `name.md`, then `name-2.md`, `name-3.md`. */
  function NumberedNote(base: string, n: nat): string {
    if n <= 1 then base + NOTE_EXTENSION else base + "-" + Decimal(n) + NOTE_EXTENSION
  }

  /** The candidates of `nextFreeName` as they are compared; the first is number 1. */
  function NoteCandidate(base: string): nat -> string {
    (n: nat) => FoldName(NumberedNote(base, n + 1))
  }

  lemma NoteCandidatesDistinct(base: string)
    ensures Distinct(NoteCandidate(base))
  {
    hide NumberedNote, FoldName, Decimal;
    forall i: nat, j: nat | NoteCandidate(base)(i) == NoteCandidate(base)(j)
      ensures i == j
    {
      NumberedFold(base, i + 1);
      NumberedFold(base, j + 1);
      if i > 0 && j > 0 {
        NumberReadBack(FoldName(base), FoldName(base), '-', i + 1, j + 1, NOTE_EXTENSION);
      }
    }
  }

  lemma NumberedFold(base: string, n: nat)
    ensures n <= 1 ==> FoldName(NumberedNote(base, n)) == FoldName(base) + NOTE_EXTENSION
    ensures n > 1 ==> FoldName(NumberedNote(base, n))
                      == FoldName(base) + ['-'] + Decimal(n) + NOTE_EXTENSION
  {
    FoldConcat(base, NOTE_EXTENSION);
    FoldConcat(base + "-" + Decimal(n), NOTE_EXTENSION);
    FoldConcat(base + "-", Decimal(n));
    FoldConcat(base, "-");
    FoldDecimal(n);
  }

  function UniqueFilename(title: string, taken: set<string>): string {
    NoteCandidatesDistinct(Slugify(title));
    NumberedNote(Slugify(title), LeastFree(NoteCandidate(Slugify(title)), Folded(taken), 0) + 1)
  }

  lemma NumberedIsSegment(base: string, n: nat)
    requires '/' !in base
    ensures IsSegment(NumberedNote(base, n))
  {
    assert '/' !in NOTE_EXTENSION && '/' !in "-" && '/' !in Decimal(n);
    assert |NumberedNote(base, n)| > 2;
  }

  /** A name of its own among `taken`, and one a path can end in. */
  lemma UniqueFilenameIsFree(title: string, taken: set<string>)
    ensures FoldName(UniqueFilename(title, taken)) !in Folded(taken)
    ensures IsSegment(UniqueFilename(title, taken))
  {
    hide Slugify, FoldName, NumberedNote, Folded, IsSegment;
    var base := Slugify(title);
    NoteCandidatesDistinct(base);
    var least: nat := LeastFree(NoteCandidate(base), Folded(taken), 0);
    assert NoteCandidate(base)(least) == FoldName(NumberedNote(base, least + 1));
    SlugHasNoSeparator(title);
    NumberedIsSegment(base, least + 1);
  }

  lemma SlugHasNoSeparator(title: string)
    ensures '/' !in Slugify(title)
  {}

  lemma UniqueFilenameHasNoBracket(title: string, taken: set<string>)
    ensures '(' !in UniqueFilename(title, taken)
  {
    hide Slugify, LeastFree, Decimal;
    SlugHasNoBracket(title);
    NoteCandidatesDistinct(Slugify(title));
    var n: nat := LeastFree(NoteCandidate(Slugify(title)), Folded(taken), 0) + 1;
    assert '(' !in Decimal(n) && '(' !in NOTE_EXTENSION && '(' !in "-" by { DigitsHaveNoBracket(n); }
  }

  lemma DigitsHaveNoBracket(n: nat)
    ensures '(' !in Decimal(n)
  {}

  function StemOf(filename: string): (stem: string)
    ensures stem <= filename
  {
    if IsNoteName(filename) then filename[..|filename| - |NOTE_EXTENSION|] else filename
  }

  predicate IsNoteName(name: string) {
    |name| >= |NOTE_EXTENSION|
    && FoldName(name)[|name| - |NOTE_EXTENSION|..] == NOTE_EXTENSION
  }

  predicate Occupied(wanted: string, taken: set<string>) {
    FoldPath(wanted) in FoldedPaths(taken)
  }

  function FreeName(wanted: string, taken: set<string>): string {
    if Occupied(wanted, taken) then UniqueFilename(StemOf(wanted), taken) else wanted
  }

  /** `namesIn`: the last segment of each path whose parent folds to `folder`. */
  function NamesIn(paths: set<string>, folder: string): set<string> {
    set path | path in paths && FoldPath(ParentPath(path)) == FoldPath(folder) :: Basename(path)
  }

  function FreePath(wanted: string, taken: set<string>): string {
    if !Occupied(wanted, taken) then wanted
    else ReplaceBasename(wanted, FreeName(Basename(wanted), NamesIn(taken, ParentPath(wanted))))
  }

  /**
    A free path is free: no path in `taken` is the same file. It is the one wanted
    wherever that is free, and otherwise in the folder wanted, whatever the spelling.
   */
  lemma FreePathIsFree(wanted: string, taken: set<string>)
    ensures FoldPath(FreePath(wanted, taken)) !in FoldedPaths(taken)
    ensures !Occupied(wanted, taken) ==> FreePath(wanted, taken) == wanted
    ensures FoldPath(ParentPath(FreePath(wanted, taken))) == FoldPath(ParentPath(wanted))
    ensures Occupied(wanted, taken) ==> PathSegments(FreePath(wanted, taken)) != []
  {
    if Occupied(wanted, taken) {
      var siblings := NamesIn(taken, ParentPath(wanted));
      var name := FreeName(Basename(wanted), siblings);
      BasenameOccupied(wanted, taken);
      UniqueFilenameIsFree(StemOf(Basename(wanted)), siblings);
      FreeBesideIsFree(wanted, name, taken);
    }
  }

  /** The check that guards the renamer agrees with it: a taken path is a taken name. */
  lemma BasenameOccupied(wanted: string, taken: set<string>)
    requires Occupied(wanted, taken)
    ensures Occupied(Basename(wanted), NamesIn(taken, ParentPath(wanted)))
  {
    var siblings := NamesIn(taken, ParentPath(wanted));
    var path :| path in taken && FoldPath(path) == FoldPath(wanted);
    SameFold(path, wanted);
    if PathSegments(wanted) == [] {
      assert PathSegments(path) == [];
      assert Basename(path) in siblings;
    } else {
      SameFoldByParts(path, wanted);
      assert Basename(path) in siblings;
      NameIsPath(Basename(path), path);
      NameIsPath(Basename(wanted), wanted);
    }
    assert FoldPath(Basename(path)) in FoldedPaths(siblings);
  }

  lemma NameIsPath(name: string, path: string)
    requires PathSegments(path) != [] && name == Basename(path)
    ensures FoldPath(name) == FoldName(name)
  {
    ParentSegments(path);
    assert AreSegments([name]);
    JoinIsNormal([name]);
  }

  /** A name no sibling has makes a path nothing has. */
  lemma FreeBesideIsFree(wanted: string, name: string, taken: set<string>)
    requires IsSegment(name)
    requires FoldName(name) !in Folded(NamesIn(taken, ParentPath(wanted)))
    ensures FoldPath(ReplaceBasename(wanted, name)) !in FoldedPaths(taken)
    ensures FoldPath(ParentPath(ReplaceBasename(wanted, name))) == FoldPath(ParentPath(wanted))
    ensures PathSegments(ReplaceBasename(wanted, name)) != []
  {
    var folder := ParentPath(wanted);
    var path := JoinPath(folder, name);
    JoinPathSegments(folder, name);
    SameFold(ParentPath(path), folder);
    forall each | each in taken
      ensures FoldPath(each) != FoldPath(path)
    {
      SameFold(each, path);
      if PathSegments(each) != [] {
        SameFoldByParts(each, path);
        if FoldPath(ParentPath(each)) == FoldPath(folder) {
          assert Basename(each) in NamesIn(taken, folder);
        }
      }
    }
  }

  // ----- Conflict copies ---------------------------------------------------------------

  /** A minute, as `conflictStamp` spells it: never a separator. */
  type Stamp = stamp: string | '/' !in stamp witness ""

  function ConflictTail(stamp: Stamp, n: nat, extension: string): string {
    " (conflict " + stamp + ")" + (if n <= 1 then "" else "-" + Decimal(n)) + extension
  }

  /** The n-th conflict name: the stem cut to what `MAX_NAME_BYTES` leaves beside the tail. */
  function ConflictNumbered(stem: string, extension: string, stamp: Stamp, n: nat): string {
    var tail := ConflictTail(stamp, n, extension);
    Cut(stem, |stem|, MAX_NAME_BYTES - Utf8Length(tail)) + tail
  }

  function ConflictCandidate(stem: string, extension: string, stamp: Stamp): nat -> string {
    (n: nat) => FoldName(ConflictNumbered(stem, extension, stamp, n + 1))
  }

  lemma ConflictCandidatesDistinct(stem: string, extension: string, stamp: Stamp)
    ensures Distinct(ConflictCandidate(stem, extension, stamp))
  {
    hide ConflictNumbered, FoldName, Decimal;
    forall i: nat, j: nat
      | ConflictCandidate(stem, extension, stamp)(i) == ConflictCandidate(stem, extension, stamp)(j)
      ensures i == j
    {
      var a := ConflictFold(stem, extension, stamp, i + 1);
      var b := ConflictFold(stem, extension, stamp, j + 1);
      var end := FoldName(extension);
      if i > 0 && j > 0 {
        NumberReadBack(a, b, '-', i + 1, j + 1, end);
      } else if i > 0 {
        BracketIsNoDigit(b, a + ['-'], i + 1, end);
      } else if j > 0 {
        BracketIsNoDigit(a, b + ['-'], j + 1, end);
      }
    }
  }

  lemma BracketIsNoDigit(a: string, b: string, n: nat, end: string)
    requires a != "" && a[|a| - 1] == ')'
    ensures a + end != b + Decimal(n) + end
  {
    var y := b + Decimal(n);
    assert y[|y| - 1] == Decimal(n)[|Decimal(n)| - 1];
    SameFront(a, y, end);
  }

  /** The fold of a numbered conflict name, as what is before its number, and its number. */
  lemma ConflictFold(stem: string, extension: string, stamp: Stamp, n: nat) returns (front: string)
    ensures front != "" && front[|front| - 1] == ')'
    ensures n <= 1 ==> FoldName(ConflictNumbered(stem, extension, stamp, n)) == front + FoldName(extension)
    ensures n > 1 ==> FoldName(ConflictNumbered(stem, extension, stamp, n))
                      == front + ['-'] + Decimal(n) + FoldName(extension)
  {
    hide Decimal, Cut, Utf8Length;
    var tail := ConflictTail(stamp, n, extension);
    var head := Cut(stem, |stem|, MAX_NAME_BYTES - Utf8Length(tail)) + " (conflict " + stamp + ")";
    front := FoldName(head);
    assert front[|front| - 1] == Lower(')');
    if n <= 1 {
      assert ConflictNumbered(stem, extension, stamp, n) == head + extension;
      FoldConcat(head, extension);
    } else {
      assert ConflictNumbered(stem, extension, stamp, n) == head + "-" + Decimal(n) + extension;
      FoldConcat(head + "-" + Decimal(n), extension);
      FoldConcat(head + "-", Decimal(n));
      FoldConcat(head, "-");
      FoldDecimal(n);
      assert FoldName("-") == ['-'];
    }
  }

  function ConflictName(stem: string, extension: string, stamp: Stamp, taken: set<string>): string {
    ConflictCandidatesDistinct(stem, extension, stamp);
    ConflictNumbered(stem, extension, stamp,
                     LeastFree(ConflictCandidate(stem, extension, stamp), Folded(taken), 0) + 1)
  }

  lemma ConflictNameIsFree(stem: string, extension: string, stamp: Stamp, taken: set<string>)
    ensures FoldName(ConflictName(stem, extension, stamp, taken)) !in Folded(taken)
    ensures '/' !in stem && '/' !in extension ==> IsSegment(ConflictName(stem, extension, stamp, taken))
  {
    ConflictCandidatesDistinct(stem, extension, stamp);
    var n := LeastFree(ConflictCandidate(stem, extension, stamp), Folded(taken), 0) + 1;
    assert |ConflictTail(stamp, n, extension)| > 2 && '/' !in Decimal(n) && '/' !in "-";
    assert '/' !in " (conflict " && '/' !in ")";
  }

  /** `conflictFilename`: a note's copy keeps `.md`, whatever case it had. */
  function ConflictFilename(filename: string, stamp: Stamp, taken: set<string>): string {
    ConflictName(StemOf(filename), NOTE_EXTENSION, stamp, taken)
  }

  predicate IsOneWord(s: string) {
    forall c :: c in s ==> c != '/' && c != '\\' && !IsSpace(c)
  }

  /** The index of the extension's dot; `|name|` for a name without an extension. */
  function ExtensionAt(name: string): (at: nat)
    ensures at <= |name|
  {
    var dot := LastDot(name);
    if 0 < dot < |name| && 1 < |name| - dot <= 17
       && IsOneWord(name[dot + 1..]) then dot
    else |name|
  }

  /** Where the last dot is, or the name's length where there is none. */
  function LastDot(name: string): (at: nat)
    ensures at <= |name|
    ensures at < |name| ==> name[at] == '.' && '.' !in name[at + 1..]
    ensures at == |name| ==> '.' !in name
  {
    if name == "" then 0
    else
      var at := LastDot(name[1..]);
      if at < |name| - 1 then
        assert name[at + 1 + 1..] == name[1..][at + 1..];
        at + 1
      else if name[0] == '.' then 0
      else |name|
  }

  function ConflictNameKeepingExtension(filename: string, stamp: Stamp, taken: set<string>): string {
    var dot := ExtensionAt(filename);
    ConflictName(filename[..dot], filename[dot..], stamp, taken)
  }

  function ConflictPath(path: string, stamp: Stamp, taken: set<string>): string {
    ReplaceBasename(path, ConflictFilename(Basename(path), stamp, taken))
  }

  function ConflictFilePath(path: string, stamp: Stamp, taken: set<string>): string {
    ReplaceBasename(path, ConflictNameKeepingExtension(Basename(path), stamp, taken))
  }

  lemma BasenameHasNoSeparator(path: string)
    ensures '/' !in Basename(path)
  {
    if PathSegments(path) != [] {
      ParentSegments(path);
    }
  }

  /**
    A conflict copy is beside the path, and its name is none of the names given.
    Given the names in that folder, no path among `paths` is the same file.
   */
  lemma ConflictPathBeside(path: string, stamp: Stamp, names: set<string>, paths: set<string>)
    ensures FoldPath(ParentPath(ConflictPath(path, stamp, names))) == FoldPath(ParentPath(path))
    ensures FoldName(Basename(ConflictPath(path, stamp, names))) !in Folded(names)
    ensures PathSegments(ConflictPath(path, stamp, names)) != []
    ensures Folded(NamesIn(paths, ParentPath(path))) <= Folded(names) ==>
              FoldPath(ConflictPath(path, stamp, names)) !in FoldedPaths(paths)
  {
    var name := ConflictFilename(Basename(path), stamp, names);
    BasenameHasNoSeparator(path);
    ConflictNameIsFree(StemOf(Basename(path)), NOTE_EXTENSION, stamp, names);
    JoinPathSegments(ParentPath(path), name);
    SameFold(ParentPath(JoinPath(ParentPath(path), name)), ParentPath(path));
    if Folded(NamesIn(paths, ParentPath(path))) <= Folded(names) {
      FreeBesideIsFree(path, name, paths);
    }
  }

  /** And for attachments, with whatever extension they have. */
  lemma ConflictFilePathBeside(path: string, stamp: Stamp, paths: set<string>)
    ensures var copy := ConflictFilePath(path, stamp, NamesIn(paths, ParentPath(path)));
            && FoldPath(copy) !in FoldedPaths(paths)
            && FoldPath(ParentPath(copy)) == FoldPath(ParentPath(path))
            && PathSegments(copy) != []
  {
    var base, names := Basename(path), NamesIn(paths, ParentPath(path));
    var dot := ExtensionAt(base);
    BasenameHasNoSeparator(path);
    ConflictNameIsFree(base[..dot], base[dot..], stamp, names);
    FreeBesideIsFree(path, ConflictNameKeepingExtension(base, stamp, names), paths);
  }

  // ----- Spellings ---------------------------------------------------------------------

  /** The folded path of each notebook known, and its spelling. */
  type Spellings = map<string, string>

  ghost predicate Faithful(spellings: Spellings) {
    forall folded :: folded in spellings ==> FoldPath(spellings[folded]) == folded
  }

  datatype Respelled = Respelled(path: string, spellings: Spellings)

  function Respell(spellings: Spellings, path: string): Respelled
    decreases |PathSegments(path)|, path != ROOT
  {
    ParentSegments(path);
    if path == ROOT then Respelled(path, spellings)
    else if FoldPath(path) in spellings then Respelled(spellings[FoldPath(path)], spellings)
    else
      var parent := Respell(spellings, ParentPath(path));
      var spelled := JoinPath(parent.path, Basename(path));
      Respelled(spelled, parent.spellings[FoldPath(path) := spelled])
  }

  /**
    A spelling is a spelling of the path; one already known stands; what is spelled
    is known from then on.
   */
  lemma {:induction false} RespellIsFaithful(spellings: Spellings, path: string)
    requires Faithful(spellings)
    ensures var r := Respell(spellings, path);
            && Faithful(r.spellings)
            && FoldPath(r.path) == FoldPath(path)
            && spellings.Keys <= r.spellings.Keys
            && (forall f :: f in spellings ==> r.spellings[f] == spellings[f])
            && (path != ROOT ==> FoldPath(path) in r.spellings && r.spellings[FoldPath(path)] == r.path)
    decreases |PathSegments(path)|, path != ROOT
  {
    hide FoldPath, JoinPath;
    ParentSegments(path);
    if path != ROOT && FoldPath(path) !in spellings {
      var parent := Respell(spellings, ParentPath(path));
      RespellIsFaithful(spellings, ParentPath(path));
      JoinedFold(parent.path, path);
    }
  }

  /** A name under another spelling of its folder is another spelling of the path. */
  lemma JoinedFold(folder: string, path: string)
    requires FoldPath(folder) == FoldPath(ParentPath(path))
    ensures FoldPath(JoinPath(folder, Basename(path))) == FoldPath(path)
  {
    SameFold(folder, ParentPath(path));
    if PathSegments(path) == [] {
      ParentSegments(path);
      assert FoldSegments(folder) == [];
      SplitConcat(folder, "");
      KeptConcat(Split(folder), [""]);
      assert Kept([""]) == [] + Kept([""][1..]);
      SegmentsOfPath(folder + "/");
      SegmentsOfPath(folder);
      assert folder + "/" + "" == folder + "/";
      assert Kept(Split(folder)) + [] == Kept(Split(folder));
      NormalizeIdempotent(folder + "/");
      SameFold(JoinPath(folder, ""), path);
    } else {
      ParentSegments(path);
      FoldOfJoin(folder, Basename(path));
      FoldOfParts(path);
      SameFold(JoinPath(folder, Basename(path)), path);
    }
  }

  /** The table `respell` writes to as it recurses. */
  class SpellingTable {
    var table: Spellings

    constructor (known: Spellings)
      ensures table == known
    {
      table := known;
    }

    method Spell(path: string) returns (spelled: string)
      modifies this
      ensures spelled == Respell(old(table), path).path
      ensures table == Respell(old(table), path).spellings
      decreases |PathSegments(path)|, path != ROOT
    {
      ParentSegments(path);
      if path == ROOT { return path; }
      if FoldPath(path) in table { return table[FoldPath(path)]; }
      var parent := Spell(ParentPath(path));
      spelled := JoinPath(parent, Basename(path));
      table := table[FoldPath(path) := spelled];
    }

    /** A note's path with its notebook respelled. */
    method SpellNote(path: string) returns (spelled: string)
      modifies this
      ensures spelled == NoteRespelled(old(table), path).path
      ensures table == NoteRespelled(old(table), path).spellings
    {
      var folder := Spell(ParentPath(path));
      spelled := JoinPath(folder, Basename(path));
    }
  }

  function NoteRespelled(spellings: Spellings, path: string): Respelled {
    var folder := Respell(spellings, ParentPath(path));
    Respelled(JoinPath(folder.path, Basename(path)), folder.spellings)
  }

  /**
    A note under its notebook's spelling in the source is the file it was, and its
    notebook is spelled as the source spells it.
   */
  lemma NoteRespelledIsFaithful(spellings: Spellings, path: string)
    requires Faithful(spellings)
    ensures var r := NoteRespelled(spellings, path);
            && Faithful(r.spellings)
            && FoldPath(r.path) == FoldPath(path)
            && spellings.Keys <= r.spellings.Keys
            && (forall f :: f in spellings ==> r.spellings[f] == spellings[f])
  {
    RespellIsFaithful(spellings, ParentPath(path));
    JoinedFold(Respell(spellings, ParentPath(path)).path, path);
  }
}
