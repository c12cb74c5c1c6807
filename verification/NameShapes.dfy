/**
  The shape of the names the store gives: slugs (`slugify` in packages/core/src/names/slug.ts),
  the cut of a name to what it may take (`cut` and `fitBytes` in packages/core/src/names/bytes.ts),
  the number a name gives way by, and a conflict copy's name (packages/core/src/names/conflicts.ts).
 */
module NameShapes {
  import opened Paths
  import opened Naming

  // ----- Words -------------------------------------------------------------------------

  /** Words with a hyphen between each. */
  function Hyphened(words: seq<string>): string {
    if words == [] then "" else if |words| == 1 then words[0] else words[0] + "-" + Hyphened(words[1..])
  }

  lemma HyphenedIsSome(words: seq<string>)
    requires words != [] && words[0] != ""
    ensures Hyphened(words) != ""
  {}

  lemma FirstLetter(c: char, words: seq<string>)
    requires words != []
    ensures Hyphened([[c] + words[0]] + words[1..]) == [c] + Hyphened(words)
  {
    if |words| > 1 {
      assert ([[c] + words[0]] + words[1..])[1..] == words[1..];
      assert [c] + words[0] + "-" + Hyphened(words[1..]) == [c] + (words[0] + "-" + Hyphened(words[1..]));
    }
  }

  /** The words of a title: its longest runs of what is no gap once what no name can hold is one. */
  function TitleWords(title: string): (words: seq<string>)
    ensures forall i :: 0 <= i < |words| ==> words[i] != ""
    ensures title != "" && !IsGap(Cleaned(title[0])) ==> words != []
  {
    if title == "" then []
    else if IsGap(Cleaned(title[0])) then TitleWords(title[1..])
    else
      var c, rest := Cleaned(title[0]), TitleWords(title[1..]);
      if |title| > 1 && !IsGap(Cleaned(title[1])) then [[c] + rest[0]] + rest[1..] else [[c]] + rest
  }

  lemma TrimEndBehind(front: string, s: string)
    requires TrimEnd(s) != ""
    ensures TrimEnd(front + s) == front + TrimEnd(s)
    decreases |s|
  {
    if s[|s| - 1] == '-' {
      assert (front + s)[..|front + s| - 1] == front + s[..|s| - 1];
      TrimEndBehind(front, s[..|s| - 1]);
    }
  }

  /** Within a gap, or at the start: nothing for the gap itself. */
  lemma InGap(title: string)
    ensures title != "" && IsGap(Cleaned(title[0])) ==>
              Hyphenated(title, true) == Hyphenated(title[1..], true) && Hyphenated(title, false) == "-" + Hyphenated(title, true)
    ensures title == "" || !IsGap(Cleaned(title[0])) ==> Hyphenated(title, false) == Hyphenated(title, true)
  {
    hide Cleaned, IsGap;
  }

  lemma HyphenIsGap()
    ensures IsGap('-')
  {}

  /** Past the gap in front, a title hyphenated is its words, and perhaps one hyphen behind. */
  lemma {:induction false} HyphenatedIsWords(title: string)
    ensures TrimEnd(Hyphenated(title, true)) == Hyphened(TitleWords(title))
    ensures TitleWords(title) == [] <==> Hyphenated(title, true) == ""
    ensures Hyphenated(title, true) != "" ==> Hyphenated(title, true)[0] != '-'
    decreases |title|
  {
    hide Cleaned, IsGap;
    if title != "" {
      var c, rest := Cleaned(title[0]), title[1..];
      HyphenatedIsWords(rest);
      InGap(title);
      InGap(rest);
      HyphenIsGap();
      if !IsGap(c) {
        HyphenedIsSome(TitleWords(title));
        WordFirst(title);
      }
    }
  }

  lemma WordFirst(title: string)
    requires title != "" && !IsGap(Cleaned(title[0])) && Cleaned(title[0]) != '-'
    requires TrimEnd(Hyphenated(title[1..], true)) == Hyphened(TitleWords(title[1..]))
    requires TitleWords(title[1..]) == [] <==> Hyphenated(title[1..], true) == ""
    ensures TrimEnd(Hyphenated(title, true)) == Hyphened(TitleWords(title))
  {
    hide Cleaned, IsGap, Hyphened, TrimEnd;
    var c, rest := Cleaned(title[0]), title[1..];
    var words := TitleWords(rest);
    InGap(rest);
    assert Hyphenated(title, true) == [c] + Hyphenated(rest, false);
    hide Hyphenated;
    if rest != "" && !IsGap(Cleaned(rest[0])) {
      HyphenedIsSome(words);
      TrimEndBehind([c], Hyphenated(rest, true));
      FirstLetter(c, words);
    } else {
      assert TitleWords(title) == [[c]] + words;
      hide TitleWords;
      GapNext(c, rest, words);
    }
  }

  lemma GapNext(c: char, rest: string, words: seq<string>)
    requires c != '-' && forall i :: 0 <= i < |words| ==> words[i] != ""
    requires Hyphenated(rest, false) == (if rest == "" then "" else "-" + Hyphenated(rest, true))
    requires TrimEnd(Hyphenated(rest, true)) == Hyphened(words)
    requires words == [] <==> Hyphenated(rest, true) == ""
    ensures TrimEnd([c] + Hyphenated(rest, false)) == Hyphened([[c]] + words)
  {
    hide Hyphened, TrimEnd, Hyphenated;
    if words == [] {
      OneWord(c);
      assert [[c]] + words == [[c]];
      assert [c] + "" == [c] && [c] + ("-" + "") == [c, '-'];
    } else {
      assert rest != "" by { NothingHyphenated(); }
      HyphenedIsSome(words);
      TrimEndBehind([c] + "-", Hyphenated(rest, true));
      assert [c] + ("-" + Hyphenated(rest, true)) == ([c] + "-") + Hyphenated(rest, true);
      ThenWords(c, words);
    }
  }

  lemma NothingHyphenated()
    ensures Hyphenated("", true) == ""
  {}

  lemma OneWord(c: char)
    requires c != '-'
    ensures TrimEnd([c]) == [c] && TrimEnd([c, '-']) == [c] && Hyphened([[c]]) == [c]
  {
    assert [c, '-'][..1] == [c];
  }

  lemma ThenWords(c: char, words: seq<string>)
    requires words != []
    ensures Hyphened([[c]] + words) == [c] + "-" + Hyphened(words)
  {
    assert ([[c]] + words)[1..] == words;
  }

  /** A title's words with a hyphen between each. */
  lemma TrimmedIsWords(title: string)
    ensures TrimEnd(TrimStart(Hyphenated(title, false))) == Hyphened(TitleWords(title))
  {
    hide Cleaned, IsGap, TrimEnd;
    HyphenatedIsWords(title);
    InGap(title);
    if title != "" && IsGap(Cleaned(title[0])) {
      assert Hyphenated(title, false)[1..] == Hyphenated(title, true);
    }
  }

  // ----- Cuts --------------------------------------------------------------------------

  lemma {:induction false} LengthConcat(a: string, b: string)
    ensures Utf8Length(a + b) == Utf8Length(a) + Utf8Length(b)
  {
    if a == "" {
      assert a + b == b;
    } else {
      assert (a + b)[0] == a[0] && (a + b)[1..] == a[1..] + b;
      LengthConcat(a[1..], b);
    }
  }

  /** A cut is the longest that fits: within both caps, and one character more of the text is not. */
  lemma {:induction false} CutIsLongest(text: string, points: nat, bytes: nat)
    ensures var fit := Cut(text, points, bytes);
            && |fit| <= points && Utf8Length(fit) <= bytes
            && (|fit| < |text| ==> |fit| == points || Utf8Length(fit) + CharBytes(text[|fit|]) > bytes)
    decreases text
  {
    if text != "" && points > 0 && CharBytes(text[0]) <= bytes {
      CutIsLongest(text[1..], points - 1, bytes - CharBytes(text[0]));
      var fit := Cut(text[1..], points - 1, bytes - CharBytes(text[0]));
      assert ([text[0]] + fit)[1..] == fit;
    }
  }

  lemma NothingFits(text: string, points: nat, bytes: int)
    requires bytes <= 0
    ensures Cut(text, points, bytes) == ""
  {}

  /** What fits is not cut. */
  lemma {:induction false} CutLeavesWhatFits(text: string, points: nat, bytes: nat)
    requires |text| <= points && Utf8Length(text) <= bytes
    ensures Cut(text, points, bytes) == text
    decreases text
  {
    if text != "" {
      CutLeavesWhatFits(text[1..], points - 1, bytes - CharBytes(text[0]));
      assert [text[0]] + text[1..] == text;
    }
  }

  // ----- Slugs -------------------------------------------------------------------------

  /** A character of a slug's words: in lowercase, and nothing a provider refuses or a name is separated by. */
  predicate IsSlugLetter(c: char) {
    Lower(c) == c && !IsControl(c) && c !in UNSAFE && !IsSpace(c) && c !in "._,-"
  }

  predicate IsHyphened(s: string) {
    && (forall i :: 0 <= i < |s| ==> IsSlugLetter(s[i]) || s[i] == '-')
    && (forall i :: 0 <= i < |s| - 1 ==> s[i] != '-' || s[i + 1] != '-')
  }

  lemma CleanedIs(c: char)
    ensures IsGap(Cleaned(c)) || IsSlugLetter(Cleaned(c))
    ensures IsSlugLetter(c) ==> Cleaned(c) == c && !IsGap(c)
    ensures Cleaned('-') == '-'
  {
    assert ' ' !in UNSAFE && '-' !in UNSAFE;
  }

  lemma {:induction false} HyphenatedIsHyphened(title: string, inGap: bool)
    ensures IsHyphened(Hyphenated(title, inGap))
    ensures inGap && Hyphenated(title, inGap) != "" ==> Hyphenated(title, inGap)[0] != '-'
    decreases |title|
  {
    hide Cleaned, IsGap, IsSlugLetter;
    if title != "" {
      var c := Cleaned(title[0]);
      CleanedIs(title[0]);
      HyphenIsGap();
      if IsGap(c) {
        HyphenatedIsHyphened(title[1..], true);
      } else {
        HyphenatedIsHyphened(title[1..], false);
      }
    }
  }

  lemma SliceIsHyphened(s: string, from: nat, to: nat)
    requires IsHyphened(s) && from <= to <= |s|
    ensures IsHyphened(s[from..to])
  {
    hide IsSlugLetter;
    var t := s[from..to];
    assert forall i :: 0 <= i < |t| ==> t[i] == s[from + i];
  }

  lemma {:induction false} TrimStartIs(s: string)
    ensures var t := TrimStart(s);
            |t| <= |s| && t == s[|s| - |t|..] && (t != "" ==> t[0] != '-')
    decreases |s|
  {
    if s != "" && s[0] == '-' {
      TrimStartIs(s[1..]);
    }
  }

  lemma {:induction false} TrimEndIs(s: string)
    ensures var t := TrimEnd(s);
            t <= s && (t != "" ==> t[|t| - 1] != '-') && (s != "" && s[0] != '-' ==> t != "" && t[0] == s[0])
    ensures s == "" || s[|s| - 1] != '-' ==> TrimEnd(s) == s
    decreases |s|
  {
    if s != "" && s[|s| - 1] == '-' {
      TrimEndIs(s[..|s| - 1]);
    }
  }

  lemma {:induction false} PrefixIsShorter(a: string, b: string)
    requires a <= b
    ensures Utf8Length(a) <= Utf8Length(b)
  {
    assert b == a + b[|a|..];
    LengthConcat(a, b[|a|..]);
  }

  lemma TrimmedIsHyphened(title: string)
    ensures var both := TrimEnd(TrimStart(Hyphenated(title, false)));
            IsHyphened(both) && (both != "" ==> both[0] != '-' && both[|both| - 1] != '-')
  {
    hide IsHyphened, Hyphenated, TrimStart, TrimEnd;
    var s := Hyphenated(title, false);
    HyphenatedIsHyphened(title, false);
    TrimStartIs(s);
    var front := TrimStart(s);
    SliceIsHyphened(s, |s| - |front|, |s|);
    assert s[|s| - |front|..|s|] == front;
    TrimEndIs(front);
    var both := TrimEnd(front);
    SliceIsHyphened(front, 0, |both|);
    assert front[0..|both|] == both;
  }

  /** A slug before it is kept from being nothing, or a device's name. */
  lemma SlugIsHyphened(title: string)
    ensures var slug := ToSlug(title);
            && IsHyphened(slug) && (slug != "" ==> slug[0] != '-' && slug[|slug| - 1] != '-')
            && |slug| <= MAX_SLUG_CODE_POINTS && Utf8Length(slug) <= MAX_SLUG_BYTES
  {
    hide IsHyphened, Utf8Length, Hyphenated, TrimStart, TrimEnd, Cut;
    TrimmedIsHyphened(title);
    var both := TrimEnd(TrimStart(Hyphenated(title, false)));
    CutIsLongest(both, MAX_SLUG_CODE_POINTS, MAX_SLUG_BYTES);
    var fit := Cut(both, MAX_SLUG_CODE_POINTS, MAX_SLUG_BYTES);
    SliceIsHyphened(both, 0, |fit|);
    assert both[0..|fit|] == fit;
    TrimEndIs(fit);
    var slug := TrimEnd(fit);
    SliceIsHyphened(fit, 0, |slug|);
    assert fit[0..|slug|] == slug;
    PrefixIsShorter(slug, fit);
  }

  /** A name every provider takes: words with single hyphens between, within both caps, and no device's. */
  predicate IsSlug(s: string) {
    && s != "" && IsHyphened(s) && s[0] != '-' && s[|s| - 1] != '-'
    && |s| <= MAX_SLUG_CODE_POINTS && Utf8Length(s) <= MAX_SLUG_BYTES
    && !IsReserved(s)
  }

  lemma {:induction false} AsciiIsShort(s: string)
    requires forall i :: 0 <= i < |s| ==> s[i] < '\U{800}'
    ensures Utf8Length(s) <= 2 * |s|
  {
    if s != "" {
      AsciiIsShort(s[1..]);
    }
  }

  lemma ReservedIsSlugWithNote(s: string)
    requires IsReserved(s) && IsHyphened(s)
    ensures IsSlug(s + "-note")
  {
    hide IsSlugLetter;
    var slug := s + "-note";
    assert |s| <= 4 && slug[|s|] == '-' && slug[|slug| - 1] == 'e';
    AsciiIsShort(slug);
    forall i | |s| < i < |slug|
      ensures IsSlugLetter(slug[i])
    {
      assert slug[i] == "-note"[i - |s|] && 'a' <= slug[i] <= 'z';
      LettersAreOfSlugs(slug[i]);
    }
  }

  lemma LettersAreSafe(c: char)
    requires 'a' <= c <= 'z'
    ensures c !in UNSAFE && c !in "._,-"
  {
    forall i | 0 <= i < |UNSAFE|
      ensures UNSAFE[i] != c
    {}
  }

  lemma LettersAreOfSlugs(c: char)
    requires 'a' <= c <= 'z'
    ensures IsSlugLetter(c)
  {
    hide UNSAFE;
    LettersAreSafe(c);
  }

  lemma UntitledIsSlug()
    ensures IsSlug(UNTITLED_SLUG)
  {
    hide IsSlugLetter;
    forall i | 0 <= i < |UNTITLED_SLUG|
      ensures IsSlugLetter(UNTITLED_SLUG[i]) && UNTITLED_SLUG[i] != '-'
    {
      assert 'a' <= UNTITLED_SLUG[i] <= 'z';
      LettersAreOfSlugs(UNTITLED_SLUG[i]);
    }
    AsciiIsShort(UNTITLED_SLUG);
  }

  /** Every title has a slug that every provider takes. */
  lemma SlugIsSafe(title: string)
    ensures IsSlug(Slugify(title))
  {
    hide IsHyphened, IsReserved, ToSlug, IsSlug;
    SlugIsHyphened(title);
    UntitledIsSlug();
    var slug := ToSlug(title);
    if slug != "" {
      if IsReserved(slug) {
        ReservedIsSlugWithNote(slug);
      } else {
        IsThenSlug(slug);
      }
    }
  }

  lemma IsThenSlug(slug: string)
    requires slug != "" && IsHyphened(slug) && slug[0] != '-' && slug[|slug| - 1] != '-' && !IsReserved(slug)
    requires |slug| <= MAX_SLUG_CODE_POINTS && Utf8Length(slug) <= MAX_SLUG_BYTES
    ensures IsSlug(slug)
  {}

  lemma {:induction false} HyphenedStays(s: string, inGap: bool)
    requires IsHyphened(s) && (inGap && s != "" ==> s[0] != '-')
    ensures Hyphenated(s, inGap) == s
    decreases |s|
  {
    hide Cleaned, IsGap, IsSlugLetter;
    if s != "" {
      CleanedIs(s[0]);
      HyphenIsGap();
      var rest := s[1..];
      assert forall i :: 0 <= i < |rest| ==> rest[i] == s[i + 1];
      HyphenedStays(rest, s[0] == '-');
      assert [s[0]] + rest == s;
    }
  }

  /** And is its own slug: a note renamed to the name it has keeps it. */
  lemma SlugIsItsOwn(slug: string)
    requires IsSlug(slug)
    ensures Slugify(slug) == slug
  {
    hide IsReserved, IsHyphened;
    HyphenedStays(slug, false);
    assert TrimStart(slug) == slug;
    TrimEndIs(slug);
    CutLeavesWhatFits(slug, MAX_SLUG_CODE_POINTS, MAX_SLUG_BYTES);
  }

  /**
    A slug is the title's words, in lowercase, with a hyphen between each, where they fit the
    caps and are no device's name; and else the longest of that that fits, less a hyphen left
    at its end.
   */
  lemma SlugIsWords(title: string)
    ensures var whole := Hyphened(TitleWords(title));
            && ToSlug(title) == TrimEnd(Cut(whole, MAX_SLUG_CODE_POINTS, MAX_SLUG_BYTES))
            && (whole != "" && |whole| <= MAX_SLUG_CODE_POINTS && Utf8Length(whole) <= MAX_SLUG_BYTES && !IsReserved(whole) ==>
                  Slugify(title) == whole)
            && (whole == "" ==> Slugify(title) == UNTITLED_SLUG)
  {
    hide IsReserved, Hyphened, TitleWords, Utf8Length;
    TrimmedIsWords(title);
    var whole := Hyphened(TitleWords(title));
    TrimEndIs(TrimStart(Hyphenated(title, false)));
    TrimEndIs(whole);
    if |whole| <= MAX_SLUG_CODE_POINTS && Utf8Length(whole) <= MAX_SLUG_BYTES {
      CutLeavesWhatFits(whole, MAX_SLUG_CODE_POINTS, MAX_SLUG_BYTES);
    }
  }

  // ----- Numbers -----------------------------------------------------------------------

  /** A name with its number, which is left off the first. */
  function WithNumber(base: string, n: nat, end: string): string {
    if n == 1 then base + end else base + "-" + Decimal(n) + end
  }

  lemma NumberedIs(base: string, n: nat)
    requires n >= 1
    ensures NumberedNote(base, n) == WithNumber(base, n, ".md")
  {
    hide Decimal;
  }

  lemma CandidateIs(base: string, k: nat)
    ensures NoteCandidate(base)(k) == FoldName(WithNumber(base, k + 1, ".md"))
  {
    hide NumberedNote, FoldName, WithNumber;
    NumberedIs(base, k + 1);
  }

  /** The name chosen is the slug with the least number, from one, that no name there has. */
  lemma UniqueIsLeast(title: string, taken: set<string>) returns (n: nat)
    ensures n >= 1 && UniqueFilename(title, taken) == WithNumber(Slugify(title), n, ".md")
    ensures FoldName(WithNumber(Slugify(title), n, ".md")) !in Folded(taken)
    ensures forall m: nat :: 1 <= m < n ==> FoldName(WithNumber(Slugify(title), m, ".md")) in Folded(taken)
  {
    hide Slugify, FoldName, NumberedNote, WithNumber, NoteCandidate, Folded;
    var base := Slugify(title);
    NoteCandidatesDistinct(base);
    var least: nat := LeastFree(NoteCandidate(base), Folded(taken), 0);
    n := least + 1;
    NumberedIs(base, n);
    CandidateIs(base, least);
    forall m: nat | 1 <= m < n
      ensures FoldName(WithNumber(base, m, ".md")) in Folded(taken)
    {
      CandidateIs(base, m - 1);
    }
  }

  /** What follows the stem in a conflict copy's name. */
  function CopyTail(stamp: Stamp, n: nat, extension: string): string {
    WithNumber(" (conflict " + stamp + ")", n, extension)
  }

  /**
    A conflict copy's name is the stem, what says it is one and when, the least number from
    one that no name there has, and the extension; the stem cut to what fits a file's name
    beside them, and no shorter.
   */
  lemma ConflictNameIs(stem: string, extension: string, stamp: Stamp, taken: set<string>) returns (kept: string, n: nat)
    ensures kept <= stem && n >= 1 && ConflictName(stem, extension, stamp, taken) == kept + CopyTail(stamp, n, extension)
    ensures Utf8Length(CopyTail(stamp, n, extension)) <= 255 ==>
              && Utf8Length(ConflictName(stem, extension, stamp, taken)) <= 255
              && (|kept| < |stem| ==>
                    Utf8Length(ConflictName(stem, extension, stamp, taken)) + CharBytes(stem[|kept|]) > 255)
    ensures FoldName(ConflictName(stem, extension, stamp, taken)) !in Folded(taken)
    ensures forall m: nat :: 1 <= m < n ==> FoldName(ConflictNumbered(stem, extension, stamp, m)) in Folded(taken)
  {
    hide Decimal, FoldName, Utf8Length, Cut;
    ConflictCandidatesDistinct(stem, extension, stamp);
    n := LeastFree(ConflictCandidate(stem, extension, stamp), Folded(taken), 0) + 1;
    var tail := ConflictTail(stamp, n, extension);
    TailIs(stamp, n, extension);
    kept := Cut(stem, |stem|, MAX_NAME_BYTES - Utf8Length(tail));
    if Utf8Length(tail) <= 255 {
      CutIsLongest(stem, |stem|, 255 - Utf8Length(tail));
      LengthConcat(kept, tail);
    }
    forall m: nat | 1 <= m < n
      ensures FoldName(ConflictNumbered(stem, extension, stamp, m)) in Folded(taken)
    {
      assert ConflictCandidate(stem, extension, stamp)(m - 1) in Folded(taken);
    }
  }

  lemma TailIs(stamp: Stamp, n: nat, extension: string)
    requires n >= 1
    ensures ConflictTail(stamp, n, extension) == CopyTail(stamp, n, extension)
  {
    hide Decimal;
    assert " (conflict " + stamp + ")" + "" + extension == " (conflict " + stamp + ")" + extension;
    assert " (conflict " + stamp + ")" + ("-" + Decimal(n)) + extension == " (conflict " + stamp + ")" + "-" + Decimal(n) + extension;
  }

  // ----- Extensions --------------------------------------------------------------------

  /** A dot and up to sixteen characters, none of them another dot, a separator or a space. */
  predicate IsExtension(end: string) {
    && 1 < |end| <= 17 && end[0] == '.'
    && forall c :: c in end[1..] ==> c != '.' && c != '/' && c != '\\' && !IsSpace(c)
  }

  /** An attachment's extension is the last one its name ends in, if something is before it. */
  lemma ExtensionIs(name: string, end: string)
    ensures name != "" && IsExtension(end) ==> ExtensionAt(name + end) == |name|
    ensures ExtensionAt(name) < |name| ==> 0 < ExtensionAt(name) && IsExtension(name[ExtensionAt(name)..])
  {
    hide IsSpace;
    if name != "" && IsExtension(end) {
      LastDotOf(name, end);
      assert (name + end)[|name| + 1..] == end[1..];
    }
    OnlyExtension(name);
  }

  lemma OnlyExtension(name: string)
    ensures ExtensionAt(name) < |name| ==> 0 < ExtensionAt(name) && IsExtension(name[ExtensionAt(name)..])
  {
    hide IsSpace;
    var dot := LastDot(name);
    if ExtensionAt(name) < |name| {
      assert ExtensionAt(name) == dot;
      var end := name[dot..];
      assert end[0] == name[dot] == '.' && end[1..] == name[dot + 1..];
      forall c | c in end[1..]
        ensures c != '.' && c != '/' && c != '\\' && !IsSpace(c)
      {
        assert c in name[dot + 1..];
      }
    }
  }

  lemma LastDotOf(name: string, end: string)
    requires IsExtension(end)
    ensures LastDot(name + end) == |name|
  {
    hide IsSpace, LastDot;
    var whole := name + end;
    assert whole[|name|] == '.';
    forall i | |name| < i < |whole|
      ensures whole[i] != '.'
    {
      assert whole[i] == end[1..][i - |name| - 1] && whole[i] in end[1..];
    }
    forall i {:trigger whole[i]} | 0 <= i < |name|
      ensures '.' in whole[i + 1..]
    {
      assert whole[i + 1..][|name| - i - 1] == '.';
    }
  }

  /** A note's stem is its name without `.md`, however that is spelled. */
  lemma StemIs(name: string, end: string)
    ensures end in {".md", ".MD", ".Md", ".mD"} ==> StemOf(name + end) == name
  {
    if end in {".md", ".MD", ".Md", ".mD"} {
      FoldConcat(name, end);
      assert FoldName(end) == NOTE_EXTENSION;
      assert (FoldName(name) + NOTE_EXTENSION)[|name|..] == NOTE_EXTENSION;
      assert (name + end)[..|name|] == name;
    }
  }

  // ----- Paths beside what is there ----------------------------------------------------

  /**
    A path that is taken gives way to the slug of its name, in the folder it was wanted in,
    with the least number from one at which no path taken is that file.
   */
  lemma FreePathIs(wanted: string, taken: set<string>) returns (n: nat)
    requires Occupied(wanted, taken)
    ensures n >= 1 && FreePath(wanted, taken) == NumberedBeside(wanted, n)
    ensures !Occupied(NumberedBeside(wanted, n), taken)
    ensures forall m: nat :: 1 <= m < n ==> Occupied(NumberedBeside(wanted, m), taken)
  {
    hide Slugify, WithNumber, FoldName, StemOf, NormalizePath;
    var siblings, title := NamesIn(taken, ParentPath(wanted)), StemOf(Basename(wanted));
    BasenameOccupied(wanted, taken);
    n := UniqueIsLeast(title, siblings);
    FreePathIsFree(wanted, taken);
    forall m: nat | 1 <= m < n
      ensures Occupied(NumberedBeside(wanted, m), taken)
    {
      NumberedIsSegment(Slugify(title), m);
      NumberedIs(Slugify(title), m);
      NameIsTaken(wanted, WithNumber(Slugify(title), m, ".md"), taken);
    }
  }

  /** The n-th name a note gives way to, beside the path wanted. */
  function NumberedBeside(wanted: string, n: nat): string {
    ReplaceBasename(wanted, WithNumber(Slugify(StemOf(Basename(wanted))), n, ".md"))
  }

  /** A name some sibling has makes a path that is taken. */
  lemma NameIsTaken(wanted: string, name: string, taken: set<string>)
    requires IsSegment(name) && FoldName(name) in Folded(NamesIn(taken, ParentPath(wanted)))
    ensures Occupied(ReplaceBasename(wanted, name), taken)
  {
    hide FoldName, NormalizePath;
    var folder := ParentPath(wanted);
    JoinPathSegments(folder, name);
    var path := JoinPath(folder, name);
    var each :| each in taken && FoldPath(ParentPath(each)) == FoldPath(folder) && FoldName(Basename(each)) == FoldName(name);
    NamedIsBelow(each, name);
    SameFold(ParentPath(path), folder);
    SameFoldByParts(each, path);
  }

  lemma NamedIsBelow(path: string, name: string)
    requires IsSegment(name) && FoldName(Basename(path)) == FoldName(name)
    ensures PathSegments(path) != []
  {
    FoldKeepsSegment(Basename(path));
    FoldKeepsSegment(name);
  }

  /** A note's conflict copy is named after its stem and keeps `.md`. */
  lemma NoteCopyIs(path: string, stamp: Stamp, taken: set<string>)
    ensures Basename(ConflictPath(path, stamp, taken))
            == ConflictName(StemOf(Basename(path)), ".md", stamp, taken)
    ensures PathSegments(ParentPath(ConflictPath(path, stamp, taken))) == PathSegments(ParentPath(path))
  {
    hide NormalizePath, ConflictName, StemOf;
    BasenameHasNoSeparator(path);
    ConflictNameIsFree(StemOf(Basename(path)), NOTE_EXTENSION, stamp, taken);
    JoinPathSegments(ParentPath(path), ConflictName(StemOf(Basename(path)), ".md", stamp, taken));
  }

  /** A file's is named after what is before its extension, and keeps that, if it has one. */
  lemma FileCopyIs(path: string, stamp: Stamp, taken: set<string>, name: string, end: string)
    requires name + end == Basename(path)
    requires (name != "" && IsExtension(end)) || (end == "" && ExtensionAt(name) == |name|)
    ensures Basename(ConflictFilePath(path, stamp, taken)) == ConflictName(name, end, stamp, taken)
    ensures PathSegments(ParentPath(ConflictFilePath(path, stamp, taken))) == PathSegments(ParentPath(path))
  {
    hide NormalizePath, ConflictName, IsExtension, ExtensionAt;
    var base := Basename(path);
    BasenameHasNoSeparator(path);
    ExtensionIs(name, end);
    assert end == "" ==> name == base;
    assert base[..|name|] == name && base[|name|..] == end;
    ConflictNameIsFree(name, end, stamp, taken);
    JoinPathSegments(ParentPath(path), ConflictName(name, end, stamp, taken));
  }
}
