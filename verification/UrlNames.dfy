/**
  Names as a URL's hash spells them: slugs (`urlSlug` in apps/web/src/routes/place.ts) and
  the platform's percent-encoding of UTF-8 (`encodeURIComponent`, `decodeURIComponent`).

  Letters and digits are ASCII's, and every character past ASCII counts as a letter.
 */
module UrlNames {
  import opened Options
  import opened Naming
  import opened NameShapes
  import opened Crc32
  import opened Utf8

  // ----- Slugs -------------------------------------------------------------------------

  predicate IsWord(c: char) {
    'a' <= c <= 'z' || 'A' <= c <= 'Z' || '0' <= c <= '9' || c as int >= 128
  }

  /** Every run of anything that is no letter or digit, one hyphen. */
  function Dashed(s: string): (dashed: string)
    ensures |dashed| <= |s|
  {
    if s == "" then ""
    else if IsWord(s[0]) then [s[0]] + Dashed(s[1..])
    else if |s| > 1 && !IsWord(s[1]) then Dashed(s[1..])
    else ['-'] + Dashed(s[1..])
  }

  function DropFront(s: string): (t: string)
    ensures t != "" ==> t[0] != '-'
    ensures |t| <= |s| && t == s[|s| - |t|..]
  {
    if s != "" && s[0] == '-' then DropFront(s[1..]) else s
  }

  function DropBack(s: string): (t: string)
    ensures t != "" ==> t[|t| - 1] != '-'
    ensures t <= s
  {
    if s != "" && s[|s| - 1] == '-' then DropBack(s[..|s| - 1]) else s
  }

  function UrlSlug(name: string): string {
    var slug := DropBack(DropFront(Dashed(FoldName(name))));
    if slug == "" then name else slug
  }

  /** Lowercase letters and digits, and single hyphens. */
  predicate IsTidy(s: string) {
    && (forall i :: 0 <= i < |s| ==> (IsWord(s[i]) && Lower(s[i]) == s[i]) || s[i] == '-')
    && (forall i :: 0 <= i < |s| - 1 ==> s[i] != '-' || s[i + 1] != '-')
  }

  predicate HasWord(s: string) {
    exists i :: 0 <= i < |s| && IsWord(s[i])
  }

  lemma {:induction false} DashedIsTidy(s: string)
    requires forall i :: 0 <= i < |s| ==> Lower(s[i]) == s[i]
    ensures IsTidy(Dashed(s)) && (HasWord(Dashed(s)) <==> HasWord(s))
    ensures s != "" && IsWord(s[0]) ==> Dashed(s) != "" && Dashed(s)[0] == s[0]
    ensures s != "" ==> Dashed(s) != ""
  {
    if s != "" {
      var rest := s[1..];
      assert forall i :: 0 <= i < |rest| ==> rest[i] == s[i + 1];
      DashedIsTidy(rest);
      HasWordFront(s);
      if IsWord(s[0]) {
        HasWordCons(s[0], Dashed(rest));
      } else if !(|s| > 1 && !IsWord(s[1])) {
        HasWordCons('-', Dashed(rest));
        assert rest != "" ==> Dashed(rest)[0] == rest[0];
      }
    }
  }

  lemma HasWordFront(s: string)
    requires s != ""
    ensures HasWord(s) <==> IsWord(s[0]) || HasWord(s[1..])
  {
    if HasWord(s) && !IsWord(s[0]) {
      var i :| 0 <= i < |s| && IsWord(s[i]);
      assert s[1..][i - 1] == s[i];
    }
    if HasWord(s[1..]) {
      var i :| 0 <= i < |s[1..]| && IsWord(s[1..][i]);
      assert s[i + 1] == s[1..][i];
    }
  }

  lemma HasWordCons(c: char, s: string)
    ensures HasWord([c] + s) <==> IsWord(c) || HasWord(s)
  {
    HasWordFront([c] + s);
    assert ([c] + s)[1..] == s;
  }

  /** What is tidy already is left as it is. */
  lemma {:induction false} TidyIsDashed(s: string)
    requires IsTidy(s)
    ensures Dashed(s) == s
  {
    if s != "" {
      var rest := s[1..];
      assert forall i :: 0 <= i < |rest| ==> rest[i] == s[i + 1];
      TidyIsDashed(rest);
      assert [s[0]] + rest == s;
      assert |s| > 1 ==> s[0] != '-' || s[1] != '-';
    }
  }

  lemma TrimmedIsTidy(s: string)
    requires IsTidy(s)
    ensures IsTidy(DropBack(DropFront(s)))
    ensures HasWord(s) ==> DropBack(DropFront(s)) != ""
    ensures var t := DropBack(DropFront(s)); t != "" ==> t[0] != '-' && t[|t| - 1] != '-'
  {
    var front := DropFront(s);
    var both := DropBack(front);
    SliceIsTidy(s, |s| - |front|, |s|);
    SliceIsTidy(front, 0, |both|);
    assert front[..|both|] == both;
    hide IsTidy, IsWord;
    assert both != "" ==> both[0] == front[0];
    if HasWord(s) {
      DropFrontKeepsWord(s);
      DropBackKeepsWord(front);
    }
  }

  lemma SliceIsTidy(s: string, from: nat, to: nat)
    requires IsTidy(s) && from <= to <= |s|
    ensures IsTidy(s[from..to])
  {
    var t := s[from..to];
    assert forall i :: 0 <= i < |t| ==> t[i] == s[from + i];
  }

  lemma {:induction false} DropFrontKeepsWord(s: string)
    requires HasWord(s)
    ensures HasWord(DropFront(s))
  {
    if s != "" && s[0] == '-' {
      HasWordFront(s);
      DropFrontKeepsWord(s[1..]);
    }
  }

  lemma {:induction false} DropBackKeepsWord(s: string)
    requires HasWord(s)
    ensures HasWord(DropBack(s)) && DropBack(s) != ""
    decreases |s|
  {
    if s != "" && s[|s| - 1] == '-' {
      var i :| 0 <= i < |s| && IsWord(s[i]);
      assert s[..|s| - 1][i] == s[i];
      DropBackKeepsWord(s[..|s| - 1]);
    }
  }

  lemma FoldKeepsWords(name: string)
    ensures HasWord(FoldName(name)) <==> HasWord(name)
    ensures forall i :: 0 <= i < |name| ==> Lower(FoldName(name)[i]) == FoldName(name)[i]
  {
    assert forall i :: 0 <= i < |name| ==> IsWord(FoldName(name)[i]) == IsWord(name[i]);
  }

  /** Nothing but hyphens where there is no letter or digit. */
  lemma {:induction false} WordlessIsTrimmedAway(s: string)
    requires forall i :: 0 <= i < |s| ==> s[i] == '-'
    ensures DropFront(s) == ""
  {
    if s != "" {
      WordlessIsTrimmedAway(s[1..]);
    }
  }

  lemma TidyWordless(s: string)
    requires IsTidy(s) && !HasWord(s)
    ensures forall i :: 0 <= i < |s| ==> s[i] == '-'
  {}

  /** A slug is a tidy name with no hyphen at either end, or the name itself where it has no word character. */
  lemma SlugIs(name: string)
    ensures var slug := UrlSlug(name);
            if HasWord(name) then IsTidy(slug) && slug != "" && slug[0] != '-' && slug[|slug| - 1] != '-'
            else slug == name
  {
    FoldKeepsWords(name);
    DashedIsTidy(FoldName(name));
    TrimmedIsTidy(Dashed(FoldName(name)));
    if !HasWord(name) {
      TidyWordless(Dashed(FoldName(name)));
      WordlessIsTrimmedAway(Dashed(FoldName(name)));
      assert DropBack("") == "";
    }
  }

  lemma TidyIsItsOwnSlug(slug: string)
    requires IsTidy(slug) && slug != "" && slug[0] != '-' && slug[|slug| - 1] != '-'
    ensures UrlSlug(slug) == slug
  {
    assert forall i :: 0 <= i < |slug| ==> FoldName(slug)[i] == slug[i];
    assert FoldName(slug) == slug;
    TidyIsDashed(slug);
  }

  /** A slug is its own slug, and is nothing only for a name that is. */
  lemma SlugIsItsOwn(name: string)
    ensures UrlSlug(UrlSlug(name)) == UrlSlug(name)
    ensures UrlSlug(name) == "" <==> name == ""
  {
    hide UrlSlug, IsTidy;
    SlugIs(name);
    if HasWord(name) {
      TidyIsItsOwnSlug(UrlSlug(name));
    }
  }

  /** The words of a name: its longest runs of letters and digits. */
  function Words(s: string): (words: seq<string>)
    ensures forall i :: 0 <= i < |words| ==> words[i] != ""
    ensures s != "" && IsWord(s[0]) ==> words != []
  {
    if s == "" then []
    else if !IsWord(s[0]) then Words(s[1..])
    else
      var rest := Words(s[1..]);
      if |s| > 1 && IsWord(s[1]) then [[s[0]] + rest[0]] + rest[1..] else [[s[0]]] + rest
  }

  /** What is left from the first word on. */
  function FromWord(s: string): (t: string)
    ensures t != "" ==> IsWord(t[0])
    ensures |t| <= |s| && (s != "" && !IsWord(s[0]) ==> |t| < |s|)
  {
    if s == "" || IsWord(s[0]) then s else FromWord(s[1..])
  }

  lemma {:induction false} DashedFromWord(s: string)
    requires s != "" && !IsWord(s[0])
    ensures Dashed(s) == "-" + Dashed(FromWord(s)) && Words(s) == Words(FromWord(s))
  {
    if |s| > 1 && !IsWord(s[1]) {
      DashedFromWord(s[1..]);
    } else {
      assert Dashed("") == "";
      assert FromWord(s[1..]) == s[1..];
    }
  }

  lemma DropBackBehind(front: string, s: string)
    requires DropBack(s) != ""
    ensures DropBack(front + s) == front + DropBack(s)
    decreases |s|
  {
    if s[|s| - 1] == '-' {
      assert (front + s)[..|front + s| - 1] == front + s[..|s| - 1];
      DropBackBehind(front, s[..|s| - 1]);
    }
  }

  /** Dashed from a word on, a string is its words with one hyphen between each, and perhaps one behind. */
  lemma {:induction false} DashedIsWords(s: string)
    requires s != "" && IsWord(s[0])
    ensures DropBack(Dashed(s)) == Hyphened(Words(s)) && Hyphened(Words(s)) != ""
    decreases |s|
  {
    hide IsWord;
    HyphenedIsSome(Words(s));
    var rest := s[1..];
    if rest == "" {
      assert Dashed(s) == [s[0]] && s[0] != '-' by { WordIsNoHyphen(s[0]); }
    } else if IsWord(rest[0]) {
      DashedIsWords(rest);
      DropBackBehind([s[0]], Dashed(rest));
      FirstLetter(s[0], Words(rest));
    } else {
      DashedFromWord(rest);
      var next := FromWord(rest);
      assert Dashed(s) == [s[0]] + ("-" + Dashed(next)) == ([s[0]] + "-") + Dashed(next);
      if next == "" {
        WordIsNoHyphen(s[0]);
        assert Dashed(s) == [s[0], '-'] && Dashed(s)[..1] == [s[0]];
        assert DropBack([s[0]]) == [s[0]];
      } else {
        DashedIsWords(next);
        DropBackBehind([s[0]] + "-", Dashed(next));
        assert ([[s[0]]] + Words(next))[1..] == Words(next);
      }
    }
  }

  lemma WordIsNoHyphen(c: char)
    requires IsWord(c)
    ensures c != '-'
  {}

  /** A slug is the words of the name in lowercase, with a hyphen between each; a name without words is its own. */
  lemma SlugIsWords(name: string)
    ensures var words := Words(FoldName(name));
            UrlSlug(name) == if words == [] then name else Hyphened(words)
  {
    hide Dashed, Words, Hyphened, DropBack, DropFront, FoldName;
    TrimmedIsWords(FoldName(name));
  }

  lemma TrimmedIsWords(s: string)
    ensures DropBack(DropFront(Dashed(s))) == Hyphened(Words(s))
    ensures Words(s) == [] <==> Hyphened(Words(s)) == ""
  {
    hide IsWord, DropBack, Words;
    var next := FromWord(s);
    FrontIsDropped(s);
    if next == "" {
      assert Dashed(next) == "" && Words(next) == [] && DropBack("") == "" by { NothingHasNoWords(); }
    } else {
      DashedIsWords(next);
    }
  }

  lemma NothingHasNoWords()
    ensures Words("") == [] && DropBack("") == ""
  {}

  /** What is before the first word goes with the hyphens in front. */
  lemma FrontIsDropped(s: string)
    ensures DropFront(Dashed(s)) == Dashed(FromWord(s)) && Words(s) == Words(FromWord(s))
  {
    hide IsWord, Words;
    var next := FromWord(s);
    if s != "" && !IsWord(s[0]) {
      DashedFromWord(s);
      assert Dashed(s)[0] == '-' && Dashed(s)[1..] == Dashed(next);
    }
    if next != "" {
      WordIsNoHyphen(next[0]);
      assert Dashed(next)[0] == next[0];
    }
  }

  // ----- Percent-encoding --------------------------------------------------------------

  /** What `encodeURIComponent` leaves as it is. */
  predicate IsUnreserved(c: char) {
    'a' <= c <= 'z' || 'A' <= c <= 'Z' || '0' <= c <= '9' || c in "-_.!~*'()"
  }

  function HexDigit(n: nat): char
    requires n < 16
  {
    if n < 10 then ('0' as int + n) as char else ('A' as int + n - 10) as char
  }

  function HexValue(c: char): (n: Option<nat>)
    ensures n.Some? ==> n.value < 16
  {
    if '0' <= c <= '9' then Some(c as int - '0' as int)
    else if 'A' <= c <= 'F' then Some(c as int - 'A' as int + 10)
    else if 'a' <= c <= 'f' then Some(c as int - 'a' as int + 10)
    else None
  }

  function Percent(b: Byte): string {
    ['%', HexDigit(b as int / 16), HexDigit(b as int % 16)]
  }

  function PercentAll(bytes: seq<Byte>): (s: string)
    ensures |s| == 3 * |bytes|
  {
    if bytes == [] then "" else Percent(bytes[0]) + PercentAll(bytes[1..])
  }

  function EncodeUri(s: string): string {
    if s == "" then ""
    else (if IsUnreserved(s[0]) then [s[0]] else PercentAll(EncodeChar(s[0]))) + EncodeUri(s[1..])
  }

  /** The bytes escaped at the start of a string. */
  function Escaped(s: string): (bytes: seq<Byte>)
    ensures 3 * |bytes| <= |s|
  {
    if |s| >= 3 && s[0] == '%' && HexValue(s[1]).Some? && HexValue(s[2]).Some? then
      [ToByte(HexValue(s[1]).value * 16 + HexValue(s[2]).value)] + Escaped(s[3..])
    else []
  }

  /** `decodeURIComponent`: none where an escape is no UTF-8, or a `%` begins no escape. */
  function DecodeUri(s: string): Option<string>
    decreases |s|
  {
    if s == "" then Some("")
    else if s[0] != '%' then
      var rest := DecodeUri(s[1..]);
      if rest.None? then None else Some([s[0]] + rest.value)
    else
      var first := DecodeChar(Escaped(s));
      if first.None? then None
      else
        var rest := DecodeUri(s[3 * first.value.bytes..]);
        if rest.None? then None else Some([first.value.scalar] + rest.value)
  }

  lemma PercentReadBack(b: Byte, rest: string)
    ensures Escaped(Percent(b) + rest) == [b] + Escaped(rest)
  {
    var s, n := Percent(b) + rest, b as int;
    assert s[3..] == rest;
    assert HexValue(HexDigit(n / 16)) == Some(n / 16) && HexValue(HexDigit(n % 16)) == Some(n % 16);
  }

  lemma {:induction false} EscapesReadBack(bytes: seq<Byte>, rest: string)
    ensures Escaped(PercentAll(bytes) + rest) == bytes + Escaped(rest)
  {
    hide Percent, Escaped;
    if bytes == [] {
      assert "" + rest == rest && [] + Escaped(rest) == Escaped(rest);
    } else {
      EscapesReadBack(bytes[1..], rest);
      PercentReadBack(bytes[0], PercentAll(bytes[1..]) + rest);
      assert Percent(bytes[0]) + PercentAll(bytes[1..]) + rest == Percent(bytes[0]) + (PercentAll(bytes[1..]) + rest);
      assert [bytes[0]] + (bytes[1..] + Escaped(rest)) == bytes + Escaped(rest);
    }
  }

  lemma DecodeEscapedChar(c: char, rest: string)
    ensures var s := PercentAll(EncodeChar(c)) + rest;
            && s != "" && s[0] == '%' && DecodeChar(Escaped(s)) == Some(Read(c, CharBytes(c)))
            && s[3 * CharBytes(c)..] == rest
  {
    hide DecodeChar, Escaped;
    EscapesReadBack(EncodeChar(c), rest);
    DecodeOfEncodedChar(c, Escaped(rest));
    var s := PercentAll(EncodeChar(c)) + rest;
    assert PercentAll(EncodeChar(c))[0] == Percent(EncodeChar(c)[0])[0];
    assert s[|PercentAll(EncodeChar(c))|..] == rest;
  }

  /** What is encoded is decoded as it was. */
  lemma {:induction false} DecodeUndoesEncode(s: string)
    ensures DecodeUri(EncodeUri(s)) == Some(s)
  {
    hide DecodeChar, Escaped, EncodeChar, PercentAll;
    if s != "" {
      DecodeUndoesEncode(s[1..]);
      assert [s[0]] + s[1..] == s;
      if IsUnreserved(s[0]) {
        assert EncodeUri(s)[1..] == EncodeUri(s[1..]);
        assert s[0] != '%';
      } else {
        DecodeEscapedChar(s[0], EncodeUri(s[1..]));
      }
    }
  }

  lemma {:induction false} PercentHasNoSlash(bytes: seq<Byte>)
    ensures '/' !in PercentAll(bytes)
  {
    if bytes != [] {
      PercentHasNoSlash(bytes[1..]);
      assert '/' !in Percent(bytes[0]);
    }
  }

  /** An encoded name has no separator, and is nothing only for a name that is. */
  lemma {:induction false} EncodedIsOneName(s: string)
    ensures '/' !in EncodeUri(s) && (EncodeUri(s) == "" <==> s == "")
  {
    hide PercentAll, EncodeChar;
    if s != "" {
      EncodedIsOneName(s[1..]);
      PercentHasNoSlash(EncodeChar(s[0]));
      EncodedCharIsSome(s[0]);
    }
  }

  lemma EncodedCharIsSome(c: char)
    ensures PercentAll(EncodeChar(c)) != ""
  {
    assert |EncodeChar(c)| > 0;
  }

  const CAPITALS := "ABCDEFGHIJKLMNOPQRSTUVWXYZ"
  const SMALL := "abcdefghijklmnopqrstuvwxyz"
  const HEX := "0123456789ABCDEF"

  /** A letter or a digit of ASCII, or one of nine marks. */
  predicate IsPlain(c: char) {
    c in CAPITALS || c in SMALL || c in HEX[..10] || c in "-_.!~*'()"
  }

  lemma CapitalsAre(c: char)
    ensures c in CAPITALS <==> 'A' <= c <= 'Z'
  {
    if 'A' <= c <= 'Z' {
      assert CAPITALS[c as int - 65] == c;
    }
  }

  lemma SmallAre(c: char)
    ensures c in SMALL <==> 'a' <= c <= 'z'
  {
    if 'a' <= c <= 'z' {
      assert SMALL[c as int - 97] == c;
    }
  }

  lemma DigitsAre(c: char)
    ensures c in HEX[..10] <==> '0' <= c <= '9'
  {
    assert HEX[..10] == "0123456789";
    if '0' <= c <= '9' {
      assert "0123456789"[c as int - 48] == c;
    }
  }

  lemma PlainIs(c: char)
    ensures IsUnreserved(c) <==> IsPlain(c)
  {
    CapitalsAre(c);
    SmallAre(c);
    DigitsAre(c);
  }

  /** A character is encoded as itself where it is plain, and otherwise as its bytes in UTF-8, each a `%` and two digits. */
  lemma EncodedAs(c: char)
    ensures IsPlain(c) ==> EncodeUri([c]) == [c]
    ensures !IsPlain(c) ==>
              && |EncodeUri([c])| == 3 * |EncodeChar(c)|
              && forall i :: 0 <= i < |EncodeChar(c)| ==>
                   && EncodeUri([c])[3 * i] == '%'
                   && EncodeUri([c])[3 * i + 1] == HEX[EncodeChar(c)[i] as int / 16]
                   && EncodeUri([c])[3 * i + 2] == HEX[EncodeChar(c)[i] as int % 16]
  {
    hide EncodeChar, IsPlain, IsUnreserved;
    PlainIs(c);
    assert [c][1..] == "";
    assert EncodeUri("") == "";
    var encoded := if IsUnreserved(c) then [c] else PercentAll(EncodeChar(c));
    assert EncodeUri([c]) == encoded + "" == encoded;
    if !IsPlain(c) {
      forall i | 0 <= i < |EncodeChar(c)|
        ensures PercentAll(EncodeChar(c))[3 * i] == '%'
                && PercentAll(EncodeChar(c))[3 * i + 1] == HEX[EncodeChar(c)[i] as int / 16]
                && PercentAll(EncodeChar(c))[3 * i + 2] == HEX[EncodeChar(c)[i] as int % 16]
      {
        PercentAt(EncodeChar(c), i);
      }
    }
  }

  lemma {:induction false} PercentAt(bytes: seq<Byte>, i: nat)
    requires i < |bytes|
    ensures PercentAll(bytes)[3 * i] == '%'
    ensures PercentAll(bytes)[3 * i + 1] == HEX[bytes[i] as int / 16]
    ensures PercentAll(bytes)[3 * i + 2] == HEX[bytes[i] as int % 16]
  {
    if i > 0 {
      PercentAt(bytes[1..], i - 1);
      assert bytes[1..][i - 1] == bytes[i];
    }
  }

  /** A string is encoded character by character. */
  lemma {:induction false} EncodedByCharacter(a: string, b: string)
    ensures EncodeUri(a + b) == EncodeUri(a) + EncodeUri(b)
  {
    hide PercentAll, EncodeChar;
    if a == "" {
      assert a + b == b;
    } else {
      assert (a + b)[0] == a[0] && (a + b)[1..] == a[1..] + b;
      EncodedByCharacter(a[1..], b);
    }
  }
}
