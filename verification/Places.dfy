/**
  Where the user is, as the URL's hash names it and as it is read back
  (apps/web/src/routes/place.ts).
 */
module Places {
  import opened Options
  import opened Paths
  import opened Naming
  import opened UrlNames

  /** A note's filename without `.md`, in either case. */
  function Stem(name: string): (stem: string)
    ensures stem <= name
  {
    if |name| >= 3 && FoldName(name[|name| - 3..]) == NOTE_EXTENSION then name[..|name| - 3] else name
  }

  function SlugAll(names: seq<string>): (slugs: seq<string>)
    ensures |slugs| == |names| && forall i :: 0 <= i < |names| ==> slugs[i] == UrlSlug(names[i])
  {
    seq(|names|, i requires 0 <= i < |names| => UrlSlug(names[i]))
  }

  /** A path as slugs. */
  function SlugPath(path: string): string {
    if path == ROOT then ROOT else Join(SlugAll(Split(path)))
  }

  function SpellAll(names: seq<string>): (spelled: seq<string>)
    ensures |spelled| == |names| && forall i :: 0 <= i < |names| ==> spelled[i] == EncodeUri(UrlSlug(names[i]))
  {
    seq(|names|, i requires 0 <= i < |names| => EncodeUri(UrlSlug(names[i])))
  }

  /** The slugs of a path's names, encoded and joined. */
  function Spelled(path: string): string {
    Join(SpellAll(Split(path)))
  }

  /** A reserved folder, and what its hashes start with. */
  datatype AppPlace = AppPlace(folder: string, hash: string)

  const SCRATCHPAD := AppPlace(".scratchpad", "scratchpad")
  const PASSWORDS := AppPlace(".vault", "passwords")

  function AppPlaceOf(path: string): Option<AppPlace> {
    if IsWithin(path, SCRATCHPAD.folder) then Some(SCRATCHPAD)
    else if IsWithin(path, PASSWORDS.folder) then Some(PASSWORDS)
    else None
  }

  /** What comes after the `#` for an open notebook and an open note, either of which there may not be. */
  function PlaceHash(folder: Option<string>, note: Option<string>): string {
    var app := if folder.None? then None else AppPlaceOf(folder.value);
    if app.Some? then
      if note.None? then app.value.hash else app.value.hash + "/" + Spelled(Stem(Basename(note.value)))
    else if note.Some? then "/" + Spelled(Stem(note.value))
    else if folder.None? then ""
    else if folder.value == ROOT then "/"
    else "/" + Spelled(folder.value) + "/"
  }

  datatype NamedPlace = NamedPlace(folder: Option<string>, note: Option<string>)

  const NOWHERE := NamedPlace(None, None)

  function DecodeAllNames(names: seq<string>): Option<seq<string>> {
    if names == [] then Some([])
    else
      var first, rest := DecodeUri(names[0]), DecodeAllNames(names[1..]);
      if first.None? || rest.None? then None else Some([first.value] + rest.value)
  }

  /** Each name in a path, or nothing for an escape that is none. */
  function DecodeNames(spelled: string): Option<seq<string>> {
    DecodeAllNames(Split(spelled))
  }

  predicate StartsWith(s: string, front: string) {
    |front| <= |s| && s[..|front|] == front
  }

  predicate IsOf(fragment: string, app: AppPlace) {
    fragment == app.hash || StartsWith(fragment, app.hash + "/")
  }

  /** Empty or hidden: names nothing. */
  predicate IsUnnamed(name: string) {
    name == "" || name[0] == '.'
  }

  predicate AnyUnnamed(names: seq<string>) {
    exists i :: 0 <= i < |names| && IsUnnamed(names[i])
  }

  function ReadAppPlace(fragment: string, app: AppPlace): NamedPlace {
    var names := DecodeNames(if |app.hash| < |fragment| then fragment[|app.hash| + 1..] else "");
    if names.Some? && |names.value| == 1 && names.value[0] != "" then
      NamedPlace(Some(app.folder), Some(UrlSlug(Stem(names.value[0]))))
    else NamedPlace(Some(app.folder), None)
  }

  /** What a hash names, read back. */
  function ReadPlaceHash(fragment: string): NamedPlace {
    if IsOf(fragment, SCRATCHPAD) then ReadAppPlace(fragment, SCRATCHPAD)
    else if IsOf(fragment, PASSWORDS) then ReadAppPlace(fragment, PASSWORDS)
    else if fragment == "" || fragment[0] != '/' then NOWHERE
    else if fragment == "/" then NamedPlace(Some(ROOT), None)
    else
      var notebook := fragment[|fragment| - 1] == '/';
      var names := DecodeNames(if notebook then fragment[1..|fragment| - 1] else fragment[1..]);
      if names.None? || AnyUnnamed(names.value) then NOWHERE
      else if notebook then NamedPlace(Some(SlugPath(Join(names.value))), None)
      else
        var last := if names.value == [] then "" else names.value[|names.value| - 1];
        NamedPlace(Some(SlugPath(Join(Init(names.value)))), Some(UrlSlug(Stem(last))))
  }

  // ----- Reading back what was written -------------------------------------------------

  /** Names with nothing hidden, empty, or holding a separator among them. */
  predicate AreVisible(names: seq<string>) {
    forall i :: 0 <= i < |names| ==> !IsUnnamed(names[i]) && '/' !in names[i]
  }

  /** A path the app shows, as paths are stored. */
  predicate IsVisible(path: string) {
    path != ROOT && AreVisible(Split(path))
  }

  lemma {:induction false} NamesReadBack(names: seq<string>)
    ensures DecodeAllNames(SpellAll(names)) == Some(SlugAll(names))
  {
    hide DecodeUri, EncodeUri, UrlSlug;
    if names == [] {
      assert SlugAll(names) == [];
    } else {
      NamesReadBack(names[1..]);
      DecodeUndoesEncode(UrlSlug(names[0]));
      assert SpellAll(names)[1..] == SpellAll(names[1..]);
      assert [UrlSlug(names[0])] + SlugAll(names[1..]) == SlugAll(names);
    }
  }

  /** A path spelled is its slugs, read back. */
  lemma SpelledReadsBack(names: seq<string>)
    requires names != []
    ensures DecodeNames(Join(SpellAll(names))) == Some(SlugAll(names))
  {
    hide DecodeUri, EncodeUri, UrlSlug;
    NamesReadBack(names);
    var spelled := SpellAll(names);
    forall part | part in spelled
      ensures '/' !in part
    {
      var i :| 0 <= i < |spelled| && spelled[i] == part;
      EncodedIsOneName(UrlSlug(names[i]));
    }
    SplitOfJoin(spelled);
  }

  lemma SlugIsVisible(name: string)
    requires !IsUnnamed(name) && '/' !in name
    ensures !IsUnnamed(UrlSlug(name)) && '/' !in UrlSlug(name)
    ensures Stem(UrlSlug(name)) == UrlSlug(name)
  {
    hide UrlSlug;
    SlugIs(name);
    SlugIsItsOwn(name);
    var slug := UrlSlug(name);
    if HasWord(name) {
      TidyHasNoStem(slug);
    } else {
      WordlessHasNoStem(name);
    }
  }

  lemma TidyHasNoStem(slug: string)
    requires IsTidy(slug)
    ensures Stem(slug) == slug
  {
    if |slug| >= 3 {
      var end := slug[|slug| - 3..];
      assert end[0] == slug[|slug| - 3];
      assert FoldName(end)[0] == Lower(slug[|slug| - 3]);
      assert NOTE_EXTENSION[0] == '.';
    }
  }

  lemma WordlessHasNoStem(name: string)
    requires !HasWord(name)
    ensures Stem(name) == name
  {
    if |name| >= 3 {
      var end := name[|name| - 3..];
      assert end[1] == name[|name| - 2];
      assert FoldName(end)[1] == Lower(name[|name| - 2]);
      assert NOTE_EXTENSION[1] == 'm';
    }
  }

  lemma SlugsAreVisible(names: seq<string>)
    requires AreVisible(names)
    ensures AreVisible(SlugAll(names)) && SlugAll(SlugAll(names)) == SlugAll(names)
  {
    hide UrlSlug;
    forall i | 0 <= i < |names|
      ensures !IsUnnamed(SlugAll(names)[i]) && '/' !in SlugAll(names)[i] && UrlSlug(SlugAll(names)[i]) == SlugAll(names)[i]
    {
      SlugIsVisible(names[i]);
      SlugIsItsOwn(names[i]);
    }
  }

  lemma JoinedIsSome(names: seq<string>)
    requires AreVisible(names) && names != []
    ensures Join(names) != ROOT
  {
    if |names| > 1 {
      assert |Join(names)| >= |names[0]|;
    }
  }

  lemma VisibleHaveNoSeparator(names: seq<string>)
    requires AreVisible(names)
    ensures forall part :: part in names ==> '/' !in part
  {}

  /** Slugs, joined, are their own slug path. */
  lemma SlugPathOfSlugs(names: seq<string>)
    requires AreVisible(names)
    ensures SlugPath(Join(SlugAll(names))) == Join(SlugAll(names)) == SlugPath(Join(names))
  {
    hide UrlSlug;
    SlugsAreVisible(names);
    if names == [] {
      assert SlugAll(names) == [] && Join([]) == ROOT;
    } else {
      JoinedIsSome(names);
      JoinedIsSome(SlugAll(names));
      VisibleHaveNoSeparator(names);
      VisibleHaveNoSeparator(SlugAll(names));
      SplitOfJoin(names);
      SplitOfJoin(SlugAll(names));
    }
  }

  /** Joined names neither begin an app place's hash nor end in a separator. */
  lemma SpelledEnds(names: seq<string>)
    requires AreVisible(names) && names != []
    ensures var spelled := Join(SpellAll(names)); spelled != "" && spelled[|spelled| - 1] != '/'
  {
    hide UrlSlug, EncodeUri;
    var last := names[|names| - 1];
    SlugIsVisible(last);
    EncodedIsOneName(UrlSlug(last));
    var encoded := SpellAll(names)[|names| - 1];
    assert encoded != "" && '/' !in encoded;
    JoinEndsInLast(SpellAll(names));
  }

  lemma {:induction false} JoinEndsInLast(parts: seq<string>)
    requires parts != [] && parts[|parts| - 1] != ""
    ensures Join(parts) != "" && Join(parts)[|Join(parts)| - 1] == parts[|parts| - 1][|parts[|parts| - 1]| - 1]
  {
    if |parts| > 1 {
      JoinEndsInLast(parts[1..]);
      assert Join(parts) == parts[0] + "/" + Join(parts[1..]);
    }
  }

  lemma SlashIsNoAppPlace(rest: string)
    ensures !IsOf("/" + rest, SCRATCHPAD) && !IsOf("/" + rest, PASSWORDS)
  {
    assert ("/" + rest)[0] == '/';
  }

  /** What a hash that does not end in a separator names, from its names as they are decoded. */
  lemma NoteFragment(rest: string, names: seq<string>)
    requires rest != "" && rest[|rest| - 1] != '/' && names != [] && !AnyUnnamed(names)
    requires DecodeNames(rest) == Some(names)
    ensures ReadPlaceHash("/" + rest)
            == NamedPlace(Some(SlugPath(Join(Init(names)))), Some(UrlSlug(Stem(names[|names| - 1]))))
  {
    hide UrlSlug, DecodeNames, SlugPath, Stem, ReadAppPlace, IsOf, AnyUnnamed, Join;
    SlashIsNoAppPlace(rest);
    var fragment := "/" + rest;
    assert fragment[1..] == rest && fragment[|fragment| - 1] == rest[|rest| - 1];
  }

  /** And of one that does. */
  lemma NotebookFragment(rest: string, names: seq<string>)
    requires rest != "" && !AnyUnnamed(names) && DecodeNames(rest) == Some(names)
    ensures ReadPlaceHash("/" + rest + "/") == NamedPlace(Some(SlugPath(Join(names))), None)
  {
    hide UrlSlug, DecodeNames, SlugPath, Stem, ReadAppPlace, IsOf, AnyUnnamed, Join;
    SlashIsNoAppPlace(rest + "/");
    var fragment := "/" + rest + "/";
    assert fragment == "/" + (rest + "/") && fragment[1..|fragment| - 1] == rest && fragment[|fragment| - 1] == '/';
  }

  /** A note's hash names its notebook and its file's name, in slugs, whatever the names. */
  lemma NamesOfNote(names: seq<string>)
    requires AreVisible(names) && names != []
    ensures ReadPlaceHash("/" + Join(SpellAll(names)))
            == NamedPlace(Some(SlugPath(Join(Init(names)))), Some(UrlSlug(names[|names| - 1])))
  {
    hide UrlSlug, DecodeNames, SlugPath, ReadPlaceHash, SpellAll, Stem, Join;
    SpelledReadsBack(names);
    SpelledEnds(names);
    SlugsAreVisible(names);
    var slugs := SlugAll(names);
    NoteFragment(Join(SpellAll(names)), slugs);
    SlugIsVisible(names[|names| - 1]);
    SlugIsItsOwn(names[|names| - 1]);
    assert Init(slugs) == SlugAll(Init(names));
    SlugPathOfSlugs(Init(names));
  }

  lemma NamesOfNotebook(names: seq<string>)
    requires AreVisible(names) && names != []
    ensures ReadPlaceHash("/" + Join(SpellAll(names)) + "/") == NamedPlace(Some(SlugPath(Join(names))), None)
  {
    hide UrlSlug, DecodeNames, SlugPath, ReadPlaceHash, SpellAll, Join;
    SpelledReadsBack(names);
    SlugsAreVisible(names);
    SpelledEnds(names);
    NotebookFragment(Join(SpellAll(names)), SlugAll(names));
    SlugPathOfSlugs(names);
  }

  /** Taking `.md` off a path takes it off the last name. */
  lemma StemOfJoin(front: seq<string>, last: string)
    requires !IsUnnamed(last) && '/' !in last
    ensures Stem(Join(front + [last])) == Join(front + [Stem(last)])
    ensures !IsUnnamed(Stem(last)) && '/' !in Stem(last)
  {
    assert Stem(last) != "" by { VisibleStem(last); }
    if front != [] {
      JoinAppend(front, [last]);
      JoinAppend(front, [Stem(last)]);
      StemAfterSlash(Join(front), last);
    } else {
      assert [] + [last] == [last] && [] + [Stem(last)] == [Stem(last)];
    }
  }

  lemma VisibleStem(last: string)
    requires !IsUnnamed(last)
    ensures Stem(last) != "" && Stem(last)[0] == last[0]
  {
    if |last| == 3 {
      assert last[|last| - 3..] == last;
      assert FoldName(last)[0] == Lower(last[0]);
      assert NOTE_EXTENSION[0] == '.';
    }
  }

  lemma StemAfterSlash(front: string, last: string)
    requires last != "" && '/' !in last
    ensures Stem(front + "/" + last) == front + "/" + Stem(last)
  {
    var s := front + "/" + last;
    if |last| >= 3 {
      assert s[|s| - 3..] == last[|last| - 3..];
      assert s[..|s| - 3] == front + "/" + last[..|last| - 3];
    } else if |s| >= 3 {
      var end, at := s[|s| - 3..], 3 - |last| - 1;
      assert end[at] == '/';
      assert FoldName(end)[at] == '/';
    }
  }

  lemma VisiblePath(path: string)
    requires IsVisible(path)
    ensures var names := Split(path);
            && Join(names) == path && names != [] && AreVisible(names)
            && names == Init(names) + [names[|names| - 1]]
  {
    JoinOfSplit(path);
  }

  /** A path as the app shows it is one as paths are stored. */
  lemma PartsOfVisible(path: string)
    requires IsVisible(path)
    ensures var names := Split(path);
            && ParentPath(path) == Join(Init(names)) && Basename(path) == names[|names| - 1] && IsShown(path)
  {
    VisiblePath(path);
    var names := Split(path);
    forall i | 0 <= i < |names|
      ensures IsSegment(names[i])
    {
      assert !IsUnnamed(names[i]);
    }
    JoinIsNormal(names);
  }

  lemma NotesNames(path: string)
    requires IsVisible(path)
    ensures var names := Split(path);
            && Split(Stem(path)) == Init(names) + [Stem(names[|names| - 1])]
            && AreVisible(Init(names) + [Stem(names[|names| - 1])])
  {
    VisiblePath(path);
    var names := Split(path);
    var last := names[|names| - 1];
    StemOfJoin(Init(names), last);
    var stemmed := Init(names) + [Stem(last)];
    assert AreVisible(stemmed);
    VisibleHaveNoSeparator(stemmed);
    SplitOfJoin(stemmed);
  }

  /**
    The hash of a note's place, read back, is the slugs of the notebook it is in and of
    its filename, without `.md`, whichever open notebook it was written from.
   */
  lemma ReadUndoesNote(folder: Option<string>, path: string)
    requires IsVisible(path) && (folder.Some? ==> AppPlaceOf(folder.value).None?)
    ensures ReadPlaceHash(PlaceHash(folder, Some(path)))
            == NamedPlace(Some(SlugPath(ParentPath(path))), Some(UrlSlug(Stem(Basename(path)))))
  {
    hide UrlSlug, EncodeUri, DecodeNames, SlugPath, ReadPlaceHash, Stem, AppPlaceOf, ParentPath, Basename;
    NotesNames(path);
    PartsOfVisible(path);
    var names := Split(path);
    var stemmed := Init(names) + [Stem(names[|names| - 1])];
    NamesOfNote(stemmed);
    assert Init(stemmed) == Init(names);
  }

  /** And of a notebook's, the notebook's alone. */
  lemma ReadUndoesNotebook(folder: string)
    requires folder == ROOT || IsVisible(folder)
    requires AppPlaceOf(folder).None?
    ensures ReadPlaceHash(PlaceHash(Some(folder), None)) == NamedPlace(Some(SlugPath(folder)), None)
  {
    hide UrlSlug, EncodeUri, DecodeNames, AppPlaceOf;
    if folder == ROOT {
      SlashIsNoAppPlace("");
      assert "/" + "" == "/";
    } else {
      hide SlugPath, ReadPlaceHash;
      VisiblePath(folder);
      NamesOfNotebook(Split(folder));
    }
  }

  // ----- Finding what is named ---------------------------------------------------------

  /** `<` on strings, code by code. */
  predicate Less(a: string, b: string) {
    b != "" && (a == "" || a[0] < b[0] || (a[0] == b[0] && Less(a[1..], b[1..])))
  }

  /** No segment of the path starts with a dot. */
  predicate IsShown(path: string) {
    forall i :: 0 <= i < |Split(path)| ==> Split(path)[i] == "" || Split(path)[i][0] != '.'
  }

  /** The notes named: shown, in a notebook of those slugs, with a name of that one. */
  predicate IsNamedNote(named: NamedPlace, path: string) {
    && IsShown(path)
    && named.folder == Some(SlugPath(ParentPath(path)))
    && named.note == Some(UrlSlug(Stem(Basename(path))))
  }

  /** The first by path of those wanted. */
  function FirstByPath(paths: seq<string>, wanted: string -> bool): (found: Option<string>)
    ensures found.Some? ==> found.value in paths && wanted(found.value)
    ensures found.None? ==> forall path :: path in paths ==> !wanted(path)
  {
    if paths == [] then None
    else
      var rest := FirstByPath(paths[1..], wanted);
      if !wanted(paths[0]) then rest
      else if rest.Some? && Less(rest.value, paths[0]) then rest
      else Some(paths[0])
  }

  function FindNote(named: NamedPlace, notes: seq<string>): Option<string> {
    FirstByPath(notes, path => IsNamedNote(named, path))
  }

  function FindFolder(slugs: string, folders: seq<string>): Option<string> {
    FirstByPath(folders, path => IsNamedFolder(slugs, path))
  }

  /** `findNamedPlace`, outside the app's own places: the note, or the notebook, or nothing. */
  function FindNamedPlace(named: NamedPlace, folders: seq<string>, notes: seq<string>): (Option<string>, Option<string>) {
    if named.folder.None? then (None, None)
    else
      var note := if named.note.Some? then FindNote(named, notes) else None;
      if note.Some? then (Some(ParentPath(note.value)), note)
      else if named.folder == Some(ROOT) then (Some(ROOT), None)
      else (FindFolder(named.folder.value, folders), None)
  }

  predicate IsNamedFolder(slugs: string, path: string) {
    IsShown(path) && SlugPath(path) == slugs
  }

  /**
    A link to a notebook there is opens, of the notebooks of the same slugs, the first by
    path; and the notebook itself where no other has them.
   */
  lemma LinkOpensNotebook(folder: string, folders: seq<string>, notes: seq<string>)
    requires folder == ROOT || (IsVisible(folder) && folder in folders)
    requires AppPlaceOf(folder).None?
    ensures var (place, note) := FindNamedPlace(ReadPlaceHash(PlaceHash(Some(folder), None)), folders, notes);
            && note.None? && place.Some?
            && if folder == ROOT then place.value == ROOT
               else
                 && place.value in folders && IsNamedFolder(SlugPath(folder), place.value)
                 && forall other :: other in folders && IsNamedFolder(SlugPath(folder), other) ==> !Less(other, place.value)
    ensures folder != ROOT && (forall other :: other in folders && IsNamedFolder(SlugPath(folder), other) ==> other == folder) ==>
              FindNamedPlace(ReadPlaceHash(PlaceHash(Some(folder), None)), folders, notes).0 == Some(folder)
  {
    hide UrlSlug, EncodeUri, DecodeNames, SlugPath, ReadPlaceHash, Stem, AppPlaceOf, PlaceHash, ParentPath, Basename;
    ReadUndoesNotebook(folder);
    RootIsItsOwnSlug();
    if folder != ROOT {
      PartsOfVisible(folder);
      VisibleHasSlug(folder);
      assert IsNamedFolder(SlugPath(folder), folder);
      forall other | other in folders && IsNamedFolder(SlugPath(folder), other)
        ensures FindFolder(SlugPath(folder), folders).Some? && !Less(other, FindFolder(SlugPath(folder), folders).value)
      {
        FoundIsFirst(folders, path => IsNamedFolder(SlugPath(folder), path), other);
      }
    }
  }

  /** No notebook but the top is read as the top. */
  lemma VisibleHasSlug(folder: string)
    requires IsVisible(folder)
    ensures SlugPath(folder) != ROOT
  {
    hide UrlSlug;
    var names := Split(folder);
    SlugsAreVisible(names);
    JoinedIsSome(SlugAll(names));
  }

  lemma RootIsItsOwnSlug()
    ensures SlugPath(ROOT) == ROOT
  {}

  lemma {:induction false} LessIsTotal(a: string, b: string)
    ensures Less(a, b) || Less(b, a) || a == b
  {
    if a != "" && b != "" && a[0] == b[0] {
      LessIsTotal(a[1..], b[1..]);
      assert a == [a[0]] + a[1..] && b == [b[0]] + b[1..];
    }
  }

  lemma {:induction false} LessIsTransitive(a: string, b: string, c: string)
    requires !Less(b, a) && !Less(c, b)
    ensures !Less(c, a)
  {
    if a != "" && b != "" && c != "" && a[0] == b[0] && b[0] == c[0] {
      LessIsTransitive(a[1..], b[1..], c[1..]);
    }
  }

  lemma {:induction false} LessIsStrict(a: string)
    ensures !Less(a, a)
  {
    if a != "" {
      LessIsStrict(a[1..]);
    }
  }

  /** Of all that are wanted, none comes before the one found. */
  lemma {:induction false} FoundIsFirst(paths: seq<string>, wanted: string -> bool, path: string)
    requires path in paths && wanted(path)
    ensures var found := FirstByPath(paths, wanted); found.Some? && !Less(path, found.value)
    decreases |paths|
  {
    var first, rest := paths[0], FirstByPath(paths[1..], wanted);
    LessIsStrict(path);
    if path in paths[1..] {
      FoundIsFirst(paths[1..], wanted, path);
      LessIsTotal(rest.value, first);
      if wanted(first) && !Less(rest.value, first) {
        LessIsTransitive(first, rest.value, path);
      }
    } else {
      assert path == first;
      if rest.Some? {
        LessIsAsymmetric(rest.value, first);
      }
    }
  }

  lemma {:induction false} LessIsAsymmetric(a: string, b: string)
    ensures !(Less(a, b) && Less(b, a))
  {
    if a != "" && b != "" {
      LessIsAsymmetric(a[1..], b[1..]);
    }
  }

  /**
    A link to a note opens a note of the same slugs, the first there is by path; and
    the note itself where no other has them.
   */
  lemma LinkOpensNote(folder: Option<string>, path: string, folders: seq<string>, notes: seq<string>)
    requires IsVisible(path) && path in notes && (folder.Some? ==> AppPlaceOf(folder.value).None?)
    ensures var named := ReadPlaceHash(PlaceHash(folder, Some(path)));
            var found := FindNamedPlace(named, folders, notes).1;
            && IsNamedNote(named, path)
            && found.Some? && found.value in notes && IsNamedNote(named, found.value)
            && (forall other :: other in notes && IsNamedNote(named, other) ==> !Less(other, found.value))
            && ((forall other :: other in notes && IsNamedNote(named, other) ==> other == path) ==> found == Some(path))
  {
    hide UrlSlug, EncodeUri, DecodeNames, SlugPath, ReadPlaceHash, Stem, AppPlaceOf, PlaceHash, ParentPath, Basename;
    ReadUndoesNote(folder, path);
    PartsOfVisible(path);
    var named := ReadPlaceHash(PlaceHash(folder, Some(path)));
    forall other | other in notes && IsNamedNote(named, other)
      ensures FindNote(named, notes).Some? && !Less(other, FindNote(named, notes).value)
    {
      FoundIsFirst(notes, each => IsNamedNote(named, each), other);
    }
  }

  /** The scratchpad's cards and the passwords' items have hashes of their own. */
  lemma ReadUndoesAppPlace(app: AppPlace, path: string)
    requires app == SCRATCHPAD || app == PASSWORDS
    requires AppPlaceOf(app.folder) == Some(app) && '/' !in Stem(Basename(path)) && Stem(Basename(path)) != ""
    ensures ReadPlaceHash(PlaceHash(Some(app.folder), Some(path)))
            == NamedPlace(Some(app.folder), Some(UrlSlug(Stem(UrlSlug(Stem(Basename(path)))))))
  {
    hide UrlSlug, EncodeUri, DecodeNames, Stem, AppPlaceOf, SpellAll, IsWithin;
    var name := Stem(Basename(path));
    SplitPlain(name);
    SlugIsItsOwn(name);
    SpelledReadsBack([name]);
    assert SlugAll([name]) == [UrlSlug(name)];
    var spelled := Join(SpellAll([name]));
    assert Spelled(name) == spelled;
    var fragment := app.hash + "/" + spelled;
    assert PlaceHash(Some(app.folder), Some(path)) == fragment;
    assert fragment[|app.hash| + 1..] == spelled;
    AppHash(app, spelled);
  }

  lemma AppHash(app: AppPlace, rest: string)
    requires app == SCRATCHPAD || app == PASSWORDS
    ensures var fragment := app.hash + "/" + rest;
            && IsOf(fragment, app) && (app == PASSWORDS ==> !IsOf(fragment, SCRATCHPAD)) && |app.hash| < |fragment|
  {
    var fragment := app.hash + "/" + rest;
    assert fragment[..|app.hash + "/"|] == app.hash + "/";
    assert fragment[0] == app.hash[0];
  }

  // ----- What else an address can say --------------------------------------------------

  /** `.md` comes off the end of a name, however it is spelled, and nothing else does. */
  lemma StemDropsExtension(name: string, end: string)
    ensures end in {".md", ".MD", ".Md", ".mD"} ==> Stem(name + end) == name
    ensures (forall i :: 0 <= i <= |name| ==> name[i..] !in {".md", ".MD", ".Md", ".mD"}) ==> Stem(name) == name
  {
    if end in {".md", ".MD", ".Md", ".mD"} {
      assert (name + end)[|name|..] == end && (name + end)[..|name|] == name;
      assert FoldName(end) == NOTE_EXTENSION;
    }
    if |name| >= 3 && FoldName(name[|name| - 3..]) == NOTE_EXTENSION {
      FoldsToExtension(name[|name| - 3..]);
    }
  }

  lemma FoldsToExtension(end: string)
    requires FoldName(end) == NOTE_EXTENSION
    ensures end in {".md", ".MD", ".Md", ".mD"}
  {
    assert |end| == 3 && forall i :: 0 <= i < 3 ==> Lower(end[i]) == NOTE_EXTENSION[i];
    assert Lower(end[0]) == '.' && Lower(end[1]) == 'm' && Lower(end[2]) == 'd';
    assert end == [end[0], end[1], end[2]];
  }

  lemma {:induction false} PlainIsDecoded(s: string)
    requires '%' !in s
    ensures DecodeUri(s) == Some(s)
  {
    hide Escaped;
    if s != "" {
      assert '%' !in s[1..];
      PlainIsDecoded(s[1..]);
      assert [s[0]] + s[1..] == s;
    }
  }

  lemma {:induction false} PlainNamesAreDecoded(names: seq<string>)
    requires forall i :: 0 <= i < |names| ==> '%' !in names[i]
    ensures DecodeAllNames(names) == Some(names)
  {
    hide DecodeUri;
    if names != [] {
      PlainIsDecoded(names[0]);
      assert forall i :: 0 <= i < |names[1..]| ==> names[1..][i] == names[i + 1];
      PlainNamesAreDecoded(names[1..]);
      assert [names[0]] + names[1..] == names;
    }
  }

  lemma {:induction false} PartsHaveNoPercent(parts: seq<string>)
    requires '%' !in Join(parts)
    ensures forall i :: 0 <= i < |parts| ==> '%' !in parts[i]
  {
    if |parts| > 1 {
      assert Join(parts) == parts[0] + "/" + Join(parts[1..]);
      PartsHaveNoPercent(parts[1..]);
      assert forall i :: 1 <= i < |parts| ==> parts[i] == parts[1..][i - 1];
    }
  }

  /** A hash somebody typed, names unslugged, reads as the one the app would write. */
  lemma TypedReadsTheSame(path: string)
    requires IsVisible(path) && '%' !in path
    ensures ReadPlaceHash("/" + path) == ReadPlaceHash(PlaceHash(None, Some(path)))
    ensures ReadPlaceHash("/" + path + "/") == NamedPlace(Some(SlugPath(path)), None)
  {
    hide UrlSlug, DecodeAllNames, SlugPath, Stem, AppPlaceOf, ParentPath, Basename, PlaceHash, Split, ReadPlaceHash, Join;
    var names := Split(path);
    ReadUndoesNote(None, path);
    PartsOfVisible(path);
    VisiblePath(path);
    PartsHaveNoPercent(names);
    PlainNamesAreDecoded(names);
    PathEnds(path);
    NoteFragment(path, names);
    NotebookFragment(path, names);
  }

  lemma PathEnds(path: string)
    requires IsVisible(path)
    ensures path != "" && path[|path| - 1] != '/'
  {
    VisiblePath(path);
    var names := Split(path);
    var last := names[|names| - 1];
    assert !IsUnnamed(last) && '/' !in last;
    JoinEndsInLast(names);
  }

  lemma UnnamedIsNowhere(rest: string, names: seq<string>, i: nat)
    requires rest != "" && rest[|rest| - 1] != '/' && DecodeNames(rest) == Some(names)
    requires i < |names| && IsUnnamed(names[i])
    ensures ReadPlaceHash("/" + rest) == NOWHERE
  {
    hide UrlSlug, DecodeNames, SlugPath, Stem, ReadAppPlace, IsOf, IsUnnamed, Join;
    SlashIsNoAppPlace(rest);
    var fragment := "/" + rest;
    assert fragment[1..] == rest && fragment[|fragment| - 1] == rest[|rest| - 1];
  }

  /** An address with a name that is hidden or nothing names nothing. */
  lemma NamesNothing(names: seq<string>, i: nat)
    requires i < |names| && IsUnnamed(names[i]) && '%' !in Join(names)
    requires (forall part :: part in names ==> '/' !in part) && names[|names| - 1] != ""
    ensures ReadPlaceHash("/" + Join(names)) == NOWHERE
  {
    hide ReadPlaceHash, IsUnnamed, DecodeAllNames, Split, Join;
    SplitOfJoin(names);
    JoinEndsInLast(names);
    PartsHaveNoPercent(names);
    PlainNamesAreDecoded(names);
    assert names[|names| - 1] in names;
    UnnamedIsNowhere(Join(names), names, i);
  }

  /** Where no note has the name, the notebook named is open if there is one, and nothing if there is none. */
  lemma MissingLeavesNotebook(named: NamedPlace, folders: seq<string>, notes: seq<string>)
    requires named.folder.Some?
    requires forall path :: path in notes ==> !IsNamedNote(named, path)
    ensures var (folder, note) := FindNamedPlace(named, folders, notes);
            && note.None?
            && (named.folder.value == ROOT ==> folder == Some(ROOT))
            && (named.folder.value != ROOT ==>
                  (folder.None? <==> forall path :: path in folders ==> !IsNamedFolder(named.folder.value, path))
                  && (folder.Some? ==> folder.value in folders && IsNamedFolder(named.folder.value, folder.value)))
  {
    hide IsNamedNote, IsNamedFolder;
  }
}
