/** What a title's file name has to do with the title, and what it can never be. */
module TitleStems {
  import opened Text
  import opened Escape
  import opened FileNames
  import opened VisibleText

  // ----- Characters no file name holds -----

  /** The nine characters some file system does not take. */
  predicate NotInFiles(c: char) {
    || c == '/' || c == '\\' || c == ':' || c == '*' || c == '?'
    || c == '"' || c == '<' || c == '>' || c == '|'
  }

  lemma ForbiddenAre(c: char)
    ensures IsForbidden(c) <==> NotInFiles(c)
  {
  }

  /** Nine characters, each by its name, none of which an accepted stem holds; every candidate is one path component. */
  lemma StemIsOneComponent(title: string, sequence: nat)
    requires SanitiseTitle(title).Ok?
    ensures var stem := SanitiseTitle(title).value;
      && '/' !in stem && '\\' !in stem && ':' !in stem && '*' !in stem && '?' !in stem
      && '"' !in stem && '<' !in stem && '>' !in stem && '|' !in stem
      && (forall c :: c in stem ==> !IsControl(c))
    ensures var name := NoteFileName(SanitiseTitle(title).value, sequence);
      Split(name, '/') == [name] && '\\' !in name && name != "." && name != ".." && name[0] != '.'
  {
    hide SanitiseTitle, IsForbidden, IsControl, IsDotOrSpace, Split;
    SanitisedIsStem(title);
    var stem := SanitiseTitle(title).value;
    forall c | c in stem
      ensures !NotInFiles(c)
    {
      ForbiddenAre(c);
    }
    CandidateChars(stem, sequence);
    SplitWhole(NoteFileName(stem, sequence), '/');
    NotADot(stem);
  }

  lemma NotADot(stem: string)
    requires IsStem(stem)
    ensures stem[0] != '.'
  {
  }

  lemma CandidateChars(stem: string, sequence: nat)
    ensures forall c :: c in NoteFileName(stem, sequence) ==> c in stem || c == '-' || c == '.' || c == 'm' || c == 'd' || IsAsciiDigit(c)
    ensures |NoteFileName(stem, sequence)| >= |stem| + 3 && NoteFileName(stem, sequence)[..|stem|] == stem
  {
    hide Decimal;
    DecimalRoundTrip(sequence);
  }

  // ----- A title that is already a stem -----

  /** Every forbidden character as one hyphen, everything else as it is, each in its place. */
  ghost predicate Hyphened(s: string, r: string) {
    |r| == |s| && forall i :: 0 <= i < |s| ==> r[i] == if NotInFiles(s[i]) then '-' else s[i]
  }

  lemma {:induction false} ReplaceHyphens(s: string)
    ensures Hyphened(s, Replace(s, IsForbidden, Dash))
  {
    hide IsForbidden, NotInFiles;
    if s != "" {
      ForbiddenAre(s[0]);
      ReplaceHyphens(s[1..]);
      var r := Replace(s, IsForbidden, Dash);
      assert r == (if IsForbidden(s[0]) then "-" else [s[0]]) + Replace(s[1..], IsForbidden, Dash);
      forall i | 0 <= i < |s|
        ensures r[i] == if NotInFiles(s[i]) then '-' else s[i]
      {
        assert i > 0 ==> r[i] == Replace(s[1..], IsForbidden, Dash)[i - 1] && s[i] == s[1..][i - 1];
      }
    }
  }

  /** Nothing for the other steps to do: no control character, single spaces only, no dot or space at either end, short. */
  ghost predicate Tidy(s: string) {
    && 1 <= |s| <= 100
    && (forall i :: 0 <= i < |s| ==> !IsControl(s[i]))
    && (forall i :: 0 <= i < |s| && IsSpace(s[i]) ==> s[i] == ' ' && i + 1 < |s| && !IsSpace(s[i + 1]))
    && s[0] != ' ' && s[0] != '.' && s[|s| - 1] != '.'
  }

  lemma HyphenIsVisible()
    ensures !IsSpace('-') && !IsControl('-') && !NotInFiles('-')
  {
  }

  lemma HyphenedIsTidy(s: string, r: string)
    requires Tidy(s) && Hyphened(s, r)
    ensures Tidy(r)
  {
    hide IsSpace, IsControl, NotInFiles;
    HyphenIsVisible();
    var last := |s| - 1;
    assert r[last] == if NotInFiles(s[last]) then '-' else s[last];
  }

  lemma TidyIsTrimmed(s: string)
    requires Tidy(s)
    ensures s != "" && Trimmed(s) && !IsDotOrSpace(s[0]) && !IsDotOrSpace(s[|s| - 1])
  {
    hide IsSpace, IsControl;
    SpaceIsSpace();
  }

  lemma SpaceIsSpace()
    ensures IsSpace(' ') && !IsSpace('.')
  {
  }

  lemma StripDotsIdle(s: string)
    requires s != "" && !IsDotOrSpace(s[0]) && !IsDotOrSpace(s[|s| - 1])
    ensures StripDots(s) == s
  {
    SpanIs(s, IsDotOrSpace, 0);
    assert s[0..] == s;
  }

  /** A tidy title becomes itself with hyphens for the forbidden characters. */
  lemma TidyIsHyphened(title: string)
    requires Tidy(title)
    ensures Hyphened(title, CleanTitle(title)) && Tidy(CleanTitle(title))
  {
    hide IsSpace, IsControl, NotInFiles, IsForbidden, Hyphened, Tidy, Replace, Remove, Collapse, Strip, StripDots;
    RemoveIdle(title);
    var safe := Replace(title, IsForbidden, Dash);
    ReplaceHyphens(title);
    HyphenedIsTidy(title, safe);
    CollapseTidy(safe);
    TidyIsTrimmed(safe);
    StripTrims(safe);
    StripDotsIdle(safe);
    TidyIsShort(safe);
  }

  lemma TidyIsShort(s: string)
    requires Tidy(s)
    ensures 1 <= |s| <= MAX_STEM_LENGTH
  {
    hide IsSpace, IsControl;
  }

  lemma RemoveIdle(s: string)
    requires Tidy(s)
    ensures Remove(s, IsControl) == s
  {
    hide IsControl, IsSpace;
    RemoveChars(s, IsControl);
    assert forall c :: c in s ==> exists i :: 0 <= i < |s| && s[i] == c;
  }

  lemma CollapseTidy(s: string)
    requires Tidy(s)
    ensures Collapse(s, IsSpace, ' ') == s
  {
    hide IsControl, IsSpace;
    CollapseIdle(s, IsSpace, ' ');
  }

  /** Nothing at all to do. */
  ghost predicate CleanName(s: string) {
    Tidy(s) && forall i :: 0 <= i < |s| ==> !NotInFiles(s[i])
  }

  /** The part in front of the first dot. */
  function BaseName(s: string): string {
    Split(s, '.')[0]
  }

  /** A tidy title gives the stem it is, with a hyphen in the place of each forbidden character; only reserved names fail. */
  lemma TidyTitle(title: string)
    requires Tidy(title)
    ensures Hyphened(title, CleanTitle(title))
    ensures SanitiseTitle(title)
         == if IsReserved(UpperAscii(BaseName(CleanTitle(title)))) then Err(ReservedName) else Ok(CleanTitle(title))
  {
    hide CleanTitle, IsReserved, UpperAscii, Split, Hyphened, Tidy;
    TidyIsHyphened(title);
    TidyIsShort(CleanTitle(title));
  }

  /** A title that is already a clean name is kept as it is, unless its base name is reserved. */
  lemma CleanNameIsKept(title: string)
    requires CleanName(title)
    ensures SanitiseTitle(title) == if IsReserved(UpperAscii(BaseName(title))) then Err(ReservedName) else Ok(title)
  {
    hide CleanTitle, IsReserved, UpperAscii, Split, Tidy, NotInFiles, SanitiseTitle;
    TidyTitle(title);
    assert CleanTitle(title) == title;
  }

  // ----- Reserved names -----

  const RESERVED := [
    "CON", "PRN", "AUX", "NUL",
    "COM1", "COM2", "COM3", "COM4", "COM5", "COM6", "COM7", "COM8", "COM9",
    "LPT1", "LPT2", "LPT3", "LPT4", "LPT5", "LPT6", "LPT7", "LPT8", "LPT9"
  ]

  /** The same letter, in either case. */
  predicate SameLetter(c: char, upper: char) {
    c == upper || ('A' <= upper <= 'Z' && c as int == upper as int + 32)
  }

  ghost predicate SameName(s: string, upper: string) {
    |s| == |upper| && forall i :: 0 <= i < |s| ==> SameLetter(s[i], upper[i])
  }

  lemma {:induction false} UpperIs(s: string, upper: string)
    requires forall i :: 0 <= i < |upper| ==> !('a' <= upper[i] <= 'z')
    ensures UpperAscii(s) == upper <==> SameName(s, upper)
  {
    if s != "" && upper != "" {
      UpperIs(s[1..], upper[1..]);
      assert UpperAscii(s)[1..] == UpperAscii(s[1..]);
      assert upper == [upper[0]] + upper[1..];
      assert SameName(s, upper) <==> SameLetter(s[0], upper[0]) && SameName(s[1..], upper[1..]) by { SameNameParts(s, upper); }
    }
  }

  lemma SameNameParts(s: string, upper: string)
    requires s != "" && upper != ""
    ensures SameName(s, upper) <==> SameLetter(s[0], upper[0]) && SameName(s[1..], upper[1..])
  {
    hide SameLetter;
    if SameLetter(s[0], upper[0]) && SameName(s[1..], upper[1..]) && |s| == |upper| {
      forall i | 0 <= i < |s|
        ensures SameLetter(s[i], upper[i])
      {
        assert i > 0 ==> s[i] == s[1..][i - 1] && upper[i] == upper[1..][i - 1];
      }
    }
  }

  lemma ReservedAre(s: string)
    ensures IsReserved(s) <==> s in RESERVED
  {
    if |s| == 4 && (s[..3] == "COM" || s[..3] == "LPT") && '1' <= s[3] <= '9' {
      DevicesAreListed(s);
    }
    if s in RESERVED {
      ListedAreReserved(s);
    }
  }

  lemma DevicesAreListed(s: string)
    requires |s| == 4 && (s[..3] == "COM" || s[..3] == "LPT") && '1' <= s[3] <= '9'
    ensures s in RESERVED
  {
    assert s == s[..3] + [s[3]];
    var d := s[3] as int - 49;
    assert s == if s[..3] == "COM" then RESERVED[4 + d] else RESERVED[13 + d];
  }

  lemma ListedAreReserved(s: string)
    requires s in RESERVED
    ensures IsReserved(s)
  {
    var i :| 0 <= i < |RESERVED| && RESERVED[i] == s;
    if 4 <= i < 13 {
      assert s[..3] == "COM";
    } else if i >= 13 {
      assert s[..3] == "LPT";
    }
  }

  /** A title is refused as reserved exactly if its stem's base name is one of the 22 device names, in any case. */
  lemma ReservedTitles(title: string)
    ensures SanitiseTitle(title) == Err(ReservedName) <==>
      CleanTitle(title) != "" && exists k :: 0 <= k < |RESERVED| && SameName(BaseName(CleanTitle(title)), RESERVED[k])
  {
    hide CleanTitle, Split, SameName, IsReserved, UpperAscii;
    var base := BaseName(CleanTitle(title));
    ReservedAre(UpperAscii(base));
    forall k | 0 <= k < |RESERVED|
      ensures UpperAscii(base) == RESERVED[k] <==> SameName(base, RESERVED[k])
    {
      NoLowerCase(k);
      UpperIs(base, RESERVED[k]);
    }
  }

  lemma NoLowerCase(k: nat)
    requires k < |RESERVED|
    ensures forall i :: 0 <= i < |RESERVED[k]| ==> !('a' <= RESERVED[k][i] <= 'z')
  {
  }

  // ----- Every title -----

  predicate IsDot(c: char) {
    c == '.'
  }

  /** A text without whitespace, control characters and dots. */
  function Letters(s: string): string {
    Remove(Ink(s), IsDot)
  }

  lemma LettersConcat(a: string, b: string)
    ensures Letters(a + b) == Letters(a) + Letters(b)
  {
    hide Ink;
    InkConcat(a, b);
    RemoveConcat(Ink(a), Ink(b), IsDot);
  }

  lemma {:induction false} NoLetters(s: string)
    requires forall i :: 0 <= i < |s| ==> IsDotOrSpace(s[i])
    ensures Letters(s) == ""
  {
    hide Letters, IsDotOrSpace;
    if s == "" {
      NothingHasNoLetters();
    } else {
      assert s == [s[0]] + s[1..];
      NoLetters(s[1..]);
      LettersConcat([s[0]], s[1..]);
      DotHasNoLetters(s[0]);
    }
  }

  lemma NothingHasNoLetters()
    ensures Letters("") == ""
  {
  }

  lemma DotHasNoLetters(c: char)
    requires IsDotOrSpace(c)
    ensures Letters([c]) == ""
  {
    hide Remove;
    if c == ' ' {
      NoInk([c]);
      RemoveChars("", IsDot);
    } else {
      SpaceIsSpace();
      RemoveChars([c], Invisible);
      DotIsRemoved();
    }
  }

  lemma DotIsRemoved()
    ensures !Invisible('.') && Remove(".", IsDot) == ""
  {
    assert "."[1..] == "";
  }

  lemma {:induction false} StripDotsRightEnds(s: string)
    ensures forall i :: |StripDotsRight(s)| <= i < |s| ==> IsDotOrSpace(s[i])
  {
    hide IsDotOrSpace;
    if s != "" && IsDotOrSpace(s[|s| - 1]) {
      var rest := s[..|s| - 1];
      StripDotsRightEnds(rest);
      assert forall i :: 0 <= i < |rest| ==> s[i] == rest[i];
    }
  }

  lemma DotsInFront(s: string)
    ensures Letters(s[Span(s, IsDotOrSpace)..]) == Letters(s)
  {
    hide Letters, IsDotOrSpace;
    var n := Span(s, IsDotOrSpace);
    forall i | 0 <= i < n
      ensures IsDotOrSpace(s[..n][i])
    {
      SpanAt(s, IsDotOrSpace, i);
    }
    NoLetters(s[..n]);
    assert s == s[..n] + s[n..];
    LettersConcat(s[..n], s[n..]);
  }

  lemma DotsBehind(s: string)
    ensures Letters(StripDotsRight(s)) == Letters(s)
  {
    hide Letters, IsDotOrSpace, StripDotsRight;
    var m := StripDotsRight(s);
    StripDotsRightEnds(s);
    forall i | 0 <= i < |s| - |m|
      ensures IsDotOrSpace(s[|m|..][i])
    {
      assert s[|m|..][i] == s[|m| + i];
    }
    NoLetters(s[|m|..]);
    assert s == m + s[|m|..];
    LettersConcat(m, s[|m|..]);
  }

  lemma StripDotsKeepsLetters(s: string)
    ensures Letters(StripDots(s)) == Letters(s)
  {
    hide Letters, IsDotOrSpace, StripDotsRight, Span;
    DotsInFront(s);
    DotsBehind(s[Span(s, IsDotOrSpace)..]);
  }

  lemma {:induction false} InkHyphens(s: string)
    ensures Ink(Replace(s, IsForbidden, Dash)) == Replace(Ink(s), IsForbidden, Dash)
  {
    hide Invisible, IsForbidden;
    if s != "" {
      InkHyphens(s[1..]);
      ForbiddenIsVisible(s[0]);
      HyphenIsVisible();
      var rest := Replace(s[1..], IsForbidden, Dash);
      assert ([s[0]] + rest)[1..] == rest && ("-" + rest)[1..] == rest;
      assert ([s[0]] + Ink(s[1..]))[1..] == Ink(s[1..]);
      HyphenStays();
    }
  }

  lemma HyphenStays()
    ensures !Invisible('-')
  {
  }

  lemma ForbiddenIsVisible(c: char)
    ensures IsForbidden(c) ==> !Invisible(c) && c != '.'
  {
  }

  lemma {:induction false} DotsHyphens(s: string)
    ensures Remove(Replace(s, IsForbidden, Dash), IsDot) == Replace(Remove(s, IsDot), IsForbidden, Dash)
  {
    hide IsForbidden;
    if s != "" {
      DotsHyphens(s[1..]);
      ForbiddenIsVisible(s[0]);
      var rest := Replace(s[1..], IsForbidden, Dash);
      assert ([s[0]] + rest)[1..] == rest && ("-" + rest)[1..] == rest;
      assert ([s[0]] + Remove(s[1..], IsDot))[1..] == Remove(s[1..], IsDot);
    }
  }

  /** The steps up to the cut. */
  function DotlessTitle(title: string): string {
    StripDots(Strip(Collapse(Replace(Remove(title, IsControl), IsForbidden, Dash), IsSpace, ' ')))
  }

  /** Up to the cut, the letters are the title's own, with hyphens for the forbidden ones. */
  lemma DotlessLetters(title: string)
    ensures Letters(DotlessTitle(title)) == Replace(Letters(title), IsForbidden, Dash)
  {
    hide Ink, Remove, Replace, Collapse, Strip, StripDots;
    var visible := Remove(title, IsControl);
    var safe := Replace(visible, IsForbidden, Dash);
    var spaced := Collapse(safe, IsSpace, ' ');
    RemoveKeepsInk(title, IsControl);
    InkHyphens(visible);
    CollapseKeepsInk(safe, IsSpace);
    StripKeepsInk(spaced);
    StripDotsKeepsLetters(Strip(spaced));
    DotsHyphens(Ink(title));
  }

  lemma {:induction false} CollapseShortens(s: string)
    ensures |Collapse(s, IsSpace, ' ')| <= |s|
    decreases |s|
  {
    if s != "" {
      CollapseShortens(if IsSpace(s[0]) then s[1 + Span(s[1..], IsSpace)..] else s[1..]);
    }
  }

  lemma {:induction false} RemoveShortens(s: string, p: char -> bool)
    ensures |Remove(s, p)| <= |s|
  {
    if s != "" {
      RemoveShortens(s[1..], p);
    }
  }

  lemma DotlessIsShort(title: string)
    ensures |DotlessTitle(title)| <= |title|
  {
    hide Remove, Replace, Collapse, StripDots;
    var visible := Remove(title, IsControl);
    var safe := Replace(visible, IsForbidden, Dash);
    RemoveShortens(title, IsControl);
    ReplaceHyphens(visible);
    CollapseShortens(safe);
    StripDotsChars(Strip(Collapse(safe, IsSpace, ' ')));
  }

  /**
   * Of every title: the stem's letters are the title's letters in order, each forbidden one as a hyphen, and all of
   * them unless the title has more than 100 characters, when the end may be cut off.
   */
  lemma TitleKeepsLetters(title: string)
    ensures var wanted := Replace(Letters(title), IsForbidden, Dash);
      && Hyphened(Letters(title), wanted)
      && Letters(CleanTitle(title)) <= wanted
      && (|title| <= 100 ==> Letters(CleanTitle(title)) == wanted)
  {
    hide Letters, StripDots, Replace, DotlessTitle, Hyphened;
    ReplaceHyphens(Letters(title));
    CleanIsCut(title);
    DotlessLetters(title);
    DotlessIsShort(title);
    var dotless := DotlessTitle(title);
    var cut := if |dotless| > MAX_STEM_LENGTH then dotless[..MAX_STEM_LENGTH] else dotless;
    StripDotsKeepsLetters(cut);
    assert dotless == cut + dotless[|cut|..];
    LettersConcat(cut, dotless[|cut|..]);
  }

  lemma CleanIsCut(title: string)
    ensures var dotless := DotlessTitle(title);
      CleanTitle(title) == StripDots(if |dotless| > MAX_STEM_LENGTH then dotless[..MAX_STEM_LENGTH] else dotless)
  {
    hide Remove, Replace, Collapse, Strip, StripDots;
  }

  lemma FirstIsLetter(s: string)
    requires s != "" && !IsSpace(s[0]) && !IsControl(s[0]) && s[0] != '.'
    ensures Letters(s) != ""
  {
    hide IsSpace, IsControl;
  }

  /** A title is refused as empty exactly if it holds nothing but whitespace, control characters and dots. */
  lemma EmptyTitles(title: string)
    ensures SanitiseTitle(title) == Err(EmptyTitle) <==> Letters(title) == ""
  {
    hide Letters, CleanTitle, IsReserved, UpperAscii, Split, Tidy, DotlessTitle, Replace, StripDots, IsDotOrSpace;
    TitleKeepsLetters(title);
    if CleanTitle(title) != "" {
      StemsAreClean(title);
      TidyStartsWithLetter(CleanTitle(title));
    } else {
      CleanIsCut(title);
      DotlessLetters(title);
      DotlessStarts(title);
      var dotless := DotlessTitle(title);
      if dotless != "" {
        var cut := if |dotless| > MAX_STEM_LENGTH then dotless[..MAX_STEM_LENGTH] else dotless;
        KeepsFirst(cut);
      }
      NothingHasNoLetters();
      ReplaceHyphens(Letters(title));
    }
  }

  lemma DotlessStarts(title: string)
    ensures DotlessTitle(title) != "" ==> !IsDotOrSpace(DotlessTitle(title)[0])
  {
    hide Remove, Replace, Collapse, Strip, StripDots;
    StripDotsChars(Strip(Collapse(Replace(Remove(title, IsControl), IsForbidden, Dash), IsSpace, ' ')));
  }

  lemma {:induction false} KeepsFirst(s: string)
    requires s != "" && !IsDotOrSpace(s[0])
    ensures StripDots(s) != ""
  {
    hide IsDotOrSpace, StripDotsRight;
    SpanIs(s, IsDotOrSpace, 0);
    assert s[0..] == s;
    StripDotsRightEnds(s);
  }

  lemma TidyStartsWithLetter(s: string)
    requires Tidy(s)
    ensures Letters(s) != ""
  {
    hide Letters, IsSpace, IsControl;
    FirstIsLetter(s);
  }

  // ----- A stem is a clean name -----

  predicate SpacedAt(s: string, i: nat)
    requires i < |s|
  {
    IsSpace(s[i]) ==> s[i] == ' ' && (i + 1 < |s| ==> !IsSpace(s[i + 1]))
  }

  /** Single spaces only. */
  ghost predicate Spaced(s: string) {
    forall i :: 0 <= i < |s| ==> SpacedAt(s, i)
  }

  lemma {:induction false} CollapsedIsSpaced(s: string)
    ensures Spaced(Collapse(s, IsSpace, ' '))
    ensures s != "" && !IsSpace(s[0]) ==> Collapse(s, IsSpace, ' ') != "" && !IsSpace(Collapse(s, IsSpace, ' ')[0])
    decreases |s|
  {
    hide IsSpace;
    if s != "" {
      var behind := if IsSpace(s[0]) then s[1 + Span(s[1..], IsSpace)..] else s[1..];
      CollapsedIsSpaced(behind);
      var rest := Collapse(behind, IsSpace, ' ');
      var r := Collapse(s, IsSpace, ' ');
      assert r == [if IsSpace(s[0]) then ' ' else s[0]] + rest;
      forall i | 0 <= i < |r|
        ensures SpacedAt(r, i)
      {
        if i > 0 {
          assert SpacedAt(rest, i - 1);
        }
      }
    }
  }

  lemma SliceIsSpaced(s: string, from: nat, to: nat)
    requires Spaced(s) && from <= to <= |s|
    ensures Spaced(s[from..to])
  {
    hide IsSpace;
    forall i | 0 <= i < to - from
      ensures SpacedAt(s[from..to], i)
    {
      assert SpacedAt(s, from + i);
    }
  }

  lemma StripDotsSlice(s: string) returns (from: nat)
    ensures from + |StripDots(s)| <= |s| && StripDots(s) == s[from..from + |StripDots(s)|]
  {
    hide IsDotOrSpace;
    from := Span(s, IsDotOrSpace);
    assert StripDots(s) == s[from..][..|StripDots(s)|];
  }

  lemma StemIsSpaced(title: string)
    ensures Spaced(CleanTitle(title))
  {
    hide Remove, Replace, Collapse, Strip, StripDots, SpacedAt, Spaced, DotlessTitle;
    var spaced := Collapse(Replace(Remove(title, IsControl), IsForbidden, Dash), IsSpace, ' ');
    CollapsedIsSpaced(Replace(Remove(title, IsControl), IsForbidden, Dash));
    var a := StripSlice(spaced);
    SliceIsSpaced(spaced, a, a + |Strip(spaced)|);
    var b := StripDotsSlice(Strip(spaced));
    var dotless := StripDots(Strip(spaced));
    SliceIsSpaced(Strip(spaced), b, b + |dotless|);
    DotlessIs(title);
    CleanIsCut(title);
    var n := if |dotless| > MAX_STEM_LENGTH then MAX_STEM_LENGTH else |dotless|;
    SliceIsSpaced(dotless, 0, n);
    assert dotless[0..n] == if |dotless| > MAX_STEM_LENGTH then dotless[..MAX_STEM_LENGTH] else dotless;
    var c := StripDotsSlice(dotless[0..n]);
    SliceIsSpaced(dotless[0..n], c, c + |StripDots(dotless[0..n])|);
  }

  lemma DotlessIs(title: string)
    ensures DotlessTitle(title) == StripDots(Strip(Collapse(Replace(Remove(title, IsControl), IsForbidden, Dash), IsSpace, ' ')))
  {
    hide Remove, Replace, Collapse, Strip, StripDots;
  }

  /** Whatever the title, what is left of it is a clean name, so a second run changes nothing. */
  lemma StemsAreClean(title: string)
    requires CleanTitle(title) != ""
    ensures CleanName(CleanTitle(title))
  {
    hide CleanTitle, Spaced, IsControl, IsSpace, IsForbidden, NotInFiles;
    StemIsSpaced(title);
    CleanIsStem(title);
    StemIsTidy(CleanTitle(title));
  }

  lemma StemIsTidy(s: string)
    requires IsStem(s) && Spaced(s)
    ensures CleanName(s)
  {
    hide IsControl, IsForbidden, IsSpace, NotInFiles;
    SpaceIsSpace();
    assert SpacedAt(s, |s| - 1);
    forall i | 0 <= i < |s|
      ensures !NotInFiles(s[i]) && !IsControl(s[i])
    {
      assert s[i] in s;
      ForbiddenAre(s[i]);
    }
    forall i | 0 <= i < |s| && IsSpace(s[i])
      ensures s[i] == ' ' && i + 1 < |s| && !IsSpace(s[i + 1])
    {
      assert SpacedAt(s, i);
    }
  }

  /** Sanitising an accepted stem gives it back. */
  lemma SanitisingIsIdempotent(title: string)
    requires SanitiseTitle(title).Ok?
    ensures SanitiseTitle(SanitiseTitle(title).value) == SanitiseTitle(title)
  {
    hide CleanTitle, IsReserved, UpperAscii, Split, CleanName;
    StemsAreClean(title);
    CleanNameIsKept(CleanTitle(title));
  }

  // ----- Candidate names -----

  lemma {:induction false} DecimalStarts(n: nat)
    requires n > 0
    ensures Decimal(n)[0] != '0'
  {
    if n >= 10 {
      DecimalStarts(n / 10);
      assert Decimal(n)[0] == Decimal(n / 10)[0];
    }
  }

  /** `stem`, a hyphen, and the number `k` as people write it. */
  ghost predicate Numbered(name: string, stem: string, k: nat) {
    exists digits :: NumberedBy(name, stem, digits, k)
  }

  ghost predicate NumberedBy(name: string, stem: string, digits: string, k: nat) {
    && name == stem + "-" + digits + ".md" && DecimalValue(digits) == k
    && digits != "" && digits[0] != '0' && forall i :: 0 <= i < |digits| ==> '0' <= digits[i] <= '9'
  }

  /** The names a create tries: first the title's own, then the same with the numbers from 2 on behind it, in order. */
  lemma CandidatesInOrder(stem: string, n: nat)
    ensures n > 0 ==> Candidates(stem, n)[0] == stem + ".md"
    ensures forall i :: 1 <= i < n ==> Numbered(Candidates(stem, n)[i], stem, i + 1)
  {
    hide Candidates, Decimal, DecimalValue;
    if n > 0 {
      CandidateAt(stem, n, 0);
    }
    forall i | 1 <= i < n
      ensures Numbered(Candidates(stem, n)[i], stem, i + 1)
    {
      CandidateAt(stem, n, i);
      DecimalRoundTrip(i + 1);
      DecimalStarts(i + 1);
      var digits := Decimal(i + 1);
      Regroup(stem, "-", digits);
      assert NumberedBy(Candidates(stem, n)[i], stem, digits, i + 1);
    }
  }
}
