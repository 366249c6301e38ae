/** What counts as evidence of a duplicate, and how much of it gives which confidence, said word by word. */
module DuplicateEvidence {
  import opened Text
  import opened Escape
  import opened Ordering
  import opened TabRuns
  import opened SearchRanking
  import opened Duplicates
  import opened FileNames

  // ----- Words -----

  predicate NotSpace(c: char) {
    !IsSpace(c)
  }

  /** The maximal runs of characters that are no whitespace, in order. */
  function Words(s: string): seq<string>
    decreases |s|
  {
    if s == "" then []
    else if IsSpace(s[0]) then Words(s[1..])
    else
      var n := 1 + Span(s[1..], NotSpace);
      [s[..n]] + Words(s[n..])
  }

  predicate IsWord(w: string) {
    w != "" && forall i :: 0 <= i < |w| ==> !IsSpace(w[i])
  }

  lemma {:induction false} WordsAreWords(s: string, k: nat)
    requires k < |Words(s)|
    ensures IsWord(Words(s)[k])
    decreases |s|
  {
    hide IsSpace;
    if IsSpace(s[0]) {
      WordsAreWords(s[1..], k);
    } else {
      var n := 1 + Span(s[1..], NotSpace);
      if k == 0 {
        FirstWord(s);
      } else {
        WordsAreWords(s[n..], k - 1);
      }
    }
  }

  lemma FirstWord(s: string)
    requires s != "" && !IsSpace(s[0])
    ensures var n := 1 + Span(s[1..], NotSpace); n <= |s| && IsWord(s[..n]) && (n < |s| ==> IsSpace(s[n]))
  {
    hide IsSpace;
    var n := 1 + Span(s[1..], NotSpace);
    forall i | 0 <= i < n
      ensures !IsSpace(s[..n][i])
    {
      if i > 0 {
        SpanAt(s[1..], NotSpace, i - 1);
      }
    }
  }

  lemma {:induction false} SpacesHoldNoWord(s: string, n: nat)
    requires n <= |s| && forall i :: 0 <= i < n ==> IsSpace(s[i])
    ensures Words(s) == Words(s[n..])
  {
    hide IsSpace;
    if n == 0 {
      assert s[0..] == s;
    } else {
      SpacesHoldNoWord(s[1..], n - 1);
      assert s[1..][n - 1..] == s[n..];
    }
  }

  lemma {:induction false} JoinedWordsAreTrimmed(words: seq<string>)
    requires forall k :: 0 <= k < |words| ==> IsWord(words[k])
    ensures Trimmed(Join(words, " ")) && (words != [] ==> Join(words, " ") != "" && !IsSpace(Join(words, " ")[0]))
  {
    hide IsSpace;
    if |words| > 1 {
      JoinedWordsAreTrimmed(words[1..]);
      var rest := Join(words[1..], " ");
      var all := Join(words, " ");
      assert IsWord(words[0]) && all[0] == words[0][0] && all[|all| - 1] == rest[|rest| - 1];
    } else if words != [] {
      assert IsWord(words[0]);
    }
  }

  /** Collapsing whitespace leaves the words, one space apart, between whitespace. */
  lemma {:induction false} CollapsedWords(s: string) returns (a: string, b: string)
    ensures Spaces(a) && Spaces(b) && Collapse(s, IsSpace, ' ') == a + Join(Words(s), " ") + b
    ensures s == "" || !IsSpace(s[0]) ==> a == ""
    decreases |s|
  {
    hide IsSpace, Collapse, Words;
    if s == "" {
      a, b := "", "";
      NothingCollapses();
    } else if IsSpace(s[0]) {
      var n := 1 + Span(s[1..], IsSpace);
      var a', b' := CollapsedWords(s[n..]);
      LeadingRun(s);
      CollapsesRun(s);
      a, b := " " + a', b';
      SpaceIsSpaces();
      assert " " + (a' + Join(Words(s[n..]), " ") + b') == " " + a' + Join(Words(s[n..]), " ") + b';
    } else {
      b := CollapsedFromWord(s);
      a := "";
      assert "" + Join(Words(s), " ") + b == Join(Words(s), " ") + b;
    }
  }

  lemma NothingCollapses()
    ensures Collapse("", IsSpace, ' ') == "" && Words("") == []
  {
  }

  lemma SpaceIsSpaces()
    ensures Spaces(" ") && Spaces("") && IsSpace(' ')
  {
  }

  lemma LeadingRun(s: string)
    requires s != "" && IsSpace(s[0])
    ensures var n := 1 + Span(s[1..], IsSpace);
      n <= |s| && Words(s) == Words(s[n..]) && (n < |s| ==> !IsSpace(s[n]))
  {
    hide IsSpace;
    var n := 1 + Span(s[1..], IsSpace);
    forall i | 0 <= i < n
      ensures IsSpace(s[i])
    {
      if i > 0 {
        SpanAt(s[1..], IsSpace, i - 1);
      }
    }
    SpacesHoldNoWord(s, n);
  }

  lemma CollapsesRun(s: string)
    requires s != "" && IsSpace(s[0])
    ensures Collapse(s, IsSpace, ' ') == " " + Collapse(s[1 + Span(s[1..], IsSpace)..], IsSpace, ' ')
  {
    hide IsSpace;
  }

  lemma WordsFromWord(s: string)
    requires s != "" && !IsSpace(s[0])
    ensures var n := 1 + Span(s[1..], NotSpace); Words(s) == [s[..n]] + Words(s[n..])
  {
    hide IsSpace;
  }

  lemma WordIsIdle(w: string, rest: string)
    requires IsWord(w)
    ensures Collapse(w + rest, IsSpace, ' ') == w + Collapse(rest, IsSpace, ' ')
  {
    hide IsSpace, Collapse;
    CollapseConcat(w, rest, IsSpace, ' ');
    CollapseIdle(w, IsSpace, ' ');
  }

  /** The first word, the gap behind it, and what follows, up to the next word. */
  lemma WordAndMore(s: string) returns (w: string, gap: string, more: string)
    requires s != "" && !IsSpace(s[0])
    ensures |more| < |s| && (gap == "" || gap == " ") && (more != "" ==> gap == " " && !IsSpace(more[0]))
    ensures Words(s) == [w] + Words(more) && Collapse(s, IsSpace, ' ') == w + (gap + Collapse(more, IsSpace, ' '))
  {
    hide IsSpace, Collapse, Words;
    var n := 1 + Span(s[1..], NotSpace);
    w := s[..n];
    var rest := s[n..];
    FirstWord(s);
    WordsFromWord(s);
    assert s == w + rest;
    WordIsIdle(w, rest);
    if rest == "" {
      gap, more := "", "";
      assert "" + Collapse("", IsSpace, ' ') == Collapse("", IsSpace, ' ');
    } else {
      gap, more := " ", rest[1 + Span(rest[1..], IsSpace)..];
      LeadingRun(rest);
      CollapsesRun(rest);
    }
  }

  lemma {:induction false} CollapsedFromWord(s: string) returns (b: string)
    requires s != "" && !IsSpace(s[0])
    ensures Spaces(b) && Collapse(s, IsSpace, ' ') == Join(Words(s), " ") + b
    decreases |s|, 0
  {
    hide IsSpace, Collapse, Words, Spaces, Join;
    var w, gap, more := WordAndMore(s);
    SpaceIsSpaces();
    if more == "" {
      NothingCollapses();
      b := gap;
      OneWord(w);
      assert gap + "" == gap && [w] + [] == [w];
    } else {
      b := CollapsedFromWord(more);
      SomeWord(more);
      JoinBehindWord(w, Words(more));
      Regroup(" ", Join(Words(more), " "), b);
      Regroup(w, " " + Join(Words(more), " "), b);
      Regroup(w, " ", Join(Words(more), " "));
    }
  }

  lemma OneWord(w: string)
    ensures Join([w], " ") == w
  {
  }

  lemma SomeWord(s: string)
    requires s != "" && !IsSpace(s[0])
    ensures Words(s) != []
  {
    hide IsSpace;
  }

  lemma JoinBehindWord(w: string, words: seq<string>)
    requires words != []
    ensures Join([w] + words, " ") == w + " " + Join(words, " ")
  {
    assert ([w] + words)[1..] == words;
  }

  /** The key of a text is its words, one space apart. */
  lemma KeyIsWords(s: string)
    ensures CollapseWhitespace(s) == Join(Words(s), " ")
  {
    hide IsSpace, Collapse, Words, Strip;
    var a, b := CollapsedWords(s);
    forall k | 0 <= k < |Words(s)|
      ensures IsWord(Words(s)[k])
    {
      WordsAreWords(s, k);
    }
    JoinedWordsAreTrimmed(Words(s));
    StripMiddle(a, Join(Words(s), " "), b);
  }

  lemma WordsSplit(s: string)
    ensures Words(s) == [] ==> Join(Words(s), " ") == ""
    ensures Words(s) != [] ==> Join(Words(s), " ") != "" && Split(Join(Words(s), " "), ' ') == Words(s)
  {
    hide IsSpace, Words, Split;
    if Words(s) != [] {
      forall k | 0 <= k < |Words(s)|
        ensures IsWord(Words(s)[k]) && ' ' !in Words(s)[k]
      {
        WordsAreWords(s, k);
        SpaceIsSpaces();
      }
      JoinedWordsAreTrimmed(Words(s));
      assert [' '] == " ";
      SplitJoin(Words(s), ' ');
    }
  }

  /** Two texts have one key exactly if they have the same words. */
  lemma KeysAreWords(s: string, t: string)
    ensures CollapseWhitespace(s) == CollapseWhitespace(t) <==> Words(s) == Words(t)
    ensures CollapseWhitespace(s) == "" <==> Words(s) == []
  {
    hide CollapseWhitespace, Words, Split;
    KeyIsWords(s);
    KeyIsWords(t);
    WordsSplit(s);
    WordsSplit(t);
  }

  // ----- The title -----

  /** The same words, case and width aside. */
  predicate SameWords(u: Unicode, a: string, b: string) {
    Words(u.fold(a)) == Words(u.fold(b))
  }

  /** The note's frontmatter has a title that is not blank. */
  predicate HasTitle(note: Found)
    requires note.Readable?
  {
    note.title.Some? && Strip(note.title.value) != ""
  }

  predicate LooselyMatches(u: Unicode, title: string, note: Found, shown: string)
    requires note.Readable?
  {
    SameWords(u, shown, title) || (!HasTitle(note) && SameWords(u, StripSequenceSuffix(note.stem), title))
  }

  /**
   * A note matches the title exactly if its own title prints as the same line. It matches loosely if its title, or
   * without one its file name with or without the number a repeated name gets, has the same words.
   */
  lemma TitleMatches(u: Unicode, title: string, note: Found)
    requires note.Readable?
    ensures var shown := if HasTitle(note) then Strip(note.title.value) else note.stem;
      var exact := HasTitle(note) && OneLine(shown) == OneLine(title);
      && (TitleSignal(u, title, note).ExactTitle? <==> exact)
      && (TitleSignal(u, title, note).NormalizedTitle? <==> (!exact && LooselyMatches(u, title, note, shown)))
  {
    hide OneLine, Strip, Words, StripSequenceSuffix, CollapseWhitespace;
    var shown := if HasTitle(note) then Strip(note.title.value) else note.stem;
    KeysAreWords(u.fold(shown), u.fold(title));
    KeysAreWords(u.fold(StripSequenceSuffix(note.stem)), u.fold(title));
  }

  lemma {:induction false} DigitsEnd(s: string, n: nat)
    requires n <= |s| && (forall i :: |s| - n <= i < |s| ==> IsDigit(s[i])) && (n < |s| ==> !IsDigit(s[|s| - n - 1]))
    ensures DigitsAtEnd(s) == n
  {
    hide IsDigit;
    if n > 0 {
      var shorter := s[..|s| - 1];
      assert forall i :: 0 <= i < |shorter| ==> shorter[i] == s[i];
      DigitsEnd(shorter, n - 1);
    }
  }

  lemma NoDigits()
    ensures !IsDigit('-') && !IsDigit('\n')
  {
  }

  /** A hyphen and digits at the end are taken off, and nothing else is. */
  lemma SuffixIsTaken(base: string, digits: string)
    requires digits != "" && forall i :: 0 <= i < |digits| ==> IsDigit(digits[i])
    ensures StripSequenceSuffix(base + "-" + digits) == base
  {
    hide IsDigit;
    var s := base + "-" + digits;
    NoDigits();
    assert forall i :: |base| + 1 <= i < |s| ==> s[i] == digits[i - |base| - 1];
    DigitsEnd(s, |digits|);
    assert s[|s| - 1] == digits[|digits| - 1];
    assert s[..|base|] == base;
  }

  /** A note created for a stem is recognised by that stem, whichever number its file name got. */
  lemma CreatedNoteMatches(u: Unicode, stem: string, sequence: nat, note: Found)
    requires sequence >= 1 && note.Readable? && note.title.None?
    requires note.stem + ".md" == NoteFileName(stem, sequence)
    ensures TitleSignal(u, stem, note) == NormalizedTitle
  {
    hide OneLine, Strip, Words, StripSequenceSuffix, Decimal, IsDigit, TitleSignal;
    TitleMatches(u, stem, note);
    var end := if sequence <= 1 then "" else "-" + Decimal(sequence);
    assert note.stem == stem + end by {
      assert (note.stem + ".md")[..|note.stem + ".md"| - 3] == note.stem;
      assert (stem + end + ".md")[..|stem + end + ".md"| - 3] == stem + end;
    }
    if sequence > 1 {
      DecimalRoundTrip(sequence);
      AsciiAreDigits(Decimal(sequence));
      SuffixIsTaken(stem, Decimal(sequence));
      assert stem + "-" + Decimal(sequence) == note.stem;
    } else {
      assert note.stem == stem;
    }
  }

  lemma AsciiAreDigits(s: string)
    requires forall i :: 0 <= i < |s| ==> IsAsciiDigit(s[i])
    ensures forall i :: 0 <= i < |s| ==> IsDigit(s[i])
  {
  }

  // ----- Project and keywords -----

  /** Two projects match exactly if both are named, with the same words. */
  lemma ProjectsMatch(u: Unicode, a: Option<string>, b: Option<string>)
    ensures ProjectKey(u, a).Some? && ProjectKey(u, b) == ProjectKey(u, a) <==>
      a.Some? && b.Some? && Words(u.fold(a.value)) != [] && SameWords(u, a.value, b.value)
  {
    hide CollapseWhitespace, Words;
    if a.Some? && b.Some? {
      KeysAreWords(u.fold(a.value), u.fold(b.value));
      KeysAreWords(u.fold(b.value), u.fold(a.value));
    }
  }

  ghost predicate InSomeTag(u: Unicode, tags: seq<string>, keyword: string) {
    exists i :: 0 <= i < |tags| && Occurs(u.fold(tags[i]), u.fold(keyword))
  }

  lemma {:induction false} TagsHold(u: Unicode, tags: seq<string>, keyword: string)
    ensures Duplicates.AnyContains(u, tags, u.fold(keyword)) <==> InSomeTag(u, tags, keyword)
  {
    hide Contains, Occurs;
    if tags != [] {
      ContainsIsOccurs(u.fold(tags[0]), u.fold(keyword));
      TagsHold(u, tags[1..], keyword);
      if InSomeTag(u, tags[1..], keyword) {
        var i :| 0 <= i < |tags[1..]| && Occurs(u.fold(tags[1..][i]), u.fold(keyword));
        assert Occurs(u.fold(tags[i + 1]), u.fold(keyword));
      }
      if InSomeTag(u, tags, keyword) {
        var i :| 0 <= i < |tags| && Occurs(u.fold(tags[i]), u.fold(keyword));
        assert i > 0 ==> Occurs(u.fold(tags[1..][i - 1]), u.fold(keyword));
      }
    }
  }

  /** The keywords counted are those that occur in the title or in a tag, case and width aside. */
  lemma {:induction false} KeywordsOccur(u: Unicode, keywords: seq<string>, title: string, tags: seq<string>, keyword: string)
    ensures keyword in Matched(u, keywords, title, tags) <==>
      keyword in keywords && (Occurs(u.fold(title), u.fold(keyword)) || InSomeTag(u, tags, keyword))
    ensures |Matched(u, keywords, title, tags)| <= |keywords|
  {
    hide Contains, Occurs, InSomeTag;
    if keywords != [] {
      KeywordsOccur(u, keywords[1..], title, tags, keyword);
      ContainsIsOccurs(u.fold(title), u.fold(keywords[0]));
      TagsHold(u, tags, keywords[0]);
      assert keyword in keywords <==> keyword == keywords[0] || keyword in keywords[1..];
    }
  }

  // ----- The decision -----

  /**
   * High: the exact title, or the loose one in the same project. Medium: the loose title alone, or without any title
   * match the project and two keywords. Low: two keywords that are at least half of all, and nothing else. Less is
   * no candidate.
   */
  lemma EvidenceDecides(title: Signal, project: bool, matched: nat, total: nat)
    requires matched <= total
    ensures var r := Decide(title, project, matched, total);
      && (r == Some(High) <==> title == ExactTitle || (title == NormalizedTitle && project))
      && (r == Some(Medium) <==> (title == NormalizedTitle && !project) || (title == NoTitle && project && matched >= 2))
      && (r == Some(Low) <==> title == NoTitle && !project && matched >= 2 && 2 * matched >= total)
  {
  }

  /** More confidence comes first, whatever the scores are. */
  lemma ConfidenceFirst(a: Candidate, b: Candidate)
    ensures a.confidence == High && b.confidence != High ==> CandidateLess(a, b)
    ensures a.confidence == Medium && b.confidence == Low ==> CandidateLess(a, b)
    ensures a.confidence == b.confidence ==> (CandidateLess(a, b) <==>
      || a.score > b.score
      || (a.score == b.score && (a.mtime > b.mtime || (a.mtime == b.mtime && InFront(a.path, b.path)))))
  {
    hide TextLess, InFront;
    TextLessIsInFront(a.path, b.path);
  }

  /** Counted in keywords, an exact title is worth twenty, a loose one fifteen, the project five. */
  lemma ScoreInKeywords(u: Unicode, input: Input, keywords: seq<string>, note: Found)
    requires note.Readable? && CandidateOf(u, input, keywords, note).Some?
    ensures var c := CandidateOf(u, input, keywords, note).value;
      c.score == 20 * (20 * Tell(c.signal.ExactTitle?) + 15 * Tell(c.signal.NormalizedTitle?) + 5 * Tell(c.projectMatch) + |c.matched|)
  {
    hide TitleSignal, ProjectKey, Matched, Decide, Strip;
  }

  // ----- The candidate -----

  /** The title a note is shown under. */
  function ShownTitle(note: Found): string
    requires note.Readable?
  {
    if HasTitle(note) then Strip(note.title.value) else note.stem
  }

  /** A candidate is the note it stands for, with the evidence that note gives. */
  ghost predicate IsEvidence(u: Unicode, input: Input, keywords: seq<string>, note: Found, c: Candidate)
    requires note.Readable?
  {
    var exact := HasTitle(note) && OneLine(ShownTitle(note)) == OneLine(input.title);
    && c.path == note.path && c.title == ShownTitle(note) && c.project == note.project && c.tags == note.tags && c.mtime == note.mtime
    && (c.signal.ExactTitle? <==> exact)
    && (c.signal.NormalizedTitle? <==> (!exact && LooselyMatches(u, input.title, note, ShownTitle(note))))
    && (c.projectMatch <==> SameProject(u, input.project, note.project))
    && (forall keyword :: keyword in c.matched <==> IsMatched(u, keywords, note, keyword))
    && Decide(c.signal, c.projectMatch, |c.matched|, |keywords|) == Some(c.confidence)
  }

  predicate SameProject(u: Unicode, a: Option<string>, b: Option<string>) {
    a.Some? && b.Some? && Words(u.fold(a.value)) != [] && SameWords(u, a.value, b.value)
  }

  ghost predicate IsMatched(u: Unicode, keywords: seq<string>, note: Found, keyword: string)
    requires note.Readable?
  {
    keyword in keywords && (Occurs(u.fold(ShownTitle(note)), u.fold(keyword)) || InSomeTag(u, note.tags, keyword))
  }

  lemma ProjectSeen(u: Unicode, input: Input, note: Found)
    requires note.Readable?
    ensures ProjectKey(u, input.project).Some? && ProjectKey(u, note.project) == ProjectKey(u, input.project)
       <==> SameProject(u, input.project, note.project)
  {
    hide ProjectKey, Words, SameWords;
    ProjectsMatch(u, input.project, note.project);
  }

  /** Every candidate shows the note it is, with exactly the evidence for it. */
  lemma CandidateShows(u: Unicode, input: Input, keywords: seq<string>, note: Found)
    requires note.Readable? && CandidateOf(u, input, keywords, note).Some?
    ensures IsEvidence(u, input, keywords, note, CandidateOf(u, input, keywords, note).value)
  {
    hide TitleSignal, ProjectKey, Matched, Decide, Strip, OneLine, LooselyMatches, Words, SameWords, Occurs, InSomeTag;
    TitleMatches(u, input.title, note);
    ProjectSeen(u, input, note);
    var c := CandidateOf(u, input, keywords, note).value;
    forall keyword
      ensures keyword in c.matched <==> IsMatched(u, keywords, note, keyword)
    {
      KeywordsOccur(u, keywords, ShownTitle(note), note.tags, keyword);
    }
  }

  /** A note is left out exactly if its evidence decides for nothing. */
  lemma LeftOut(u: Unicode, input: Input, keywords: seq<string>, note: Found)
    requires note.Readable?
    ensures CandidateOf(u, input, keywords, note).None? <==>
      Decide(
        TitleSignal(u, input.title, note),
        ProjectKey(u, input.project).Some? && ProjectKey(u, note.project) == ProjectKey(u, input.project),
        |Matched(u, keywords, ShownTitle(note), note.tags)|, |keywords|).None?
  {
    hide TitleSignal, ProjectKey, Matched, Decide, Strip;
  }
}
