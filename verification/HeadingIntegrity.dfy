/** Heading integrity: the only headings of a note are the ones the Gateway writes. */
module HeadingIntegrity {
  import opened Text
  import opened Escape
  import opened Blocks
  import opened FlatLines
  import opened Containers
  import opened Headings
  import opened Neutral
  import opened Note
  import Fence
  import G = Grouping
  import N = Normalised
  import S = Steps

  // ----- The headings a note must have -----

  function TopicHeadings(topics: seq<(string, seq<BodyItem>)>): seq<seq<string>> {
    if topics == [] then [] else [["### " + topics[0].0]] + TopicHeadings(topics[1..])
  }

  function SectionHeadings(field: Field, n: NormalExport): seq<string> {
    ["## " + HeadingOf(field)] + (if field == Topics then Concat(TopicHeadings(n.topics)) else [])
  }

  function SectionsHeadings(fields: seq<Field>, n: NormalExport): seq<seq<string>> {
    if fields == [] then [] else [SectionHeadings(fields[0], n)] + SectionsHeadings(fields[1..], n)
  }

  /** Title, common sections, the mode's sections, the code section if there is code, and the closing sections. */
  function ExpectedHeadings(n: NormalExport, title: string): seq<seq<string>> {
    [["# " + OneLine(title)]]
    + SectionsHeadings([Tldr, Decisions] + ModeSections(n.mode), n)
    + (if n.codeBlocks != [] then [["## " + CODE_HEADING]] else [])
    + SectionsHeadings([UnresolvedIssues, NextActions], n)
    + [["## " + RELATED_HEADING]]
    + SectionsHeadings([Sources], n)
  }

  // ----- Pieces -----

  lemma HashLineContributes(hashes: string, text: string)
    requires hashes == "# " || hashes == "## " || hashes == "### "
    requires FlatLine(text)
    ensures Contributes(hashes + text, [hashes + text])
  {
    var line := hashes + text;
    SpanIs(line, IsHash, |hashes| - 1);
    SpanIs(line, IsTilde, 0);
    SpanIs(line, Fence.IsTick, 0);
    PlainCore(line);
    HeadingContributes(line);
  }

  lemma SectionContributes(hashes: string, heading: string, body: string, inner: seq<string>)
    requires hashes == "## " || hashes == "### "
    requires FlatLine(heading) && Contributes(body, inner)
    ensures Contributes(hashes + heading + "\n\n" + body, [hashes + heading] + inner)
  {
    hide Contributes;
    HashLineContributes(hashes, heading);
    ContributeApart(hashes + heading, [hashes + heading], body, inner);
  }

  lemma HeadingIsFlat(field: Field)
    ensures FlatLine(HeadingOf(field))
  {
  }

  lemma PlaceholderIsNeutral(field: Field)
    ensures IsNeutral(PlaceholderFor(field))
  {
    hide SafeLine, Contributes;
    PlainStartIsSafe(PlaceholderFor(field));
    SafeTextContributes(PlaceholderFor(field));
  }

  lemma {:induction false} SentencesAreFlat(items: seq<string>, done: string)
    requires ValidTexts(items) && FlatLine(done)
    ensures FlatLine(JoinSentences(items, done))
  {
    hide IsLine;
    if items != [] {
      LineIsFlat(items[0]);
      var gap := if done != "" && done[|done| - 1] !in "。！？」）" then " " else "";
      SentencesAreFlat(items[1..], done + gap + items[0]);
    }
  }

  lemma SentencesStartVisibly(items: seq<string>)
    requires ValidTexts(items) && items != []
    ensures JoinSentences(items, "") != "" && !IsBlank(JoinSentences(items, "")[0])
  {
    hide IsLine;
    TextStartsVisibly(items[0]);
    assert "" + "" + items[0] == items[0];
    SentencesKeepStart(items[1..], items[0]);
  }

  lemma {:induction false} SentencesKeepStart(items: seq<string>, done: string)
    requires done != ""
    ensures JoinSentences(items, done) != "" && JoinSentences(items, done)[0] == done[0]
  {
    if items != [] {
      var gap := if done != "" && done[|done| - 1] !in "。！？」）" then " " else "";
      SentencesKeepStart(items[1..], done + gap + items[0]);
    }
  }

  lemma {:induction false} TimelineIsNeutral(entries: seq<(Option<string>, string)>)
    requires ValidTimeline(entries)
    ensures AllNeutral(TimelineLines(entries))
  {
    hide IsLine, EscapeBlockStart, Contributes;
    if entries != [] {
      TimelineIsNeutral(entries[1..]);
      var (when, event) := entries[0];
      TextStartsVisibly(event);
      LineIsFlat(event);
      if when.Some? {
        TextStartsVisibly(when.value);
        LineIsFlat(when.value);
        DashedIsNeutral(when.value + ": " + event);
      } else {
        DashedIsNeutral(event);
      }
    }
  }

  lemma {:induction false} DefinitionsAreNeutral(definitions: seq<(string, string)>)
    requires ValidDefinitions(definitions)
    ensures AllNeutral(DefinitionLines(definitions))
  {
    hide IsLine, EscapeBlockStart, Contributes;
    if definitions != [] {
      DefinitionsAreNeutral(definitions[1..]);
      var (term, description) := definitions[0];
      TextStartsVisibly(term);
      LineIsFlat(term);
      LineIsFlat(description);
      DashedIsNeutral(term + ": " + description);
    }
  }

  lemma {:induction false} CodesAreNeutral(codes: seq<Code>)
    requires ValidCodes(codes)
    ensures AllNeutral(CodeTexts(codes))
  {
    hide ValidCode, Contributes, G.TopLevelCode;
    if codes != [] {
      CodeIsNeutral(codes[0]);
      CodesAreNeutral(codes[1..]);
    }
  }

  lemma {:induction false} TopicsContribute(topics: seq<(string, seq<BodyItem>)>)
    requires ValidTopics(topics)
    ensures AllContribute(TopicTexts(topics), TopicHeadings(topics))
  {
    hide IsLine, Contributes, N.ValidItems, G.BodyText;
    if topics != [] {
      TopicsContribute(topics[1..]);
      var (heading, points) := topics[0];
      LineIsFlat(heading);
      if points != [] {
        BodyIsNeutral(points);
        SectionContributes("### ", heading, G.BodyText(points), []);
      } else {
        PlaceholderIsNeutral(Topics);
        SectionContributes("### ", heading, "未記録", []);
      }
      assert ["### " + heading] + [] == ["### " + heading];
    }
  }

  lemma {:induction false} RelatedAreNeutral(paths: seq<string>)
    ensures AllNeutral(RelatedLines(paths))
  {
    hide Contributes, IsRenderableTarget;
    if paths != [] {
      RelatedAreNeutral(paths[1..]);
      var rest := RelatedLines(paths[1..]);
      assert [] + rest == rest;
      if IsRenderableTarget(paths[0]) {
        LinkIsNeutral(paths[0]);
        var line := "- [[" + paths[0][..|paths[0]| - 3] + "]]";
        assert ([line] + rest)[1..] == rest;
      }
    }
  }

  lemma LinkIsNeutral(path: string)
    requires IsRenderableTarget(path)
    ensures |path| >= 3 && IsNeutral("- [[" + path[..|path| - 3] + "]]")
  {
    hide SafeLine, Contributes;
    var rest := "[[" + path[..|path| - 3] + "]]";
    assert IsLineBreak('\n') && IsLineBreak('\r');
    assert "- " + rest == "- [[" + path[..|path| - 3] + "]]";
    BracketIsSafe(rest);
    BulletIsSafe(rest);
    SafeTextContributes("- " + rest);
  }

  lemma RelatedContributes(paths: seq<string>)
    ensures Contributes(RelatedSection(paths), ["## " + RELATED_HEADING])
  {
    hide Contributes, RelatedLines;
    RelatedAreNeutral(paths);
    PlaceholderIsNeutral(Decisions);
    var lines := RelatedLines(paths);
    if lines != [] {
      NeutralJoin(lines, false);
    }
    SectionContributes("## ", RELATED_HEADING, if lines == [] then "なし" else Join(lines, "\n"), []);
    assert ["## " + RELATED_HEADING] + [] == ["## " + RELATED_HEADING];
  }

  lemma CodeSectionContributes(codes: seq<Code>)
    requires ValidCodes(codes) && codes != []
    ensures Contributes(Section(CODE_HEADING, Join(CodeTexts(codes), "\n\n")), ["## " + CODE_HEADING])
  {
    hide Contributes, ValidCodes, G.TopLevelCode;
    CodesAreNeutral(codes);
    NeutralJoin(CodeTexts(codes), true);
    SectionContributes("## ", CODE_HEADING, Join(CodeTexts(codes), "\n\n"), []);
    assert ["## " + CODE_HEADING] + [] == ["## " + CODE_HEADING];
  }

  lemma BodyContributes(field: Field, n: NormalExport)
    requires ValidExport(n) && field != Topics
    ensures IsNeutral(BodyFor(field, n))
  {
    hide Contributes, ValidTexts, ValidCodes, ValidTimeline, ValidTopics, S.ValidSteps, ValidDefinitions, EscapeBlockStart,
      JoinSentences, TimelineLines, DefinitionLines, S.StepsText, G.BodyText, N.ValidItems, TopicTexts;
    if FieldLength(n, field) == 0 {
      PlaceholderIsNeutral(field);
    } else {
      match field
      case Tldr =>
        EmptyIsFlat();
        SentencesAreFlat(n.tldr, "");
        SentencesStartVisibly(n.tldr);
        EscapedIsNeutral(JoinSentences(n.tldr, ""));
      case StepList => StepsAreNeutral(n.steps);
      case Timeline =>
        TimelineIsNeutral(n.timeline);
        LinesExist(n);
        NeutralJoin(TimelineLines(n.timeline), false);
      case Definitions =>
        DefinitionsAreNeutral(n.definitions);
        LinesExist(n);
        NeutralJoin(DefinitionLines(n.definitions), false);
      case Topics =>
      case _ => BodyIsNeutral(n.bodies[field]);
    }
  }

  lemma LinesExist(n: NormalExport)
    ensures n.timeline != [] ==> TimelineLines(n.timeline) != []
    ensures n.definitions != [] ==> DefinitionLines(n.definitions) != []
    ensures n.topics != [] ==> TopicTexts(n.topics) != []
  {
  }

  lemma TopicBodyContributes(n: NormalExport)
    requires ValidTopics(n.topics) && S.ValidSteps(n.steps)
    ensures Contributes(BodyFor(Topics, n), Concat(TopicHeadings(n.topics)))
  {
    hide Contributes, ValidTopics, TopicTexts, S.ValidSteps;
    if n.topics == [] {
      PlaceholderIsNeutral(Topics);
    } else {
      TopicsContribute(n.topics);
      LinesExist(n);
      JoinedContribute(TopicTexts(n.topics), TopicHeadings(n.topics), true);
    }
  }

  lemma FieldContributes(field: Field, n: NormalExport)
    requires ValidExport(n)
    ensures Contributes(FieldSection(field, n), SectionHeadings(field, n))
  {
    hide Contributes, BodyFor, HeadingOf, Concat;
    HeadingIsFlat(field);
    if field == Topics {
      TopicBodyContributes(n);
      SectionContributes("## ", HeadingOf(field), BodyFor(field, n), Concat(TopicHeadings(n.topics)));
    } else {
      BodyContributes(field, n);
      SectionContributes("## ", HeadingOf(field), BodyFor(field, n), []);
    }
  }

  lemma {:induction false} FieldsContribute(fields: seq<Field>, n: NormalExport)
    requires ValidExport(n)
    ensures AllContribute(FieldSections(fields, n), SectionsHeadings(fields, n))
  {
    hide Contributes, ValidExport, FieldSection, SectionHeadings;
    assert S.ValidSteps(n.steps) by { StepsOfValid(n); }
    if fields != [] {
      FieldContributes(fields[0], n);
      FieldsContribute(fields[1..], n);
    }
  }

  lemma StepsOfValid(n: NormalExport)
    requires ValidExport(n)
    ensures S.ValidSteps(n.steps) && ValidCodes(n.codeBlocks)
  {
  }

  lemma {:induction false} ContributeTogether(a: seq<string>, x: seq<seq<string>>, b: seq<string>, y: seq<seq<string>>)
    requires AllContribute(a, x) && AllContribute(b, y)
    ensures AllContribute(a + b, x + y)
  {
    hide Contributes;
    if a == [] {
      assert a + b == b && x + y == y;
    } else {
      ContributeTogether(a[1..], x[1..], b, y);
      assert (a + b)[1..] == a[1..] + b && (x + y)[1..] == x[1..] + y;
    }
  }

  lemma OneContributes(text: string, headings: seq<string>)
    requires Contributes(text, headings)
    ensures AllContribute([text], [headings])
  {
    hide Contributes;
    assert [text][1..] == [] && [headings][1..] == [];
  }

  lemma SupplementaryContributes(codes: seq<Code>)
    requires ValidCodes(codes)
    ensures AllContribute(SupplementarySections(codes), if codes != [] then [["## " + CODE_HEADING]] else [])
  {
    hide Contributes, ValidCodes, Section;
    if codes != [] {
      CodeSectionContributes(codes);
      OneContributes(SupplementarySections(codes)[0], ["## " + CODE_HEADING]);
    }
  }

  lemma BlocksContribute(n: NormalExport, title: string, related: seq<string>)
    requires ValidExport(n) && S.ValidSteps(n.steps)
    ensures AllContribute(ContentBlocks(n, title, related), ExpectedHeadings(n, title))
  {
    hide Contributes, AllContribute, ValidExport, FieldSections, SectionsHeadings, SupplementarySections, RelatedSection, OneLine,
      IsLine, S.ValidSteps, ModeSections;
    OneLineIsLine(title);
    LineIsFlat(OneLine(title));
    HashLineContributes("# ", OneLine(title));
    OneContributes("# " + OneLine(title), ["# " + OneLine(title)]);
    StepsOfValid(n);
    SupplementaryContributes(n.codeBlocks);
    RelatedContributes(related);
    OneContributes(RelatedSection(related), ["## " + RELATED_HEADING]);
    var head, tail := [Tldr, Decisions] + ModeSections(n.mode), [UnresolvedIssues, NextActions];
    FieldsContribute(head, n);
    FieldsContribute(tail, n);
    FieldsContribute([Sources], n);
    var a, x := ["# " + OneLine(title)], [["# " + OneLine(title)]];
    ContributeTogether(a, x, FieldSections(head, n), SectionsHeadings(head, n));
    a, x := a + FieldSections(head, n), x + SectionsHeadings(head, n);
    var code := if n.codeBlocks != [] then [["## " + CODE_HEADING]] else [];
    ContributeTogether(a, x, SupplementarySections(n.codeBlocks), code);
    a, x := a + SupplementarySections(n.codeBlocks), x + code;
    ContributeTogether(a, x, FieldSections(tail, n), SectionsHeadings(tail, n));
    a, x := a + FieldSections(tail, n), x + SectionsHeadings(tail, n);
    ContributeTogether(a, x, [RelatedSection(related)], [["## " + RELATED_HEADING]]);
    a, x := a + [RelatedSection(related)], x + [["## " + RELATED_HEADING]];
    ContributeTogether(a, x, FieldSections([Sources], n), SectionsHeadings([Sources], n));
  }

  /** The whole note contributes the Gateway's headings, and no carriage return. */
  lemma NoteContributes(n: NormalExport, title: string, related: seq<string>)
    requires ValidExport(n) && S.ValidSteps(n.steps)
    ensures Contributes(BuildContent(n, title, related), Concat(ExpectedHeadings(n, title)))
  {
    hide Contributes, ValidExport, ExpectedHeadings, ContentBlocks, AllContribute, S.ValidSteps;
    BlocksContribute(n, title, related);
    ContentExists(n, title, related);
    var text := Join(ContentBlocks(n, title, related), "\n\n");
    JoinedContribute(ContentBlocks(n, title, related), ExpectedHeadings(n, title), true);
    EmptyContributes();
    ContributeBelow(text, Concat(ExpectedHeadings(n, title)), "", []);
    assert text + "\n" + "" == BuildContent(n, title, related);
    assert Concat(ExpectedHeadings(n, title)) + [] == Concat(ExpectedHeadings(n, title));
  }

  /**
   * Heading integrity. For every accepted export, title and list of related notes, a reader of the whole note finds
   * exactly the Gateway's headings for the mode, in order, with the code section present exactly when some code
   * block survives; nothing the client wrote adds, hides or changes one. This holds for a reader who looks at the
   * left margin only, and for one who looks behind any indentation and inside all quotes and list items.
   */
  lemma HeadingIntegrity(e: Export, title: string, related: seq<string>)
    requires SchemaExport(e) && CheckedExport(e).Ok?
    ensures var n := CheckedExport(e).value;
      && ValidExport(n)
      && HeadingsOf(BuildContent(n, title, related)) == Concat(ExpectedHeadings(n, title))
      && DeepHeadingsOf(BuildContent(n, title, related)) == Concat(ExpectedHeadings(n, title))
  {
    hide Contributes, NormaliseExport, ValidExport, HeadingsOf, DeepHeadingsOf, OffendingFields, ExpectedHeadings, BuildContent, RequiredFields,
      FieldLength, SchemaExport, S.ValidSteps;
    ExportIsValid(e);
    var n := CheckedExport(e).value;
    StepsOfValid(n);
    NoteContributes(n, title, related);
    ContributesMeans(BuildContent(n, title, related), Concat(ExpectedHeadings(n, title)));
  }

  lemma ContentExists(n: NormalExport, title: string, related: seq<string>)
    requires S.ValidSteps(n.steps)
    ensures ContentBlocks(n, title, related) != []
  {
  }

  // ----- The level-two headings depend on the mode and on nothing the client wrote -----

  function LevelTwo(headings: seq<string>): seq<string> {
    if headings == [] then []
    else (if "## " <= headings[0] then [headings[0]] else []) + LevelTwo(headings[1..])
  }

  function FieldHeadings(fields: seq<Field>): seq<string> {
    if fields == [] then [] else ["## " + HeadingOf(fields[0])] + FieldHeadings(fields[1..])
  }

  function ModeHeadings(mode: ExportMode, hasCode: bool): seq<string> {
    FieldHeadings([Tldr, Decisions] + ModeSections(mode))
    + (if hasCode then ["## " + CODE_HEADING] else [])
    + FieldHeadings([UnresolvedIssues, NextActions])
    + ["## " + RELATED_HEADING]
    + FieldHeadings([Sources])
  }

  lemma LevelTwoFirst(headings: seq<string>)
    requires headings != []
    ensures LevelTwo(headings) == (if "## " <= headings[0] then [headings[0]] else []) + LevelTwo(headings[1..])
  {
  }

  lemma {:induction false} LevelTwoConcat(a: seq<string>, b: seq<string>)
    ensures LevelTwo(a + b) == LevelTwo(a) + LevelTwo(b)
  {
    if a == [] {
      assert a + b == b;
    } else {
      hide LevelTwo;
      LevelTwoConcat(a[1..], b);
      assert (a + b)[1..] == a[1..] + b;
      LevelTwoFirst(a);
      LevelTwoFirst(a + b);
      Regroup(if "## " <= a[0] then [a[0]] else [], LevelTwo(a[1..]), LevelTwo(b));
    }
  }

  lemma {:induction false} ConcatConcat(a: seq<seq<string>>, b: seq<seq<string>>)
    ensures Concat(a + b) == Concat(a) + Concat(b)
  {
    if a == [] {
      assert a + b == b;
    } else {
      ConcatConcat(a[1..], b);
      assert (a + b)[1..] == a[1..] + b;
      Regroup(a[0], Concat(a[1..]), Concat(b));
    }
  }

  lemma LevelTwoAppend(a: seq<seq<string>>, b: seq<seq<string>>)
    ensures LevelTwo(Concat(a + b)) == LevelTwo(Concat(a)) + LevelTwo(Concat(b))
  {
    ConcatConcat(a, b);
    LevelTwoConcat(Concat(a), Concat(b));
  }

  lemma LevelTwoSingle(line: string)
    ensures LevelTwo(Concat([[line]])) == if "## " <= line then [line] else []
  {
    assert [[line]][1..] == [] && [line] + [] == [line] && [line][1..] == [];
  }

  lemma {:induction false} TopicsAreDeeper(topics: seq<(string, seq<BodyItem>)>)
    ensures LevelTwo(Concat(TopicHeadings(topics))) == []
  {
    if topics != [] {
      TopicsAreDeeper(topics[1..]);
      var line := "### " + topics[0].0;
      assert line[2] == '#';
      LevelTwoSingle(line);
      LevelTwoAppend([[line]], TopicHeadings(topics[1..]));
    }
  }

  lemma {:induction false} LevelTwoOfFields(fields: seq<Field>, n: NormalExport)
    ensures LevelTwo(Concat(SectionsHeadings(fields, n))) == FieldHeadings(fields)
  {
    hide HeadingOf;
    if fields != [] {
      LevelTwoOfFields(fields[1..], n);
      var line := "## " + HeadingOf(fields[0]);
      var inner := if fields[0] == Topics then Concat(TopicHeadings(n.topics)) else [];
      TopicsAreDeeper(n.topics);
      LevelTwoConcat([line], inner);
      LevelTwoSingle(line);
      assert LevelTwo([line]) == [line];
      LevelTwoConcat([line] + inner, Concat(SectionsHeadings(fields[1..], n)));
    }
  }

  /** Same mode, same sections, in the same order, whatever the input. */
  lemma SectionsAreFixed(n: NormalExport, title: string)
    ensures LevelTwo(Concat(ExpectedHeadings(n, title))) == ModeHeadings(n.mode, n.codeBlocks != [])
  {
    hide ModeSections, HeadingOf, SectionsHeadings, FieldHeadings, LevelTwo, Concat, OneLine;
    var head, tail := [Tldr, Decisions] + ModeSections(n.mode), [UnresolvedIssues, NextActions];
    var first := "# " + OneLine(title);
    assert first[1] == ' ';
    LevelTwoSingle(first);
    LevelTwoSingle("## " + CODE_HEADING);
    LevelTwoSingle("## " + RELATED_HEADING);
    LevelTwoOfFields(head, n);
    LevelTwoOfFields(tail, n);
    LevelTwoOfFields([Sources], n);
    var code := if n.codeBlocks != [] then [["## " + CODE_HEADING]] else [];
    NothingIsLevelTwo();
    var a := [[first]] + SectionsHeadings(head, n);
    LevelTwoAppend([[first]], SectionsHeadings(head, n));
    LevelTwoAppend(a, code);
    LevelTwoAppend(a + code, SectionsHeadings(tail, n));
    LevelTwoAppend(a + code + SectionsHeadings(tail, n), [["## " + RELATED_HEADING]]);
    LevelTwoAppend(a + code + SectionsHeadings(tail, n) + [["## " + RELATED_HEADING]], SectionsHeadings([Sources], n));
  }

  /** What an accepted export keeps of its input. */
  lemma AcceptedKeeps(e: Export)
    requires CheckedExport(e).Ok?
    ensures CheckedExport(e).value.mode == e.mode && CheckedExport(e).value.codeBlocks == NormalCodes(e.codeBlocks)
  {
    hide B.NonEmptyLines, NormalBodies, S.NormalSteps, NormalTimeline, NormalTopics, NormalDefinitions, NormalCodes, BlockChars,
      OffendingFields, RequiredFields, FieldLength;
  }

  /**
   * Same mode, same `## ` headings: whatever the client text, the whole rendered note shows exactly the Gateway's
   * list for the mode, in order, with the code section if and only if some code block survives normalisation.
   */
  lemma NoteSectionsAreFixed(e: Export, title: string, related: seq<string>)
    requires SchemaExport(e) && CheckedExport(e).Ok?
    ensures ValidExport(CheckedExport(e).value)
    ensures LevelTwo(HeadingsOf(BuildContent(CheckedExport(e).value, title, related)))
         == ModeHeadings(e.mode, NormalCodes(e.codeBlocks) != [])
    ensures LevelTwo(DeepHeadingsOf(BuildContent(CheckedExport(e).value, title, related)))
         == ModeHeadings(e.mode, NormalCodes(e.codeBlocks) != [])
  {
    hide SchemaExport, CheckedExport, ValidExport, HeadingsOf, DeepHeadingsOf, BuildContent, ExpectedHeadings, LevelTwo, ModeHeadings, NormalCodes, Concat;
    HeadingIntegrity(e, title, related);
    SectionsAreFixed(CheckedExport(e).value, title);
    AcceptedKeeps(e);
  }

  lemma NothingIsLevelTwo()
    ensures LevelTwo(Concat([])) == []
  {
  }
}
