/** What stands where: under each heading of a printed note, exactly the content of the field the heading names. */
module SectionContents {
  import opened Text
  import opened Escape
  import opened Blocks
  import opened FlatLines
  import opened Containers
  import opened Headings
  import opened Neutral
  import opened Note
  import opened HeadingIntegrity
  import opened SectionReader
  import opened PrintedBlocks
  import Fence
  import G = Grouping
  import N = Normalised
  import S = Steps

  // ----- The layout of a note -----

  /** What a section is about: a field of the export, its code blocks, or the related notes. */
  datatype Slot = Of(field: Field) | OfCode | OfRelated

  function ModeLayout(mode: ExportMode): seq<(string, Slot)> {
    match mode
    case Summary => [("概要", Of(Overview)), ("要点", Of(KeyPoints))]
    case Technical =>
      [("背景", Of(Context)), ("設計", Of(Design)), ("実装メモ", Of(ImplementationNotes)), ("検証", Of(Verification))]
    case History => [("経緯", Of(Timeline)), ("転換点", Of(TurningPoints))]
    case Full => [("トピック", Of(Topics))]
    case Procedure =>
      [("前提条件", Of(Prerequisites)), ("手順", Of(StepList)), ("検証", Of(Verification)), ("ロールバック", Of(Rollback))]
    case Issue =>
      [("症状", Of(Symptom)), ("環境", Of(Environment)), ("調査", Of(Investigation)), ("原因", Of(RootCause)),
       ("回避策", Of(Workaround))]
    case Reference => [("用語", Of(Definitions)), ("事実", Of(Facts)), ("例", Of(Examples))]
  }

  /** The headings of a note and what each is about, in order; the code section is there only if there is code. */
  function Layout(mode: ExportMode, hasCode: bool): seq<(string, Slot)> {
    [("要約", Of(Tldr)), ("決定事項", Of(Decisions))]
    + ModeLayout(mode)
    + (if hasCode then [("コード", OfCode)] else [])
    + [("未解決の論点", Of(UnresolvedIssues)), ("次のアクション", Of(NextActions)), ("関連ノート", OfRelated), ("出典", Of(Sources))]
  }

  // ----- What a section's text shows -----

  /** Sentences one after the other, a space behind each but the last, unless it ends as Japanese sentences do. */
  function Prose(sentences: seq<string>): string {
    if sentences == [] then ""
    else if |sentences| == 1 then sentences[0]
    else
      var s := sentences[0];
      s + (if s != "" && s[|s| - 1] in "。！？」）" then "" else " ") + Prose(sentences[1..])
  }

  function Entry(entry: (Option<string>, string)): string {
    match entry.0
    case None => entry.1
    case Some(when) => when + ": " + entry.1
  }

  predicate TimelineShown(entries: seq<(Option<string>, string)>, lines: seq<string>) {
    && |lines| == |entries|
    && forall i :: 0 <= i < |entries| ==> lines[i] == "- " + EscapeBlockStart(Entry(entries[i]))
  }

  predicate DefinitionsShown(definitions: seq<(string, string)>, lines: seq<string>) {
    && |lines| == |definitions|
    && forall i :: 0 <= i < |definitions| ==> lines[i] == "- " + EscapeBlockStart(definitions[i].0 + ": " + definitions[i].1)
  }

  predicate TopicShown(topic: (string, seq<BodyItem>), part: Part) {
    && part.heading == "### " + topic.0 && IsFramed(part)
    && PartText(part) == if topic.1 == [] then "未記録" else G.BodyText(topic.1)
  }

  predicate TopicsShown(topics: seq<(string, seq<BodyItem>)>, lines: seq<string>) {
    var (before, parts) := Cut(lines, Outside, 3);
    before == [] && |parts| == |topics| && forall i :: 0 <= i < |topics| ==> TopicShown(topics[i], parts[i])
  }

  datatype CodeSeen = CodeSeen(caption: Option<string>, info: string, content: string)

  /** Captioned code blocks, one blank line apart. */
  function ReadCodes(lines: seq<string>): Option<seq<CodeSeen>>
    decreases |lines|
  {
    match ReadCaptionedCode(lines)
    case None => None
    case Some((caption, block)) =>
      var seen := CodeSeen(caption, block.info, block.content);
      if block.rest == [] then Some([seen])
      else if |block.rest| >= |lines| || block.rest[0] != "" then None
      else
        match ReadCodes(block.rest[1..])
        case None => None
        case Some(more) => Some([seen] + more)
  }

  function CodesSeen(codes: seq<Code>): seq<CodeSeen> {
    if codes == [] then []
    else [CodeSeen(codes[0].caption, Fence.InfoString(codes[0].language), codes[0].content)] + CodesSeen(codes[1..])
  }

  /** The path a list item links to. */
  function ReadLink(line: string): Option<string> {
    if |line| >= 6 && "- [[" <= line && line[|line| - 2..] == "]]" then Some(line[4..|line| - 2] + ".md") else None
  }

  function ReadLinks(lines: seq<string>): Option<seq<string>> {
    if lines == [] then Some([])
    else
      match (ReadLink(lines[0]), ReadLinks(lines[1..]))
      case (Some(path), Some(rest)) => Some([path] + rest)
      case _ => None
  }

  /** What a link can name without being cut short: one line without brackets, `|`, `#` and `^`, and one `.md` behind it. */
  ghost predicate CanLink(path: string) {
    exists stem :: path == stem + ".md" && LinkStem(stem)
  }

  predicate LinkStem(stem: string) {
    && stem != "" && !(|stem| >= 3 && stem[|stem| - 3..] == ".md")
    && '[' !in stem && ']' !in stem && '|' !in stem && '#' !in stem && '^' !in stem
    && forall i :: 0 <= i < |stem| ==> !IsLineBreak(stem[i]) && !IsControl(stem[i])
  }

  ghost function Linkable(paths: seq<string>): seq<string> {
    if paths == [] then [] else (if CanLink(paths[0]) then [paths[0]] else []) + Linkable(paths[1..])
  }

  /** What stands in place of a body field that holds nothing. */
  function Absent(field: Field): string {
    match field
    case Decisions => "なし"
    case UnresolvedIssues => "なし"
    case NextActions => "なし"
    case Sources => "なし"
    case RootCause => "未解決"
    case _ => "未記録"
  }

  /** The text of a section, read back, is what the export holds for it. */
  ghost predicate SlotShown(slot: Slot, n: NormalExport, related: seq<string>, text: string)
    requires S.ValidSteps(n.steps)
  {
    match slot
    case OfCode => ReadCodes(Lines(text)) == Some(CodesSeen(n.codeBlocks))
    case OfRelated => if Linkable(related) == [] then text == "なし" else ReadLinks(Lines(text)) == Some(Linkable(related))
    case Of(field) => FieldShown(field, n, text)
  }

  ghost predicate FieldShown(field: Field, n: NormalExport, text: string)
    requires S.ValidSteps(n.steps)
  {
    match field
    case Tldr => n.tldr != [] && text == EscapeBlockStart(Prose(n.tldr))
    case Timeline => if n.timeline == [] then text == "未記録" else TimelineShown(n.timeline, Lines(text))
    case Topics => if n.topics == [] then text == "未記録" else TopicsShown(n.topics, Lines(text + "\n"))
    case StepList => if n.steps == [] then text == "未記録" else S.ReadSteps(Lines(text)) == Some(S.ExpectedItems(n.steps, 1))
    case Definitions => if n.definitions == [] then text == "未記録" else DefinitionsShown(n.definitions, Lines(text))
    case _ => text == if BodyOf(n.bodies, field) == [] then Absent(field) else G.BodyText(n.bodies[field])
  }

  // ----- Each field on its own -----

  lemma {:induction false} SentencesAreProse(items: seq<string>, done: string)
    requires ValidTexts(items) && done != ""
    ensures JoinSentences(items, done)
         == done + (if items == [] then "" else (if done[|done| - 1] in "。！？」）" then "" else " ") + Prose(items))
  {
    hide IsLine;
    if items == [] {
      assert done + "" == done;
    } else {
      var gap := if done[|done| - 1] in "。！？」）" then "" else " ";
      var next := done + gap + items[0];
      SentencesAreProse(items[1..], next);
      assert next[|next| - 1] == items[0][|items[0]| - 1];
      if |items| == 1 {
        assert next + "" == next;
        Regroup(done, gap, items[0]);
      } else {
        var last := if next[|next| - 1] in "。！？」）" then "" else " ";
        SentencesRegroup(done, gap, items[0], last, Prose(items[1..]));
      }
    }
  }

  lemma SentencesRegroup(done: string, gap: string, first: string, last: string, rest: string)
    ensures done + gap + first + (last + rest) == done + (gap + (first + last + rest))
  {
  }

  lemma ProseOf(items: seq<string>)
    requires ValidTexts(items) && items != []
    ensures JoinSentences(items, "") == Prose(items)
  {
    hide IsLine, JoinSentences;
    OneSentence(items);
    SentencesAreProse(items[1..], items[0]);
    if |items| == 1 {
      assert items[0] + "" == items[0];
    } else {
      var gap := if items[0][|items[0]| - 1] in "。！？」）" then "" else " ";
      Regroup(items[0], gap, Prose(items[1..]));
    }
  }

  lemma OneSentence(items: seq<string>)
    requires items != []
    ensures JoinSentences(items, "") == JoinSentences(items[1..], items[0])
  {
    assert "" + "" + items[0] == items[0];
  }

  lemma {:induction false} TimelinePrinted(entries: seq<(Option<string>, string)>)
    requires ValidTimeline(entries)
    ensures TimelineShown(entries, TimelineLines(entries))
    ensures Flat(TimelineLines(entries))
  {
    hide EscapeBlockStart, IsLine;
    if entries != [] {
      TimelinePrinted(entries[1..]);
      EntryPrinted(entries[0]);
      var lines, more := TimelineLines(entries), TimelineLines(entries[1..]);
      assert lines == ["- " + EscapeBlockStart(Entry(entries[0]))] + more;
      assert forall i :: 0 < i < |entries| ==> lines[i] == more[i - 1] && entries[i] == entries[1..][i - 1];
    }
  }

  lemma EntryPrinted(entry: (Option<string>, string))
    requires ValidCaption(entry.0) && ValidText(entry.1)
    ensures FlatLine("- " + EscapeBlockStart(Entry(entry)))
  {
    hide EscapeBlockStart, IsLine;
    LineIsFlat(entry.1);
    if entry.0.Some? {
      LineIsFlat(entry.0.value);
    }
    EscapedIsFlat(Entry(entry));
  }

  lemma {:induction false} DefinitionsPrinted(definitions: seq<(string, string)>)
    requires ValidDefinitions(definitions)
    ensures DefinitionsShown(definitions, DefinitionLines(definitions))
    ensures Flat(DefinitionLines(definitions))
  {
    hide EscapeBlockStart, IsLine;
    if definitions != [] {
      DefinitionsPrinted(definitions[1..]);
      EntryPrinted((Some(definitions[0].0), definitions[0].1));
      var lines, more := DefinitionLines(definitions), DefinitionLines(definitions[1..]);
      assert forall i :: 0 < i < |definitions| ==> lines[i] == more[i - 1] && definitions[i] == definitions[1..][i - 1];
    }
  }

  function TopicPieces(topics: seq<(string, seq<BodyItem>)>): seq<Piece> {
    if topics == [] then []
    else [Piece("### " + topics[0].0, if topics[0].1 == [] then "未記録" else G.BodyText(topics[0].1), [])] + TopicPieces(topics[1..])
  }

  lemma HashesAre(hashes: string, text: string)
    requires hashes == "# " || hashes == "## " || hashes == "### "
    ensures Span(hashes + text, IsHash) == |hashes| - 1 && IsBlank((hashes + text)[|hashes| - 1])
  {
    SpanIs(hashes + text, IsHash, |hashes| - 1);
  }

  lemma TopicIsValidPiece(topic: (string, seq<BodyItem>))
    requires ValidText(topic.0) && N.ValidItems(topic.1)
    ensures ValidPiece(TopicPieces([topic])[0], 3)
    ensures PieceText(TopicPieces([topic])[0]) == TopicText(topic)
  {
    hide IsLine, Contributes, N.ValidItems, G.BodyText;
    LineIsFlat(topic.0);
    HashesAre("### ", topic.0);
    if topic.1 != [] {
      BodyIsNeutral(topic.1);
    } else {
      PlaceholderIsNeutral(Topics);
    }
  }

  lemma {:induction false} TopicsAreValidPieces(topics: seq<(string, seq<BodyItem>)>)
    requires ValidTopics(topics)
    ensures ValidPieces(TopicPieces(topics), 3)
    ensures PieceTexts(TopicPieces(topics)) == TopicTexts(topics)
  {
    hide ValidPiece, PieceText, TopicText, IsLine, N.ValidItems, G.BodyText;
    if topics != [] {
      TopicIsValidPiece(topics[0]);
      TopicsAreValidPieces(topics[1..]);
      assert TopicPieces(topics)[0] == TopicPieces([topics[0]])[0];
      assert TopicPieces(topics)[1..] == TopicPieces(topics[1..]);
    }
  }

  lemma {:induction false} TopicPartsShow(topics: seq<(string, seq<BodyItem>)>)
    ensures var parts := PartsOf(TopicPieces(topics));
      |parts| == |topics| && forall i :: 0 <= i < |topics| ==> TopicShown(topics[i], parts[i])
  {
    hide G.BodyText, IsFramed, PartText, PartOf;
    if topics != [] {
      TopicPartsShow(topics[1..]);
      var pieces := TopicPieces(topics);
      PartIsPiece(pieces[0]);
      PartHeading(pieces[0]);
      var parts, more := PartsOf(pieces), PartsOf(TopicPieces(topics[1..]));
      assert pieces[1..] == TopicPieces(topics[1..]);
      assert forall i :: 0 < i < |topics| ==> parts[i] == more[i - 1] && topics[i] == topics[1..][i - 1];
    }
  }

  lemma PartHeading(piece: Piece)
    ensures PartOf(piece).heading == piece.heading
  {
  }

  lemma TopicsPrinted(topics: seq<(string, seq<BodyItem>)>)
    requires ValidTopics(topics) && topics != []
    ensures TopicsShown(topics, Lines(Join(TopicTexts(topics), "\n\n") + "\n"))
  {
    hide ValidTopics, TopicTexts, ValidPieces, Lines, Join, TopicShown, Cut;
    TopicsAreValidPieces(topics);
    TopicPiecesExist(topics);
    PiecesPrinted(TopicPieces(topics), 3);
    CutPieces(TopicPieces(topics), 3);
    TopicPartsShow(topics);
  }

  lemma TopicPiecesExist(topics: seq<(string, seq<BodyItem>)>)
    requires topics != []
    ensures TopicPieces(topics) != []
  {
  }

  predicate IsPlain(field: Field) {
    field != Tldr && field != Timeline && field != Topics && field != StepList && field != Definitions
  }

  lemma PlainShown(field: Field, n: NormalExport)
    requires IsPlain(field) && S.ValidSteps(n.steps)
    ensures FieldShown(field, n, BodyFor(field, n))
  {
    hide S.ValidSteps, EscapeBlockStart, JoinSentences, Prose, TimelineLines, DefinitionLines, TimelineShown, DefinitionsShown,
      TopicsShown, S.StepsText, S.ReadSteps, S.ExpectedItems, G.BodyText, TopicTexts, Lines, Join;
  }

  lemma ListsShown(n: NormalExport)
    requires ValidTimeline(n.timeline) && ValidDefinitions(n.definitions) && S.ValidSteps(n.steps)
    ensures FieldShown(Timeline, n, BodyFor(Timeline, n))
    ensures FieldShown(Definitions, n, BodyFor(Definitions, n))
  {
    hide ValidTimeline, ValidDefinitions, S.ValidSteps, TimelineLines, DefinitionLines, TimelineShown, DefinitionsShown, Lines, Join;
    TimelinePrinted(n.timeline);
    DefinitionsPrinted(n.definitions);
    LinesExist(n);
    if n.timeline != [] {
      FlatSplit(TimelineLines(n.timeline));
    }
    if n.definitions != [] {
      FlatSplit(DefinitionLines(n.definitions));
    }
  }

  lemma TldrShown(n: NormalExport)
    requires ValidTexts(n.tldr) && n.tldr != [] && S.ValidSteps(n.steps)
    ensures FieldShown(Tldr, n, BodyFor(Tldr, n))
  {
    hide ValidTexts, S.ValidSteps, EscapeBlockStart, JoinSentences, Prose;
    ProseOf(n.tldr);
  }

  lemma TopicFieldShown(n: NormalExport)
    requires ValidTopics(n.topics) && S.ValidSteps(n.steps)
    ensures FieldShown(Topics, n, BodyFor(Topics, n))
  {
    hide ValidTopics, S.ValidSteps, TopicTexts, TopicsShown, Lines, Join;
    if n.topics != [] {
      TopicsPrinted(n.topics);
    }
  }

  lemma StepsShown(n: NormalExport)
    requires S.ValidSteps(n.steps)
    ensures FieldShown(StepList, n, BodyFor(StepList, n))
  {
    hide S.ValidSteps, S.StepsText, S.ReadSteps, S.ExpectedItems, Lines;
    if n.steps != [] {
      S.StepsRoundTrip(n.steps);
    }
  }

  /** Every field's body, read back, is the field. */
  lemma BodyShown(field: Field, n: NormalExport)
    requires ValidExport(n) && n.tldr != []
    ensures S.ValidSteps(n.steps) && FieldShown(field, n, BodyFor(field, n))
  {
    hide ValidTexts, ValidBodies, ValidCodes, ValidTimeline, ValidTopics, S.ValidSteps, ValidDefinitions, FieldShown, BodyFor;
    if IsPlain(field) {
      PlainShown(field, n);
    } else {
      TldrShown(n);
      ListsShown(n);
      TopicFieldShown(n);
      StepsShown(n);
    }
  }

  // ----- Code and related notes -----

  lemma FenceIsSomething(code: Code)
    ensures |Fence.FenceLines(code)| >= 1
  {
  }

  lemma TopLevelLines(code: Code)
    requires ValidCode(code)
    ensures Lines(G.TopLevelCode(code)) == Fence.CaptionLines(code.caption) + Fence.FenceLines(code)
    ensures |Lines(G.TopLevelCode(code))| >= 1
  {
    hide Fence.FenceLines, Fence.CaptionLines, ValidCode, Lines, Join;
    EmptyIsFlat();
    CodeLinesAreFlat(code, "");
    UnindentedIsSame(Fence.CaptionLines(code.caption) + Fence.FenceLines(code));
    FenceIsSomething(code);
    FlatSplit(Fence.CodeLines(code, ""));
  }

  lemma FirstCode(code: Code, rest: seq<string>)
    requires ValidCode(code) && (rest == [] || rest[0] == "")
    ensures var seen := CodeSeen(code.caption, Fence.InfoString(code.language), code.content);
      ReadCodes(Lines(G.TopLevelCode(code)) + rest)
      == if rest == [] then Some([seen])
         else match ReadCodes(rest[1..]) case None => None case Some(more) => Some([seen] + more)
  {
    hide ReadCaptionedCode, Lines, Fence.CaptionLines, Fence.FenceLines, Fence.InfoString, ValidCode, G.TopLevelCode;
    TopLevelLines(code);
    CodeReads(code, rest);
  }

  lemma {:induction false} CodesRead(codes: seq<Code>)
    requires ValidCodes(codes) && codes != []
    ensures ReadCodes(Lines(Join(CodeTexts(codes), "\n\n"))) == Some(CodesSeen(codes))
  {
    hide ReadCodes, Lines, Fence.InfoString, ValidCode, G.TopLevelCode;
    var first := Lines(G.TopLevelCode(codes[0]));
    if |codes| == 1 {
      FirstCode(codes[0], []);
      var last := CodeSeen(codes[0].caption, Fence.InfoString(codes[0].language), codes[0].content);
      assert first + [] == first && [last] + [] == [last];
      assert CodesSeen(codes[1..]) == [];
    } else {
      CodesRead(codes[1..]);
      var rest := Join(CodeTexts(codes[1..]), "\n\n");
      assert CodeTexts(codes)[1..] == CodeTexts(codes[1..]);
      LinesApart(G.TopLevelCode(codes[0]), rest);
      var below := [""] + Lines(rest);
      FirstCode(codes[0], below);
      assert below[1..] == Lines(rest);
      Regroup(first, [""], Lines(rest));
    }
  }

  lemma TargetsAreLinkable(path: string)
    ensures IsRenderableTarget(path) <==> CanLink(path)
  {
    hide IsLineBreak, IsControl;
    if IsRenderableTarget(path) {
      var stem := path[..|path| - 3];
      assert path == stem + ".md";
      assert forall c :: c in stem ==> c in path;
      assert LinkStem(stem);
    }
    if CanLink(path) {
      var stem :| path == stem + ".md" && LinkStem(stem);
      StemIsTarget(stem);
    }
  }

  lemma StemIsTarget(stem: string)
    requires LinkStem(stem)
    ensures IsRenderableTarget(stem + ".md")
  {
    var path := stem + ".md";
    assert path[..|path| - 3] == stem && path[|path| - 3..] == ".md";
    forall c | c in path
      ensures c !in "[]|#^" && !IsLineBreak(c) && !IsControl(c)
    {
      var i :| 0 <= i < |path| && path[i] == c;
      if i < |stem| {
        assert stem[i] == c;
      } else {
        assert c == ".md"[i - |stem|];
      }
    }
  }

  lemma LinkReads(path: string)
    requires IsRenderableTarget(path)
    ensures |path| >= 3 && ReadLink("- [[" + path[..|path| - 3] + "]]") == Some(path)
    ensures FlatLine("- [[" + path[..|path| - 3] + "]]")
  {
    var stem := path[..|path| - 3];
    var line := "- [[" + stem + "]]";
    assert IsLineBreak('\n') && IsLineBreak('\r');
    assert line[4..|line| - 2] == stem && line[|line| - 2..] == "]]";
    assert path == stem + ".md";
  }

  lemma {:induction false} LinksRead(paths: seq<string>)
    ensures ReadLinks(RelatedLines(paths)) == Some(Linkable(paths))
    ensures Flat(RelatedLines(paths))
    ensures Linkable(paths) == [] <==> RelatedLines(paths) == []
  {
    hide IsRenderableTarget, CanLink, ReadLink;
    if paths != [] {
      LinksRead(paths[1..]);
      TargetsAreLinkable(paths[0]);
      var rest, links := RelatedLines(paths[1..]), Linkable(paths[1..]);
      assert [] + rest == rest && [] + links == links;
      if IsRenderableTarget(paths[0]) {
        LinkReads(paths[0]);
        assert RelatedLines(paths)[1..] == rest;
      }
    }
  }

  function RelatedBody(paths: seq<string>): string {
    if RelatedLines(paths) == [] then "なし" else Join(RelatedLines(paths), "\n")
  }

  lemma RelatedPrinted(n: NormalExport, related: seq<string>)
    requires S.ValidSteps(n.steps)
    ensures SlotShown(OfRelated, n, related, RelatedBody(related))
  {
    hide RelatedLines, Linkable, ReadLinks, Lines, Join;
    LinksRead(related);
    if RelatedLines(related) != [] {
      FlatSplit(RelatedLines(related));
    }
  }

  // ----- The note as pieces -----

  function FieldPieces(fields: seq<Field>, n: NormalExport): (r: seq<Piece>)
    requires S.ValidSteps(n.steps)
    ensures |r| == |fields|
  {
    if fields == [] then []
    else
      var inner := if fields[0] == Topics then Concat(TopicHeadings(n.topics)) else [];
      [Piece("## " + HeadingOf(fields[0]), BodyFor(fields[0], n), inner)] + FieldPieces(fields[1..], n)
  }

  function CodePieces(codes: seq<Code>): seq<Piece> {
    if codes == [] then [] else [Piece("## " + CODE_HEADING, Join(CodeTexts(codes), "\n\n"), [])]
  }

  function RelatedPiece(related: seq<string>): Piece {
    Piece("## " + RELATED_HEADING, RelatedBody(related), [])
  }

  function NotePieces(n: NormalExport, related: seq<string>): seq<Piece>
    requires S.ValidSteps(n.steps)
  {
    FieldPieces([Tldr, Decisions] + ModeSections(n.mode), n) + CodePieces(n.codeBlocks) + FieldPieces([UnresolvedIssues, NextActions], n)
    + [RelatedPiece(related)] + FieldPieces([Sources], n)
  }

  lemma {:induction false} TextsOfPieces(a: seq<Piece>, b: seq<Piece>)
    ensures PieceTexts(a + b) == PieceTexts(a) + PieceTexts(b)
  {
    hide PieceText;
    if a == [] {
      assert a + b == b;
    } else {
      TextsOfPieces(a[1..], b);
      assert (a + b)[1..] == a[1..] + b;
      Regroup([PieceText(a[0])], PieceTexts(a[1..]), PieceTexts(b));
    }
  }

  lemma {:induction false} FieldTexts(fields: seq<Field>, n: NormalExport)
    requires S.ValidSteps(n.steps)
    ensures PieceTexts(FieldPieces(fields, n)) == FieldSections(fields, n)
  {
    hide S.ValidSteps, BodyFor, HeadingOf, Concat;
    if fields != [] {
      FieldTexts(fields[1..], n);
      assert FieldPieces(fields, n)[1..] == FieldPieces(fields[1..], n);
    }
  }

  lemma CodeText(codes: seq<Code>)
    ensures PieceTexts(CodePieces(codes)) == SupplementarySections(codes)
  {
    hide Join;
    if codes != [] {
      assert CodePieces(codes)[1..] == [];
    }
  }

  lemma RelatedText(related: seq<string>)
    ensures PieceTexts([RelatedPiece(related)]) == [RelatedSection(related)]
  {
    hide Join, RelatedLines;
    assert [RelatedPiece(related)][1..] == [];
  }

  lemma NoteTexts(n: NormalExport, title: string, related: seq<string>)
    requires S.ValidSteps(n.steps)
    ensures ContentBlocks(n, title, related) == ["# " + OneLine(title)] + PieceTexts(NotePieces(n, related))
  {
    hide S.ValidSteps, FieldPieces, FieldSections, CodePieces, SupplementarySections, RelatedPiece, RelatedSection, PieceTexts, OneLine,
      ModeSections;
    var head, tail := [Tldr, Decisions] + ModeSections(n.mode), [UnresolvedIssues, NextActions];
    FieldTexts(head, n);
    CodeText(n.codeBlocks);
    FieldTexts(tail, n);
    RelatedText(related);
    FieldTexts([Sources], n);
    var a := FieldPieces(head, n);
    TextsOfPieces(a, CodePieces(n.codeBlocks));
    a := a + CodePieces(n.codeBlocks);
    TextsOfPieces(a, FieldPieces(tail, n));
    a := a + FieldPieces(tail, n);
    TextsOfPieces(a, [RelatedPiece(related)]);
    a := a + [RelatedPiece(related)];
    TextsOfPieces(a, FieldPieces([Sources], n));
    BlocksRegroup(["# " + OneLine(title)], FieldSections(head, n), SupplementarySections(n.codeBlocks), FieldSections(tail, n),
      [RelatedSection(related)], FieldSections([Sources], n));
  }

  lemma BlocksRegroup(a: seq<string>, b: seq<string>, c: seq<string>, d: seq<string>, e: seq<string>, f: seq<string>)
    ensures a + b + c + d + e + f == a + (b + c + d + e + f)
  {
  }

  // ----- The pieces are sections, and they show what the layout says -----

  lemma FieldIsValidPiece(field: Field, n: NormalExport)
    requires ValidExport(n)
    ensures S.ValidSteps(n.steps) && ValidPiece(FieldPieces([field], n)[0], 2)
  {
    hide Contributes, BodyFor, HeadingOf, Concat, TopicHeadings, ValidTexts, ValidBodies, ValidCodes, ValidTimeline, ValidTopics,
      S.ValidSteps, ValidDefinitions;
    HeadingIsFlat(field);
    HashesAre("## ", HeadingOf(field));
    if field == Topics {
      TopicBodyContributes(n);
      TopicHeadingsAreDeeper(n.topics);
    } else {
      BodyContributes(field, n);
    }
  }

  lemma {:induction false} TopicHeadingsAreDeeper(topics: seq<(string, seq<BodyItem>)>)
    ensures NoLevel(Concat(TopicHeadings(topics)), 2)
  {
    if topics != [] {
      TopicHeadingsAreDeeper(topics[1..]);
      HashesAre("### ", topics[0].0);
      var line, rest := "### " + topics[0].0, Concat(TopicHeadings(topics[1..]));
      assert TopicHeadings(topics)[1..] == TopicHeadings(topics[1..]);
      assert ([line] + rest)[1..] == rest;
    }
  }

  /** Section and part belong together. */
  ghost predicate SectionShown(section: (string, Slot), part: Part, n: NormalExport, related: seq<string>)
    requires S.ValidSteps(n.steps)
  {
    part.heading == "## " + section.0 && IsFramed(part) && SlotShown(section.1, n, related, PartText(part))
  }

  ghost predicate AllShownAs(layout: seq<(string, Slot)>, pieces: seq<Piece>, n: NormalExport, related: seq<string>)
    requires S.ValidSteps(n.steps)
  {
    if layout == [] || pieces == [] then layout == [] && pieces == []
    else
      && ValidPiece(pieces[0], 2) && SectionShown(layout[0], PartOf(pieces[0]), n, related)
      && AllShownAs(layout[1..], pieces[1..], n, related)
  }

  function FieldLayout(fields: seq<Field>): (r: seq<(string, Slot)>)
    ensures |r| == |fields| && forall i :: 0 <= i < |r| ==> r[i] == (HeadingOf(fields[i]), Of(fields[i]))
  {
    if fields == [] then [] else [(HeadingOf(fields[0]), Of(fields[0]))] + FieldLayout(fields[1..])
  }

  lemma {:induction false} FieldsShown(fields: seq<Field>, n: NormalExport, related: seq<string>)
    requires ValidExport(n) && S.ValidSteps(n.steps) && n.tldr != []
    ensures AllShownAs(FieldLayout(fields), FieldPieces(fields, n), n, related)
  {
    hide ValidExport, S.ValidSteps, BodyFor, HeadingOf, Concat, ValidPiece, FieldShown, IsFramed, PartText, TopicHeadings, PartOf;
    if fields != [] {
      var pieces := FieldPieces(fields, n);
      FieldIsValidPiece(fields[0], n);
      assert pieces[0] == FieldPieces([fields[0]], n)[0] && pieces[1..] == FieldPieces(fields[1..], n);
      BodyShown(fields[0], n);
      PartIsPiece(pieces[0]);
      PartHeading(pieces[0]);
      FieldsShown(fields[1..], n, related);
    }
  }

  lemma {:induction false} ShownTogether(
    a: seq<(string, Slot)>, x: seq<Piece>, b: seq<(string, Slot)>, y: seq<Piece>, n: NormalExport, related: seq<string>)
    requires S.ValidSteps(n.steps) && AllShownAs(a, x, n, related) && AllShownAs(b, y, n, related)
    ensures AllShownAs(a + b, x + y, n, related)
  {
    hide ValidPiece, SectionShown, S.ValidSteps;
    if a == [] {
      assert a + b == b && x + y == y;
    } else {
      ShownTogether(a[1..], x[1..], b, y, n, related);
      assert (a + b)[1..] == a[1..] + b && (x + y)[1..] == x[1..] + y;
    }
  }

  lemma OneShown(section: (string, Slot), piece: Piece, n: NormalExport, related: seq<string>)
    requires S.ValidSteps(n.steps) && ValidPiece(piece, 2)
    requires piece.heading == "## " + section.0 && SlotShown(section.1, n, related, piece.body)
    ensures AllShownAs([section], [piece], n, related)
  {
    hide ValidPiece, SlotShown, IsFramed, PartText, S.ValidSteps, PartOf;
    PartIsPiece(piece);
    PartHeading(piece);
    assert [section][1..] == [] && [piece][1..] == [];
  }

  lemma CodeShown(n: NormalExport, related: seq<string>)
    requires ValidCodes(n.codeBlocks) && S.ValidSteps(n.steps)
    ensures AllShownAs(if n.codeBlocks != [] then [(CODE_HEADING, OfCode)] else [], CodePieces(n.codeBlocks), n, related)
  {
    hide ValidCodes, S.ValidSteps, Contributes, ReadCodes, CodesSeen, Lines, Join, CodeTexts;
    if n.codeBlocks != [] {
      CodesAreNeutral(n.codeBlocks);
      CodeTextsExist(n.codeBlocks);
      NeutralJoin(CodeTexts(n.codeBlocks), true);
      CodesRead(n.codeBlocks);
      HashesAre("## ", CODE_HEADING);
      OneShown((CODE_HEADING, OfCode), CodePieces(n.codeBlocks)[0], n, related);
    }
  }

  lemma CodeTextsExist(codes: seq<Code>)
    requires codes != []
    ensures CodeTexts(codes) != []
  {
  }

  lemma RelatedShown(n: NormalExport, related: seq<string>)
    requires S.ValidSteps(n.steps)
    ensures AllShownAs([(RELATED_HEADING, OfRelated)], [RelatedPiece(related)], n, related)
  {
    hide S.ValidSteps, Contributes, SlotShown, Join, RelatedLines;
    RelatedPrinted(n, related);
    RelatedAreNeutral(related);
    PlaceholderIsNeutral(Decisions);
    if RelatedLines(related) != [] {
      NeutralJoin(RelatedLines(related), false);
    }
    HashesAre("## ", RELATED_HEADING);
    OneShown((RELATED_HEADING, OfRelated), RelatedPiece(related), n, related);
  }

  lemma HeadingsOfShortModes()
    ensures HeadingOf(Overview) == "概要" && HeadingOf(KeyPoints) == "要点"
    ensures HeadingOf(Timeline) == "経緯" && HeadingOf(TurningPoints) == "転換点" && HeadingOf(Topics) == "トピック"
    ensures HeadingOf(Definitions) == "用語" && HeadingOf(Facts) == "事実" && HeadingOf(Examples) == "例"
  {
  }

  lemma HeadingsOfLongModes()
    ensures HeadingOf(Context) == "背景" && HeadingOf(Design) == "設計" && HeadingOf(ImplementationNotes) == "実装メモ"
    ensures HeadingOf(Verification) == "検証" && HeadingOf(Prerequisites) == "前提条件" && HeadingOf(StepList) == "手順"
    ensures HeadingOf(Rollback) == "ロールバック" && HeadingOf(Symptom) == "症状" && HeadingOf(Environment) == "環境"
    ensures HeadingOf(Investigation) == "調査" && HeadingOf(RootCause) == "原因" && HeadingOf(Workaround) == "回避策"
  {
  }

  lemma LayoutOfMode(mode: ExportMode)
    ensures ModeLayout(mode) == FieldLayout(ModeSections(mode))
  {
    hide HeadingOf;
    HeadingsOfShortModes();
    HeadingsOfLongModes();
  }

  lemma LayoutIs(mode: ExportMode, hasCode: bool)
    ensures Layout(mode, hasCode)
         == FieldLayout([Tldr, Decisions] + ModeSections(mode)) + (if hasCode then [(CODE_HEADING, OfCode)] else [])
            + FieldLayout([UnresolvedIssues, NextActions]) + [(RELATED_HEADING, OfRelated)] + FieldLayout([Sources])
  {
    hide ModeSections, ModeLayout;
    LayoutOfMode(mode);
    assert FieldLayout([Tldr, Decisions] + ModeSections(mode)) == [("要約", Of(Tldr)), ("決定事項", Of(Decisions))] + ModeLayout(mode);
  }

  lemma NoteShown(n: NormalExport, related: seq<string>)
    requires ValidExport(n) && S.ValidSteps(n.steps) && n.tldr != []
    ensures AllShownAs(Layout(n.mode, n.codeBlocks != []), NotePieces(n, related), n, related)
  {
    hide ValidExport, S.ValidSteps, AllShownAs, FieldLayout, FieldPieces, CodePieces, RelatedPiece, ModeSections, Layout;
    var head, tail := [Tldr, Decisions] + ModeSections(n.mode), [UnresolvedIssues, NextActions];
    var code := if n.codeBlocks != [] then [(CODE_HEADING, OfCode)] else [];
    StepsOfValid(n);
    FieldsShown(head, n, related);
    CodeShown(n, related);
    FieldsShown(tail, n, related);
    RelatedShown(n, related);
    FieldsShown([Sources], n, related);
    var a, x := FieldLayout(head), FieldPieces(head, n);
    ShownTogether(a, x, code, CodePieces(n.codeBlocks), n, related);
    a, x := a + code, x + CodePieces(n.codeBlocks);
    ShownTogether(a, x, FieldLayout(tail), FieldPieces(tail, n), n, related);
    a, x := a + FieldLayout(tail), x + FieldPieces(tail, n);
    ShownTogether(a, x, [(RELATED_HEADING, OfRelated)], [RelatedPiece(related)], n, related);
    a, x := a + [(RELATED_HEADING, OfRelated)], x + [RelatedPiece(related)];
    ShownTogether(a, x, FieldLayout([Sources]), FieldPieces([Sources], n), n, related);
    LayoutIs(n.mode, n.codeBlocks != []);
  }

  /** These parts are the layout's sections, one for one. */
  ghost predicate PartsShow(layout: seq<(string, Slot)>, parts: seq<Part>, n: NormalExport, related: seq<string>)
    requires S.ValidSteps(n.steps)
  {
    |parts| == |layout| && forall i :: 0 <= i < |layout| ==> SectionShown(layout[i], parts[i], n, related)
  }

  lemma {:induction false} ShownParts(layout: seq<(string, Slot)>, pieces: seq<Piece>, n: NormalExport, related: seq<string>)
    requires S.ValidSteps(n.steps) && AllShownAs(layout, pieces, n, related)
    ensures ValidPieces(pieces, 2) && PartsShow(layout, PartsOf(pieces), n, related)
  {
    hide ValidPiece, SectionShown, S.ValidSteps, PartOf;
    if layout != [] {
      ShownParts(layout[1..], pieces[1..], n, related);
      var parts, more := PartsOf(pieces), PartsOf(pieces[1..]);
      assert forall i :: 0 < i < |layout| ==> parts[i] == more[i - 1] && layout[i] == layout[1..][i - 1];
    }
  }

  lemma TitleScans(title: string)
    requires FlatLine(title)
    ensures ScanLines(["# " + title, ""], Outside) == Scan(["# " + title], Outside)
    ensures NoLevel(["# " + title], 2)
  {
    hide ScanLines, Core, IsHeading, Opens;
    var line := "# " + title;
    HashLineContributes("# ", title);
    SplitWhole(line, '\n');
    EmptyScans();
    ScanConcat([line], [""], Outside);
    assert [line] + [""] == [line, ""] && [line] + [] == [line];
    HashesAre("# ", title);
    assert [line][1..] == [];
  }

  lemma NoteLines(n: NormalExport, title: string, related: seq<string>)
    requires S.ValidSteps(n.steps) && ValidPieces(NotePieces(n, related), 2)
    ensures Lines(BuildContent(n, title, related)) == Lines("# " + OneLine(title)) + [""] + PieceLines(NotePieces(n, related))
  {
    hide S.ValidSteps, NotePieces, ValidPieces, ContentBlocks, OneLine, PieceTexts, Lines, PieceLines;
    var pieces := NotePieces(n, related);
    NoteTexts(n, title, related);
    PiecesExist(n, related);
    PiecesPrinted(pieces, 2);
    var first, rest := "# " + OneLine(title), PieceTexts(pieces);
    assert ([first] + rest)[1..] == rest;
    assert rest != [] by { TextsExistOf(pieces); }
    LinesApart(first, Join(rest, "\n\n") + "\n");
    Regroup(first + "\n\n", Join(rest, "\n\n"), "\n");
  }

  lemma TextsExistOf(pieces: seq<Piece>)
    requires pieces != []
    ensures PieceTexts(pieces) != []
  {
  }

  lemma PiecesExist(n: NormalExport, related: seq<string>)
    requires S.ValidSteps(n.steps)
    ensures NotePieces(n, related) != []
  {
  }

  /** Every section of a note, and nothing else behind its title. */
  lemma PrintedSections(n: NormalExport, title: string, related: seq<string>)
    requires ValidExport(n) && S.ValidSteps(n.steps) && n.tldr != []
    ensures var (before, parts) := Cut(Lines(BuildContent(n, title, related)), Outside, 2);
      before == ["# " + OneLine(title), ""] && PartsShow(Layout(n.mode, n.codeBlocks != []), parts, n, related)
  {
    hide ValidExport, S.ValidSteps, NotePieces, BuildContent, OneLine, IsLine, PieceLines, Layout, AllShownAs, ValidPieces, PartsShow, Cut,
      NoLevel, ScanLines;
    var pieces, first := NotePieces(n, related), "# " + OneLine(title);
    OneLineIsLine(title);
    LineIsFlat(OneLine(title));
    NoteShown(n, related);
    ShownParts(Layout(n.mode, n.codeBlocks != []), pieces, n, related);
    NoteLines(n, title, related);
    SplitWhole(first, '\n');
    TitleScans(OneLine(title));
    CutPieces(pieces, 2);
    CutBehind([first, ""], PieceLines(pieces), Outside, 2);
    assert [first] + [""] == [first, ""] && [first, ""] + [] == [first, ""];
  }
}
