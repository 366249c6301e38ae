/** No printed block contributes a heading or leaves a fence open, whatever the client wrote into it. */
module Neutral {
  import opened Text
  import opened Escape
  import opened Blocks
  import opened FlatLines
  import opened Containers
  import opened Headings
  import P = Paragraph
  import Fence
  import Tables
  import L = BulletLists
  import G = Grouping
  import N = Normalised
  import S = Steps

  ghost predicate IsNeutral(text: string) {
    Contributes(text, [])
  }

  ghost predicate AllNeutral(texts: seq<string>) {
    texts != [] ==> IsNeutral(texts[0]) && AllNeutral(texts[1..])
  }

  function Nothings(n: nat): (r: seq<seq<string>>)
    ensures Concat(r) == []
  {
    if n == 0 then [] else [[]] + Nothings(n - 1)
  }

  lemma {:induction false} NeutralsContribute(texts: seq<string>)
    requires AllNeutral(texts)
    ensures AllContribute(texts, Nothings(|texts|))
  {
    hide Contributes;
    if texts != [] {
      NeutralsContribute(texts[1..]);
      assert Nothings(|texts|)[1..] == Nothings(|texts| - 1);
    }
  }

  lemma NeutralJoin(texts: seq<string>, apart: bool)
    requires texts != [] && AllNeutral(texts)
    ensures IsNeutral(Join(texts, if apart then "\n\n" else "\n"))
  {
    hide Contributes;
    NeutralsContribute(texts);
    JoinedContribute(texts, Nothings(|texts|), apart);
  }

  lemma NothingBelow(a: seq<string>, b: seq<string>)
    requires Yields(a, []) && Yields(b, [])
    ensures Yields(a + b, [])
  {
    hide Yields;
    var none: seq<string> := [];
    YieldBelow(a, none, b, none);
    assert none + none == none;
  }

  lemma EscapedIsSafe(value: string)
    requires value != "" ==> !IsBlank(value[0])
    ensures SafeLine(EscapeBlockStart(value))
  {
    hide EscapeBlockStart, OpensNoBlock, SafeLine;
    EscapeChars(value);
    EscapeOpensNoBlock(value);
    if value == "" {
      NothingToEscape();
    }
    UnopenedIsSafe(EscapeBlockStart(value));
  }

  lemma NothingToEscape()
    ensures EscapeBlockStart("") == ""
  {
    SpanIs("", c => c == '#', 0);
  }

  /** One escaped line. */
  lemma EscapedIsNeutral(value: string)
    requires FlatLine(value) && (value != "" ==> !IsBlank(value[0]))
    ensures IsNeutral(EscapeBlockStart(value))
  {
    hide EscapeBlockStart, SafeLine;
    EscapedIsFlat(value);
    EscapedIsSafe(value);
    SafeTextContributes(EscapeBlockStart(value));
  }

  /** `- ` and a client value: a list item, whatever the value is. */
  lemma DashedIsNeutral(value: string)
    requires FlatLine(value) && value != "" && !IsBlank(value[0])
    ensures IsNeutral("- " + EscapeBlockStart(value))
  {
    hide EscapeBlockStart, SafeLine;
    EscapedIsFlat(value);
    EscapeChars(value);
    EscapedIsSafe(value);
    BulletIsSafe(EscapeBlockStart(value));
    SafeTextContributes("- " + EscapeBlockStart(value));
  }

  // ----- Paragraphs -----

  lemma {:induction false} ParagraphLinesAreSafe(lines: seq<string>, rendered: seq<string>)
    requires P.CleanLines(lines) && P.FaithfulLines(lines, rendered)
    ensures Flat(rendered) && SafeLines(rendered)
  {
    hide P.FaithfulLine, P.CleanLine, SafeLine;
    if lines != [] && rendered != [] {
      ParagraphLineIsSafe(lines[0], rendered[0]);
      ParagraphLinesAreSafe(lines[1..], rendered[1..]);
    }
  }

  lemma ParagraphLineIsSafe(line: string, rendered: string)
    requires P.CleanLine(line) && P.FaithfulLine(line, rendered)
    ensures FlatLine(rendered) && SafeLine(rendered)
  {
    hide OpensNoBlock, SafeLine;
    NoReturnAdded(line, rendered);
    var n := P.IndentOf(rendered);
    assert rendered[..n] + rendered[n..] == rendered;
    UnopenedIsSafe(rendered[n..]);
    forall i | 0 <= i < n
      ensures IsBlank(rendered[..n][i])
    {
      SpanAt(rendered, IsBlank, i);
    }
    IndentedIsSafeLine(rendered[..n], rendered[n..]);
  }

  /** Indentation in front of a safe line. */
  lemma IndentedIsSafeLine(indent: string, rest: string)
    requires SafeLine(rest) && forall i :: 0 <= i < |indent| ==> IsBlank(indent[i])
    ensures SafeLine(indent + rest)
  {
    hide SafeLine;
    if indent == "" {
      assert indent + rest == rest;
    } else {
      IndentedCore(indent, rest);
      WrappedIsSafe(indent + rest, rest);
    }
  }

  lemma NoReturnAdded(line: string, rendered: string)
    requires P.CleanLine(line) && AddsOneBackslash(line, rendered)
    ensures '\r' !in rendered
  {
    assert IsLineBreak('\r');
    if rendered != line {
      var k :| 0 <= k <= |line| && rendered == line[..k] + "\\" + line[k..];
    }
  }

  lemma ParagraphIsNeutral(lines: seq<string>)
    requires lines != [] && P.Canonical(lines)
    ensures IsNeutral(P.ParagraphText(lines))
  {
    hide P.FaithfulLine, SafeLine, P.CleanLine, P.Outdented, P.NoBlankEnds;
    P.RenderingIsFaithful(lines);
    var rendered := Lines(P.ParagraphText(lines));
    ParagraphLinesAreSafe(lines, rendered);
    JoinSplit(P.ParagraphText(lines), '\n');
    SafeLinesContribute(rendered);
  }

  // ----- Bullets -----

  lemma BulletLineIsSafe(bullet: BodyItem)
    requires bullet.Bullet? && ValidText(bullet.content)
    ensures SafeLine(L.BulletLine(bullet)) && FlatLine(L.BulletLine(bullet))
  {
    hide EscapeBlockStart, IsLine, SafeLine, ValidText, FlatLine, L.Marker, L.Indentation;
    var item := L.Marker(bullet.checked) + EscapeBlockStart(bullet.content);
    ItemIsSafe(bullet);
    Regroup(L.Indentation(bullet.depth), L.Marker(bullet.checked), EscapeBlockStart(bullet.content));
    forall i | 0 <= i < 2 * bullet.depth
      ensures IsBlank(L.Indentation(bullet.depth)[i])
    {
      L.IndentationIsSpaces(bullet.depth, i);
    }
    IndentedIsSafeLine(L.Indentation(bullet.depth), item);
    IndentationIsFlat(bullet.depth);
    FlatTogether(L.Indentation(bullet.depth), item);
  }

  lemma BracketIsSafe(line: string)
    requires line != "" && line[0] == '['
    ensures SafeLine(line)
  {
    hide SafeLine;
    assert InertStart('[') && StartsNoMarker('[');
    PlainStartIsSafe(line);
  }

  lemma FlatTogether(a: string, b: string)
    requires FlatLine(a) && FlatLine(b)
    ensures FlatLine(a + b)
  {
  }

  /** A bullet without its indentation: behind the dash there is the escaped text, or a checkbox in front of it. */
  lemma ItemIsSafe(bullet: BodyItem)
    requires bullet.Bullet? && ValidText(bullet.content)
    ensures SafeLine(L.Marker(bullet.checked) + EscapeBlockStart(bullet.content))
    ensures FlatLine(L.Marker(bullet.checked) + EscapeBlockStart(bullet.content))
  {
    hide EscapeBlockStart, IsLine, SafeLine;
    var text := EscapeBlockStart(bullet.content);
    TextStartsVisibly(bullet.content);
    LineIsFlat(bullet.content);
    EscapedIsFlat(bullet.content);
    var rest := L.Marker(bullet.checked)[2..] + text;
    if bullet.checked.None? {
      EscapedIsSafe(bullet.content);
      assert rest == text;
    } else {
      assert rest[0] == L.Marker(bullet.checked)[2];
      BracketIsSafe(rest);
    }
    BulletIsSafe(rest);
    assert L.Marker(bullet.checked) + text == "- " + rest;
  }

  lemma TextStartsVisibly(content: string)
    requires ValidText(content)
    ensures !IsBlank(content[0])
    ensures EscapeBlockStart(content) != "" && !IsBlank(EscapeBlockStart(content)[0])
  {
    hide EscapeBlockStart;
    EscapeChars(content);
  }

  lemma {:induction false} IndentationIsFlat(depth: nat)
    ensures FlatLine(L.Indentation(depth))
  {
    if depth > 0 {
      IndentationIsFlat(depth - 1);
    }
  }

  lemma {:induction false} BulletRunIsSafe(run: seq<BodyItem>)
    requires L.AllBullets(run) && N.ValidItems(run)
    ensures SafeLines(L.BulletLines(run)) && Flat(L.BulletLines(run))
  {
    hide L.BulletLine, SafeLine, FlatLine, IsLine;
    if run != [] {
      BulletLineIsSafe(run[0]);
      BulletRunIsSafe(run[1..]);
    }
  }

  // ----- Code, tables, quotes -----

  lemma CaptionIsSafe(caption: Option<string>)
    requires ValidCaption(caption)
    ensures SafeLines(Fence.CaptionLines(caption))
  {
    hide EscapeBlockStart, OpensNoBlock, SafeLine;
    if caption.Some? {
      InlineStartsVisibly(caption.value);
      EscapedIsSafe(Fence.EscapeInline(caption.value));
    }
  }

  lemma InlineStartsVisibly(s: string)
    requires ValidText(s)
    ensures Fence.EscapeInline(s) != "" && !IsBlank(Fence.EscapeInline(s)[0])
  {
  }

  lemma {:induction false} UnindentedIsSame(lines: seq<string>)
    ensures Fence.Indent(lines, "") == lines
  {
    if lines != [] {
      UnindentedIsSame(lines[1..]);
      assert "" + lines[0] == lines[0];
      assert [lines[0]] + lines[1..] == lines;
    }
  }

  lemma CaptionedCodeYields(code: Code)
    requires ValidCode(code)
    ensures Yields(Fence.CaptionLines(code.caption) + Fence.FenceLines(code), [])
  {
    hide Fence.FenceLines, Fence.CaptionLines, ValidCode, SafeLines, Yields, ValidCaption;
    var caption, fence := Fence.CaptionLines(code.caption), Fence.FenceLines(code);
    ValidCodeCaption(code);
    CaptionIsSafe(code.caption);
    SafeLinesYield(caption);
    CodeYields(code);
    NothingBelow(caption, fence);
  }

  lemma CodeIsNeutral(code: Code)
    requires ValidCode(code)
    ensures IsNeutral(G.TopLevelCode(code))
  {
    hide Fence.FenceLines, Fence.CaptionLines, ValidCode, SafeLines, Flat, Yields;
    var caption, fence := Fence.CaptionLines(code.caption), Fence.FenceLines(code);
    UnindentedIsSame(caption + fence);
    EmptyIsFlat();
    CodeLinesAreFlat(code, "");
    CaptionedCodeYields(code);
    assert fence != [] by { FenceLinesExist(code); }
    FlatSplit(caption + fence);
    NoReturns(caption + fence);
  }

  lemma EmptyIsFlat()
    ensures FlatLine("")
  {
  }

  lemma ValidCodeCaption(code: Code)
    requires ValidCode(code)
    ensures ValidCaption(code.caption)
  {
  }

  lemma FenceLinesExist(code: Code)
    ensures Fence.FenceLines(code) != []
  {
  }

  lemma {:induction false} SafeConcat(a: seq<string>, b: seq<string>)
    requires SafeLines(a) && SafeLines(b)
    ensures SafeLines(a + b)
  {
    hide SafeLine;
    if a == [] {
      assert a + b == b;
    } else {
      SafeConcat(a[1..], b);
      assert (a + b)[1..] == a[1..] + b;
    }
  }

  lemma {:induction false} TableRowsAreSafe(rows: seq<seq<string>>)
    ensures SafeLines(Tables.TableRows(rows))
  {
    hide SafeLine, Tables.EscapeCells;
    if rows != [] {
      PlainStartIsSafe(Tables.TableRow(rows[0]));
      TableRowsAreSafe(rows[1..]);
    }
  }

  lemma TableIsNeutral(table: Table)
    requires ValidTable(table)
    ensures IsNeutral(Tables.TableText(table))
  {
    hide SafeLine, Tables.WellFormed, Tables.EscapeCells, Fence.CaptionLines;
    TableLinesAreFlat(table);
    assert ValidCaption(table.caption) by { ValidTableCaption(table); }
    CaptionIsSafe(table.caption);
    var header, delimiter := Tables.TableRow(table.headers), Tables.TableDelimiterRow(table.alignments, |table.headers|);
    PlainStartIsSafe(header);
    PlainStartIsSafe(delimiter);
    TableRowsAreSafe(table.rows);
    assert [header, delimiter][1..] == [delimiter] && SafeLines([delimiter]);
    SafeConcat([header, delimiter], Tables.TableRows(table.rows));
    SafeConcat(Fence.CaptionLines(table.caption), Tables.TableGrid(table));
    SafeLinesContribute(Tables.TableLines(table));
  }

  lemma ValidTableCaption(table: Table)
    requires ValidTable(table)
    ensures ValidCaption(table.caption)
  {
  }

  lemma QuotedIsSafe(text: string)
    requires SafeLine(text)
    ensures SafeLine("> " + text)
  {
    hide SafeLine, Core;
    QuoteCore(text);
    WrappedIsSafe("> " + text, text);
  }

  lemma {:induction false} QuotedLinesAreSafe(lines: seq<string>)
    requires ValidTexts(lines)
    ensures SafeLines(G.EscapedQuoteLines(lines))
  {
    hide SafeLine, EscapeBlockStart, IsLine;
    if lines != [] {
      TextStartsVisibly(lines[0]);
      EscapedIsSafe(lines[0]);
      QuotedIsSafe(EscapeBlockStart(lines[0]));
      QuotedLinesAreSafe(lines[1..]);
    }
  }

  lemma QuoteHeaderIsSafe(quote: Quote)
    requires G.QuoteHeader(quote) != []
    ensures SafeLine(G.QuoteHeader(quote)[0])
  {
    hide SafeLine;
    var header := G.QuoteHeader(quote)[0];
    assert header == "> " + header[2..] && header[2] == '[';
    BracketIsSafe(header[2..]);
    QuotedIsSafe(header[2..]);
  }

  lemma QuoteIsNeutral(quote: Quote)
    requires ValidQuote(quote)
    ensures IsNeutral(G.QuoteText(quote))
  {
    hide SafeLine, EscapeBlockStart, IsLine, ValidCallout;
    QuoteLinesAreFlat(quote);
    QuotedLinesAreSafe(quote.lines);
    if G.QuoteHeader(quote) != [] {
      QuoteHeaderIsSafe(quote);
    }
    SafeConcat(G.QuoteHeader(quote), G.EscapedQuoteLines(quote.lines));
    SafeLinesContribute(G.QuoteLines(quote));
  }

  // ----- Body fields -----

  lemma BlockIsNeutral(item: BodyItem)
    requires !item.Bullet? && N.ValidItem(item)
    ensures IsNeutral(G.BlockText(item))
  {
    hide Contributes, P.Canonical, P.ParagraphText, G.TopLevelCode, G.QuoteText, Tables.TableText, ValidCode, ValidTable, ValidQuote;
    match item
    case Paragraph(lines) => ParagraphIsNeutral(lines);
    case CodeItem(code) => CodeIsNeutral(code);
    case TableItem(table) => TableIsNeutral(table);
    case QuoteItem(quote) => QuoteIsNeutral(quote);
  }

  ghost predicate ValidGroups(groups: seq<seq<BodyItem>>) {
    groups != [] ==> N.ValidItems(groups[0]) && ValidGroups(groups[1..])
  }

  lemma {:induction false} ValidSplit(a: seq<BodyItem>, b: seq<BodyItem>)
    requires N.ValidItems(a + b)
    ensures N.ValidItems(a) && N.ValidItems(b)
  {
    hide N.ValidItem;
    if a == [] {
      assert a + b == b;
    } else {
      assert (a + b)[1..] == a[1..] + b;
      ValidSplit(a[1..], b);
    }
  }

  lemma {:induction false} GroupsAreValid(groups: seq<seq<BodyItem>>)
    requires N.ValidItems(G.Flatten(groups))
    ensures ValidGroups(groups)
  {
    hide N.ValidItem;
    if groups != [] {
      ValidSplit(groups[0], G.Flatten(groups[1..]));
      GroupsAreValid(groups[1..]);
    }
  }

  lemma GroupIsNeutral(group: seq<BodyItem>)
    requires G.IsGroup(group) && N.ValidItems(group)
    ensures IsNeutral(G.GroupText(group))
  {
    hide Contributes, N.ValidItem, G.BlockText, SafeLine;
    if group[0].Bullet? {
      BulletRunIsSafe(group);
      SafeLinesContribute(L.BulletLines(group));
    } else {
      BlockIsNeutral(group[0]);
    }
  }

  lemma {:induction false} GroupTextsAreNeutral(groups: seq<seq<BodyItem>>)
    requires G.Grouped(groups) && ValidGroups(groups)
    ensures AllNeutral(G.GroupTexts(groups))
  {
    hide Contributes, G.GroupText, N.ValidItems, G.IsGroup;
    if groups != [] {
      GroupIsNeutral(groups[0]);
      GroupTextsAreNeutral(groups[1..]);
    }
  }

  lemma BodyIsNeutral(items: seq<BodyItem>)
    requires items != [] && N.ValidItems(items)
    ensures IsNeutral(G.BodyText(items))
  {
    hide Contributes, G.GroupTexts, G.Grouped, N.ValidItems, G.Flatten, ValidGroups;
    G.GroupsAreGrouped(items);
    GroupsAreValid(G.Groups(items));
    GroupTextsAreNeutral(G.Groups(items));
    TextsExist(items);
    NeutralJoin(G.Texts(items), true);
  }

  lemma TextsExist(items: seq<BodyItem>)
    requires items != []
    ensures G.Texts(items) != []
  {
    G.GroupsAreGrouped(items);
  }

  // ----- Steps -----

  /** Indentation changes nothing for a reader of cores. */
  lemma {:induction false} IndentedCores(lines: seq<string>, indent: string)
    requires forall i :: 0 <= i < |indent| ==> indent[i] == ' '
    ensures Cores(Fence.Indent(lines, indent)) == Cores(lines)
  {
    hide Core;
    if lines != [] {
      IndentedCore(indent, lines[0]);
      IndentedCores(lines[1..], indent);
      assert Fence.Indent(lines, indent)[1..] == Fence.Indent(lines[1..], indent);
    }
  }

  predicate InertLines(lines: seq<string>) {
    lines != [] ==> Inert(lines[0]) && InertLines(lines[1..])
  }

  lemma {:induction false} InertLinesScan(lines: seq<string>)
    requires InertLines(lines)
    ensures ScanLines(lines, Outside) == Scan([], Outside)
  {
    hide Opens, IsHeading;
    if lines != [] {
      InertLinesScan(lines[1..]);
    }
  }

  lemma {:induction false} IndentedIsInert(lines: seq<string>, indent: string)
    requires indent != "" && indent[0] == ' '
    ensures InertLines(Fence.Indent(lines, indent))
  {
    hide Inert;
    if lines != [] {
      InertStartIsInert(if lines[0] == "" then "" else indent + lines[0]);
      IndentedIsInert(lines[1..], indent);
    }
  }

  /** Lines that contribute nothing contribute nothing behind an indentation: the one reader sees blanks, the other the same cores. */
  lemma IndentedYields(lines: seq<string>, indent: string)
    requires indent != "" && (forall i :: 0 <= i < |indent| ==> indent[i] == ' ') && Yields(lines, [])
    ensures Yields(Fence.Indent(lines, indent), [])
  {
    hide Core, ScanLines, InertLines;
    IndentedCores(lines, indent);
    IndentedIsInert(lines, indent);
    InertLinesScan(Fence.Indent(lines, indent));
  }

  lemma NeutralYields(text: string)
    requires IsNeutral(text)
    ensures Yields(Lines(text), [])
  {
    hide Yields;
  }

  /** The lines of one part of a step, as if they stood at the left margin. */
  lemma PartYields(part: StepPart)
    requires S.ValidPart(part)
    ensures Yields(S.PartLines(part), [])
  {
    hide Yields, EscapeBlockStart, ValidText, ValidCode, ValidTable, ValidQuote, Fence.FenceLines, Fence.CaptionLines, SafeLines, SafeLine,
      Contributes, Lines;
    match part
    case StepText(content) => StepTextIsSafe(content); OneLineYields(EscapeBlockStart(content));
    case CodePart(code) => CaptionedCodeYields(code);
    case TablePart(table) => TableIsNeutral(table); NeutralYields(Tables.TableText(table));
    case QuotePart(quote) => QuoteIsNeutral(quote); NeutralYields(G.QuoteText(quote));
  }

  lemma StepTextIsSafe(content: string)
    requires ValidText(content)
    ensures SafeLine(EscapeBlockStart(content))
  {
    hide EscapeBlockStart, SafeLine;
    TextStartsVisibly(content);
    EscapedIsSafe(content);
  }

  lemma {:induction false} LaterYields(parts: S.Step)
    requires S.ValidParts(parts)
    ensures Yields(S.LaterLines(parts), [])
  {
    hide Yields, S.PartLines, S.ValidPart, SafeLine;
    if parts == [] {
      NoLinesYield();
    } else {
      PlainStartIsSafe("");
      OneLineYields("");
      PartYields(parts[0]);
      LaterYields(parts[1..]);
      NothingBelow([""], S.PartLines(parts[0]));
      NothingBelow([""] + S.PartLines(parts[0]), S.LaterLines(parts[1..]));
    }
  }

  lemma NoLinesYield()
    ensures Yields([], [])
  {
  }

  lemma StepLinesYield(number: nat, step: S.Step)
    requires step != [] && step[0].StepText? && S.ValidParts(step)
    ensures Yields(S.StepLines(number, step), [])
  {
    hide SafeLine, EscapeBlockStart, S.LaterLines, Yields, ValidText, Core;
    var text := EscapeBlockStart(step[0].content);
    var line := S.StepMarker(number) + text;
    var indent := S.Spaces(|S.StepMarker(number)|);
    StepTextIsSafe(step[0].content);
    DecimalRoundTrip(number);
    NumberCore(Decimal(number), text);
    assert Decimal(number) + ". " + text == line;
    assert IsAsciiDigit(Decimal(number)[0]);
    WrappedIsSafe(line, text);
    OneLineYields(line);
    LaterYields(step[1..]);
    IndentedYields(S.LaterLines(step[1..]), indent);
    NothingBelow([line], Fence.Indent(S.LaterLines(step[1..]), indent));
  }

  lemma {:induction false} AllStepLinesYield(steps: seq<S.Step>, number: nat)
    requires S.ValidSteps(steps)
    ensures Yields(S.AllStepLines(steps, number), [])
  {
    hide Yields, S.StepLines, S.ValidParts;
    if steps == [] {
      NoLinesYield();
    } else {
      StepLinesYield(number, steps[0]);
      AllStepLinesYield(steps[1..], number + 1);
      NothingBelow(S.StepLines(number, steps[0]), S.AllStepLines(steps[1..], number + 1));
    }
  }

  lemma StepsAreNeutral(steps: seq<S.Step>)
    requires S.ValidSteps(steps) && steps != []
    ensures IsNeutral(S.StepsText(steps))
  {
    hide Yields, S.StepTexts, S.AllStepLines, S.ValidSteps;
    S.StepTextLines(steps, 1);
    AllStepLinesYield(steps, 1);
    var lines := S.AllStepLines(steps, 1);
    assert lines != [] by { S.AllStepsRead(steps, 1); }
    JoinSplit(S.StepsText(steps), '\n');
    NoReturns(lines);
  }
}
