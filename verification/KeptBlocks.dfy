/** What normalisation keeps of every block a client sends: all that is visible, and every mark beside it. */
module KeptBlocks {
  import opened Text
  import opened Escape
  import opened Blocks
  import opened FlatLines
  import opened VisibleText
  import P = Paragraph
  import Fence
  import Tables
  import B = BodyItems
  import S = Steps

  // ----- Visible text, field by field -----

  function Inks(texts: seq<string>): (r: seq<string>)
    ensures |r| == |texts|
  {
    if texts == [] then [] else [Ink(texts[0])] + Inks(texts[1..])
  }

  function RowInks(rows: seq<seq<string>>): seq<seq<string>> {
    if rows == [] then [] else [Inks(rows[0])] + RowInks(rows[1..])
  }

  function OptionalInk(text: Option<string>): string {
    if text.Some? then Ink(text.value) else ""
  }

  function WithoutEmpty(texts: seq<string>): seq<string> {
    if texts == [] then [] else (if texts[0] == "" then [] else [texts[0]]) + WithoutEmpty(texts[1..])
  }

  lemma LineWithoutInk(s: string)
    requires IsLine(s)
    ensures Ink(s) == "" <==> s == ""
  {
    hide IsLineBreak, IsControl, IsSpace;
    if s != "" {
      assert s[0] in s;
      VisibleStart(s);
    } else {
      SpaceHasNoInk();
    }
  }

  lemma VisibleStart(s: string)
    requires s != "" && !IsSpace(s[0]) && !IsControl(s[0])
    ensures Ink(s) != ""
  {
    hide IsSpace, IsControl;
  }

  /** A text leaves no line exactly if there is nothing to see in it. */
  lemma LineIsEmpty(s: string)
    ensures OneLine(s) == "" <==> Ink(s) == ""
  {
    hide OneLine, IsLine, Ink;
    OneLineIsLine(s);
    OneLineKeepsInk(s);
    LineWithoutInk(OneLine(s));
  }

  lemma OptionalLineKeepsInk(text: Option<string>)
    ensures OptionalInk(Tables.OptionalLine(text)) == OptionalInk(text)
  {
    hide OneLine, Ink;
    if text.Some? {
      LineIsEmpty(text.value);
      OneLineKeepsInk(text.value);
    }
  }

  lemma {:induction false} LinesKeepInks(texts: seq<string>)
    ensures Inks(Tables.OneLines(texts)) == Inks(texts)
  {
    hide OneLine, Ink;
    if texts != [] {
      OneLineKeepsInk(texts[0]);
      LinesKeepInks(texts[1..]);
      assert Tables.OneLines(texts)[1..] == Tables.OneLines(texts[1..]);
    }
  }

  lemma {:induction false} RowsKeepInks(rows: seq<seq<string>>)
    ensures RowInks(Tables.OneLineRows(rows)) == RowInks(rows)
  {
    hide Inks, Tables.OneLines;
    if rows != [] {
      LinesKeepInks(rows[0]);
      RowsKeepInks(rows[1..]);
      assert Tables.OneLineRows(rows)[1..] == Tables.OneLineRows(rows[1..]);
    }
  }

  lemma {:induction false} NonEmptyKeepInks(texts: seq<string>)
    ensures Inks(B.NonEmptyLines(texts)) == WithoutEmpty(Inks(texts))
  {
    hide OneLine, Ink;
    if texts != [] {
      LineIsEmpty(texts[0]);
      OneLineKeepsInk(texts[0]);
      NonEmptyKeepInks(texts[1..]);
      var rest := B.NonEmptyLines(texts[1..]);
      assert Inks(texts)[1..] == Inks(texts[1..]);
      assert ([OneLine(texts[0])] + rest)[1..] == rest && [] + rest == rest;
    }
  }

  // ----- Blocks -----

  lemma ParagraphIsEmpty(content: string)
    ensures P.CanonicalLines(content) == [] <==> Ink(content) == ""
  {
    hide P.CanonicalLines, Ink, P.CleanLines, P.Outdented;
    P.CanonicalLinesAreCanonical(content);
    ParagraphKeepsInk(content);
    SpaceHasNoInk();
    var lines := P.CanonicalLines(content);
    if lines != [] {
      JoinedInk(lines);
      CleanLineHasInk(lines);
    }
  }

  lemma CleanLineHasInk(lines: seq<string>)
    requires lines != [] && lines[0] != "" && P.CleanLines(lines)
    ensures LinesInk(lines) != ""
  {
    hide IsSpace, IsLineBreak, Ink;
    var line := lines[0];
    var last := |line| - 1;
    assert P.CleanLine(line) && line[last] in line;
    ControlsAreSpaces(line[last]);
    assert line == line[..last] + [line[last]];
    InkConcat(line[..last], [line[last]]);
    VisibleStart([line[last]]);
  }

  lemma ControlsAreSpaces(c: char)
    requires !IsSpace(c) && !IsCodeControl(c)
    ensures !IsControl(c)
  {
  }

  lemma CodeIsEmpty(content: string)
    ensures Strip(Fence.CanonicaliseCode(content)) == "" <==> Ink(content) == ""
  {
    hide Fence.CanonicaliseCode, Strip, Ink, IsCodeControl, IsSpace;
    var code := Fence.CanonicaliseCode(content);
    CodeKeepsInk(content);
    Fence.CanonicalCodeIsText(content);
    StripKeepsInk(code);
    StripTrims(code);
    SpaceHasNoInk();
    if Strip(code) != "" {
      assert Strip(code)[0] in code;
      ControlsAreSpaces(Strip(code)[0]);
      VisibleStart(Strip(code));
    }
  }

  lemma {:induction false} NothingVisible(texts: seq<string>)
    ensures WithoutEmpty(Inks(texts)) == [] <==> forall i :: 0 <= i < |texts| ==> Ink(texts[i]) == ""
  {
    hide Ink;
    if texts != [] {
      NothingVisible(texts[1..]);
      assert Inks(texts)[1..] == Inks(texts[1..]);
      assert forall i :: 0 < i < |texts| ==> texts[i] == texts[1..][i - 1];
    }
  }

  /** There is something to see in the block; a table's grid always counts as something. */
  ghost predicate HasInk(block: BodyBlock) {
    match block
    case ParagraphBlock(content) => Ink(content) != ""
    case BulletBlock(content, _, _) => Ink(content) != ""
    case BodyCode(code) => Ink(code.content) != ""
    case BodyTable(_) => true
    case BodyQuote(quote) => exists i :: 0 <= i < |quote.lines| && Ink(quote.lines[i]) != ""
  }

  ghost predicate KeepsCode(sent: CodeBlock, code: Code) {
    code.language == sent.language && OptionalInk(code.caption) == OptionalInk(sent.caption) && Ink(code.content) == Ink(sent.content)
  }

  ghost predicate KeepsTable(sent: TableBlock, table: Table) {
    && table.alignments == sent.alignments && OptionalInk(table.caption) == OptionalInk(sent.caption)
    && Inks(table.headers) == Inks(sent.headers) && RowInks(table.rows) == RowInks(sent.rows)
  }

  ghost predicate KeepsQuote(sent: QuoteBlock, quote: Quote) {
    && quote.callout == sent.callout && OptionalInk(quote.title) == OptionalInk(sent.title)
    && Inks(quote.lines) == WithoutEmpty(Inks(sent.lines))
  }

  /** The item is the block: its visible text in place, its depth, checkbox, language, callout and alignments. */
  ghost predicate Keeps(sent: BodyBlock, item: BodyItem, index: nat) {
    match sent
    case ParagraphBlock(content) => item.Paragraph? && Ink(Join(item.lines, "\n")) == Ink(content)
    case BulletBlock(content, depth, checked) =>
      item.Bullet? && Ink(item.content) == Ink(content) && item.depth == depth && item.checked == checked && item.sourceIndex == index
    case BodyCode(code) => item.CodeItem? && KeepsCode(code, item.code)
    case BodyTable(table) => item.TableItem? && KeepsTable(table, item.table)
    case BodyQuote(quote) => item.QuoteItem? && KeepsQuote(quote, item.quote)
  }

  lemma CodeIsKept(sent: CodeBlock)
    ensures B.NormalCode(sent).None? <==> Ink(sent.content) == ""
    ensures B.NormalCode(sent).Some? ==> KeepsCode(sent, B.NormalCode(sent).value)
  {
    hide Fence.CanonicaliseCode, Strip, Ink, OptionalInk, Tables.OptionalLine;
    CodeIsEmpty(sent.content);
    CodeKeepsInk(sent.content);
    OptionalLineKeepsInk(sent.caption);
  }

  lemma TableIsKept(sent: TableBlock)
    ensures Tables.NormalTable(sent).Ok? ==> KeepsTable(sent, Tables.NormalTable(sent).value)
  {
    hide Inks, RowInks, OptionalInk, Tables.OptionalLine, Tables.OneLines, Tables.OneLineRows;
    OptionalLineKeepsInk(sent.caption);
    LinesKeepInks(sent.headers);
    RowsKeepInks(sent.rows);
  }

  lemma QuoteIsKept(sent: QuoteBlock)
    ensures var r := B.NormalQuote(sent);
      && (r == Ok(None) ==> forall i :: 0 <= i < |sent.lines| ==> Ink(sent.lines[i]) == "")
      && (r.Ok? && r.value.Some? ==>
          KeepsQuote(sent, r.value.value) && exists i :: 0 <= i < |sent.lines| && Ink(sent.lines[i]) != "")
  {
    hide Inks, Ink, WithoutEmpty, OptionalInk, Tables.OptionalLine, B.NonEmptyLines;
    OptionalLineKeepsInk(sent.title);
    NonEmptyKeepInks(sent.lines);
    NothingVisible(sent.lines);
    NoInks(B.NonEmptyLines(sent.lines));
  }

  lemma NoInks(texts: seq<string>)
    ensures Inks(texts) == [] <==> texts == []
  {
    hide Ink;
  }

  /** Every block on its own: dropped exactly if there is nothing to see in it, and kept whole otherwise. */
  lemma BlockIsKept(sent: BodyBlock, index: nat)
    ensures var r := B.NormalItem(sent, index);
      && (r == Ok(None) ==> !HasInk(sent))
      && (r.Ok? && r.value.Some? ==> HasInk(sent) && Keeps(sent, r.value.value, index))
  {
    hide OneLine, Ink, P.CanonicalLines, B.NormalCode, B.NormalQuote, Tables.NormalTable, KeepsCode, KeepsTable, KeepsQuote;
    match sent
    case ParagraphBlock(content) =>
      ParagraphIsEmpty(content);
      ParagraphKeepsInk(content);
    case BulletBlock(content, _, _) =>
      LineIsEmpty(content);
      OneLineKeepsInk(content);
    case BodyCode(code) => CodeIsKept(code);
    case BodyTable(table) => TableIsKept(table);
    case BodyQuote(quote) => QuoteIsKept(quote);
  }

  /** The items are the blocks with something to see in them, each kept whole, in the client's order. */
  ghost predicate KeepsAll(sent: seq<BodyBlock>, items: seq<BodyItem>, index: nat) {
    if sent == [] then items == []
    else if !HasInk(sent[0]) then KeepsAll(sent[1..], items, index + 1)
    else items != [] && Keeps(sent[0], items[0], index) && KeepsAll(sent[1..], items[1..], index + 1)
  }

  /** What a body field keeps: every block with something to see in it. */
  lemma {:induction false} FieldIsKept(sent: seq<BodyBlock>, index: nat, previous: Option<nat>)
    ensures var r := B.NormalItems(sent, index, previous); r.Ok? ==> KeepsAll(sent, r.value, index)
  {
    hide B.NormalItem, HasInk, Keeps;
    if sent != [] {
      BlockIsKept(sent[0], index);
      var item := B.NormalItem(sent[0], index);
      var next := if item.Ok? && item.value.Some? then B.DepthAfter(item.value.value) else previous;
      FieldIsKept(sent[1..], index + 1, next);
      var r := B.NormalItems(sent, index, previous);
      if r.Ok? && item.value.Some? {
        assert r.value[1..] == B.NormalItems(sent[1..], index + 1, next).value;
      }
    }
  }

  // ----- Steps -----

  ghost predicate PartHasInk(block: StepBlock) {
    match block
    case TextBlock(content) => Ink(content) != ""
    case StepCode(code) => Ink(code.content) != ""
    case StepTable(_) => true
    case StepQuote(quote) => exists i :: 0 <= i < |quote.lines| && Ink(quote.lines[i]) != ""
  }

  ghost predicate KeepsPart(sent: StepBlock, part: StepPart) {
    match sent
    case TextBlock(content) => part.StepText? && Ink(part.content) == Ink(content)
    case StepCode(code) => part.CodePart? && KeepsCode(code, part.code)
    case StepTable(table) => part.TablePart? && KeepsTable(table, part.table)
    case StepQuote(quote) => part.QuotePart? && KeepsQuote(quote, part.quote)
  }

  lemma PartIsKept(sent: StepBlock)
    ensures var r := S.NormalPart(sent);
      && (r == Ok(None) ==> !PartHasInk(sent))
      && (r.Ok? && r.value.Some? ==> PartHasInk(sent) && KeepsPart(sent, r.value.value))
  {
    hide OneLine, Ink, B.NormalCode, B.NormalQuote, Tables.NormalTable, KeepsCode, KeepsTable, KeepsQuote;
    match sent
    case TextBlock(content) =>
      LineIsEmpty(content);
      OneLineKeepsInk(content);
    case StepCode(code) => CodeIsKept(code);
    case StepTable(table) => TableIsKept(table);
    case StepQuote(quote) => QuoteIsKept(quote);
  }

  ghost predicate KeepsParts(sent: seq<StepBlock>, parts: S.Step) {
    if sent == [] then parts == []
    else if !PartHasInk(sent[0]) then KeepsParts(sent[1..], parts)
    else parts != [] && KeepsPart(sent[0], parts[0]) && KeepsParts(sent[1..], parts[1..])
  }

  lemma {:induction false} PartsAreKept(sent: seq<StepBlock>)
    ensures S.NormalParts(sent).Ok? ==> KeepsParts(sent, S.NormalParts(sent).value)
  {
    hide S.NormalPart, PartHasInk, KeepsPart;
    if sent != [] {
      PartIsKept(sent[0]);
      PartsAreKept(sent[1..]);
      var part, r := S.NormalPart(sent[0]), S.NormalParts(sent);
      if r.Ok? {
        var rest := S.NormalParts(sent[1..]).value;
        assert [] + rest == rest;
        assert part.value.Some? ==> r.value[1..] == rest;
      }
    }
  }

  ghost predicate StepHasInk(sent: seq<StepBlock>) {
    exists i :: 0 <= i < |sent| && PartHasInk(sent[i])
  }

  /** The steps are the client's steps with something to see in them, in order. */
  ghost predicate KeepsSteps(sent: seq<seq<StepBlock>>, steps: seq<S.Step>) {
    if sent == [] then steps == []
    else if !StepHasInk(sent[0]) then KeepsSteps(sent[1..], steps)
    else steps != [] && KeepsParts(sent[0], steps[0]) && KeepsSteps(sent[1..], steps[1..])
  }

  lemma {:induction false} EmptyStep(sent: seq<StepBlock>, parts: S.Step)
    requires KeepsParts(sent, parts)
    ensures parts == [] <==> !StepHasInk(sent)
  {
    hide PartHasInk, KeepsPart;
    if sent != [] {
      if PartHasInk(sent[0]) {
        assert StepHasInk(sent);
      } else {
        EmptyStep(sent[1..], parts);
        if i :| 0 <= i < |sent| && PartHasInk(sent[i]) {
          assert PartHasInk(sent[1..][i - 1]);
        }
        if i :| 0 <= i < |sent[1..]| && PartHasInk(sent[1..][i]) {
          assert PartHasInk(sent[i + 1]);
        }
      }
    }
  }

  lemma {:induction false} StepsAreKept(sent: seq<seq<StepBlock>>, index: nat)
    ensures S.NormalSteps(sent, index).Ok? ==> KeepsSteps(sent, S.NormalSteps(sent, index).value)
  {
    hide S.NormalParts, KeepsParts, StepHasInk;
    if sent != [] {
      PartsAreKept(sent[0]);
      StepsAreKept(sent[1..], index + 1);
      var r := S.NormalSteps(sent, index);
      if r.Ok? {
        var parts, rest := S.NormalParts(sent[0]).value, S.NormalSteps(sent[1..], index + 1).value;
        EmptyStep(sent[0], parts);
        assert [] + rest == rest;
        assert parts != [] ==> r.value[1..] == rest;
      }
    }
  }

  // ----- Blocks in normal form come back as they are -----

  /** The block a client sends to get this item. */
  function Resend(item: BodyItem): BodyBlock {
    match item
    case Paragraph(lines) => ParagraphBlock(Join(lines, "\n"))
    case Bullet(content, depth, checked, _) => BulletBlock(content, depth, checked)
    case CodeItem(code) => BodyCode(CodeBlock(code.language, code.caption, code.content + "\n"))
    case TableItem(table) => BodyTable(TableBlock(table.caption, table.headers, table.alignments, table.rows))
    case QuoteItem(quote) => BodyQuote(QuoteBlock(quote.callout, quote.title, quote.lines))
  }

  /** An item the normaliser could have made. */
  predicate Normal(item: BodyItem) {
    match item
    case Paragraph(lines) => lines != [] && P.Canonical(lines)
    case Bullet(content, _, _, _) => ValidText(content)
    case CodeItem(code) => ValidCode(code) && '\r' !in code.content && Strip(code.content) != ""
    case TableItem(table) => Tables.WellFormed(table)
    case QuoteItem(quote) =>
      ValidTexts(quote.lines) && quote.lines != [] && ValidCaption(quote.title) && (quote.title.Some? ==> quote.callout.Some?)
  }

  lemma LineStays(s: string)
    requires IsLine(s)
    ensures OneLine(s) == s
  {
    LineIsFixed(s);
  }

  lemma CaptionStays(caption: Option<string>)
    requires ValidCaption(caption)
    ensures Tables.OptionalLine(caption) == caption
  {
    hide OneLine, IsLine;
    if caption.Some? {
      LineStays(caption.value);
    }
  }

  lemma {:induction false} LinesStay(lines: seq<string>)
    requires Tables.AllLines(lines)
    ensures Tables.OneLines(lines) == lines
  {
    hide OneLine, IsLine;
    if lines != [] {
      LineStays(lines[0]);
      LinesStay(lines[1..]);
      assert lines == [lines[0]] + lines[1..];
    }
  }

  lemma {:induction false} RowsStay(rows: seq<seq<string>>)
    requires Tables.AllRowLines(rows)
    ensures Tables.OneLineRows(rows) == rows
  {
    hide Tables.AllLines, Tables.OneLines;
    if rows != [] {
      LinesStay(rows[0]);
      RowsStay(rows[1..]);
      assert rows == [rows[0]] + rows[1..];
    }
  }

  lemma {:induction false} TextsStay(texts: seq<string>)
    requires ValidTexts(texts)
    ensures B.NonEmptyLines(texts) == texts
  {
    hide OneLine, IsLine;
    if texts != [] {
      LineStays(texts[0]);
      TextsStay(texts[1..]);
      assert texts == [texts[0]] + texts[1..];
    }
  }

  lemma TableStays(table: Table)
    requires Tables.WellFormed(table)
    ensures Tables.NormalTable(TableBlock(table.caption, table.headers, table.alignments, table.rows)) == Ok(table)
  {
    hide OneLine, IsLine, Tables.OneLines, Tables.OneLineRows, Tables.AllLines, Tables.AllRowLines, Tables.OptionalLine;
    var block := TableBlock(table.caption, table.headers, table.alignments, table.rows);
    LinesStay(table.headers);
    RowsStay(table.rows);
    CaptionStays(table.caption);
    Tables.TableAcceptance(block);
  }

  lemma CodeStays(code: Code)
    requires ValidCode(code) && '\r' !in code.content && Strip(code.content) != ""
    ensures B.NormalCode(CodeBlock(code.language, code.caption, code.content + "\n")) == Some(code)
  {
    hide Fence.CanonicaliseCode, Strip, Fence.CodeText, ValidCaption, Tables.OptionalLine;
    VisibleText.CodeIsKept(code.content);
    CaptionStays(code.caption);
  }

  /** Sent again, every item comes back with all its fields. */
  lemma ItemComesBack(item: BodyItem, index: nat)
    requires Normal(item)
    ensures B.NormalItem(Resend(item), index) == Ok(Some(if item.Bullet? then item.(sourceIndex := index) else item))
  {
    hide OneLine, IsLine, P.CanonicalLines, P.Canonical, Tables.WellFormed, Tables.NormalTable, ValidCode, Strip, B.NormalCode, ValidCaption,
      ValidTexts, B.NonEmptyLines, Tables.OptionalLine;
    match item
    case Paragraph(lines) => P.CanonicalIsFixed(lines);
    case Bullet(content, _, _, _) => LineStays(content);
    case CodeItem(code) => CodeStays(code);
    case TableItem(table) => TableStays(table);
    case QuoteItem(quote) =>
      TextsStay(quote.lines);
      CaptionStays(quote.title);
  }
}
