/** What normalisation guarantees: every block it lets through is in the shape the printers rely on. */
module Normalised {
  import opened Text
  import opened Escape
  import opened Blocks
  import opened FlatLines
  import P = Paragraph
  import Fence
  import Tables
  import B = BodyItems
  import S = Steps

  // ----- What the schema has checked before: callout names, and at least one header -----

  predicate SchemaBlock(block: BodyBlock) {
    match block
    case BodyTable(table) => table.headers != []
    case BodyQuote(quote) => ValidCallout(quote.callout)
    case _ => true
  }

  predicate SchemaBlocks(blocks: seq<BodyBlock>) {
    blocks != [] ==> SchemaBlock(blocks[0]) && SchemaBlocks(blocks[1..])
  }

  predicate SchemaPart(block: StepBlock) {
    match block
    case StepTable(table) => table.headers != []
    case StepQuote(quote) => ValidCallout(quote.callout)
    case _ => true
  }

  predicate SchemaParts(blocks: seq<StepBlock>) {
    blocks != [] ==> SchemaPart(blocks[0]) && SchemaParts(blocks[1..])
  }

  predicate SchemaSteps(steps: seq<seq<StepBlock>>) {
    steps != [] ==> SchemaParts(steps[0]) && SchemaSteps(steps[1..])
  }

  // ----- Valid items -----

  predicate ValidItem(item: BodyItem) {
    match item
    case Paragraph(lines) => lines != [] && P.Canonical(lines)
    case Bullet(content, _, _, _) => ValidText(content)
    case CodeItem(code) => ValidCode(code)
    case TableItem(table) => ValidTable(table)
    case QuoteItem(quote) => ValidQuote(quote)
  }

  predicate ValidItems(items: seq<BodyItem>) {
    items != [] ==> ValidItem(items[0]) && ValidItems(items[1..])
  }

  lemma OptionalLineIsValid(value: Option<string>)
    ensures ValidCaption(Tables.OptionalLine(value))
  {
    hide OneLine, IsLine;
    if value.Some? {
      OneLineIsLine(value.value);
    }
  }

  lemma CodeIsValid(code: CodeBlock)
    ensures B.NormalCode(code).Some? ==> ValidCode(B.NormalCode(code).value)
  {
    hide Fence.CanonicaliseCode, Fence.CodeText, ValidCaption, Tables.OptionalLine;
    Fence.CanonicalCodeIsText(code.content);
    OptionalLineIsValid(code.caption);
  }

  lemma {:induction false} NonEmptyLinesAreValid(values: seq<string>)
    ensures ValidTexts(B.NonEmptyLines(values))
  {
    hide OneLine, IsLine;
    if values != [] {
      OneLineIsLine(values[0]);
      NonEmptyLinesAreValid(values[1..]);
      var rest := B.NonEmptyLines(values[1..]);
      assert ([OneLine(values[0])] + rest)[1..] == rest;
      assert [] + rest == rest;
    }
  }

  lemma QuoteIsValid(quote: QuoteBlock)
    requires ValidCallout(quote.callout)
    ensures var r := B.NormalQuote(quote); r.Ok? && r.value.Some? ==> ValidQuote(r.value.value)
  {
    hide ValidCallout, ValidTexts, ValidCaption, Tables.OptionalLine, B.NonEmptyLines;
    NonEmptyLinesAreValid(quote.lines);
    OptionalLineIsValid(quote.title);
  }

  lemma TableIsValid(table: TableBlock)
    requires table.headers != []
    ensures Tables.NormalTable(table).Ok? ==> ValidTable(Tables.NormalTable(table).value)
  {
    hide OneLine, IsLine, Tables.WellFormed;
    Tables.TableAcceptance(table);
  }

  lemma ItemIsValid(block: BodyBlock, index: nat)
    requires SchemaBlock(block)
    ensures var r := B.NormalItem(block, index); r.Ok? && r.value.Some? ==> ValidItem(r.value.value)
  {
    hide OneLine, IsLine, ValidCode, ValidTable, ValidQuote, ValidCallout, Tables.NormalTable, B.NormalCode, B.NormalQuote,
      P.CanonicalLines, P.Canonical;
    match block
    case ParagraphBlock(content) => P.CanonicalLinesAreCanonical(content);
    case BulletBlock(content, _, _) => OneLineIsLine(content);
    case BodyCode(code) => CodeIsValid(code);
    case BodyTable(table) => TableIsValid(table);
    case BodyQuote(quote) => QuoteIsValid(quote);
  }

  lemma {:induction false} ItemsAreValid(blocks: seq<BodyBlock>, index: nat, previous: Option<nat>)
    requires SchemaBlocks(blocks)
    ensures var r := B.NormalItems(blocks, index, previous);
      r.Ok? ==> ValidItems(r.value) && B.NestsFrom(r.value, previous)
  {
    hide B.NormalItem, ValidItem, SchemaBlock;
    if blocks != [] {
      ItemIsValid(blocks[0], index);
      var item := B.NormalItem(blocks[0], index);
      var next := if item.Ok? && item.value.Some? then B.DepthAfter(item.value.value) else previous;
      ItemsAreValid(blocks[1..], index + 1, next);
      var r := B.NormalItems(blocks, index, previous);
      if r.Ok? && item.value.Some? {
        assert r.value[1..] == B.NormalItems(blocks[1..], index + 1, next).value;
      }
    }
  }

  // ----- Valid steps -----

  lemma PartIsValid(block: StepBlock)
    requires SchemaPart(block)
    ensures var r := S.NormalPart(block); r.Ok? && r.value.Some? ==> S.ValidPart(r.value.value)
  {
    hide OneLine, IsLine, ValidCode, ValidTable, ValidQuote, ValidCallout, Tables.NormalTable, B.NormalCode, B.NormalQuote;
    match block
    case TextBlock(content) => OneLineIsLine(content);
    case StepCode(code) => CodeIsValid(code);
    case StepTable(table) => TableIsValid(table);
    case StepQuote(quote) => QuoteIsValid(quote);
  }

  lemma {:induction false} PartsAreValid(blocks: seq<StepBlock>)
    requires SchemaParts(blocks)
    ensures S.NormalParts(blocks).Ok? ==> S.ValidParts(S.NormalParts(blocks).value)
  {
    hide S.NormalPart, S.ValidPart, SchemaPart;
    if blocks != [] {
      PartIsValid(blocks[0]);
      PartsAreValid(blocks[1..]);
      var part, r := S.NormalPart(blocks[0]), S.NormalParts(blocks);
      if r.Ok? {
        var rest := S.NormalParts(blocks[1..]).value;
        assert [] + rest == rest;
        assert part.value.Some? ==> ([part.value.value] + rest)[1..] == rest;
      }
    }
  }

  /** The surviving parts of every step, the steps without any left out. */
  function SurvivingSteps(steps: seq<seq<StepBlock>>): seq<S.Step> {
    if steps == [] then []
    else
      var parts := S.NormalParts(steps[0]);
      (if parts.Ok? && parts.value != [] then [parts.value] else []) + SurvivingSteps(steps[1..])
  }

  /** Every block of every step is well formed, and what survives of a step starts with text. */
  predicate StepsStartWithText(steps: seq<seq<StepBlock>>) {
    steps != [] ==>
      && S.NormalParts(steps[0]).Ok?
      && (S.NormalParts(steps[0]).value != [] ==> S.NormalParts(steps[0]).value[0].StepText?)
      && StepsStartWithText(steps[1..])
  }

  /**
   * Steps are accepted exactly when every block is well formed and every surviving step starts with a text block;
   * the result is the surviving steps in order, in the shape the printer needs.
   */
  lemma {:induction false} StepsAcceptance(steps: seq<seq<StepBlock>>, index: nat)
    ensures S.NormalSteps(steps, index).Ok? <==> StepsStartWithText(steps)
    ensures S.NormalSteps(steps, index).Ok? ==> S.NormalSteps(steps, index).value == SurvivingSteps(steps)
    ensures S.NormalSteps(steps, index).Ok? && SchemaSteps(steps) ==> S.ValidSteps(S.NormalSteps(steps, index).value)
  {
    hide S.NormalParts, S.ValidParts, SchemaParts;
    if steps != [] {
      StepsAcceptance(steps[1..], index + 1);
      var r, rest := S.NormalSteps(steps, index), S.NormalSteps(steps[1..], index + 1);
      if r.Ok? {
        if SchemaSteps(steps) {
          PartsAreValid(steps[0]);
        }
        assert [] + rest.value == rest.value;
        var parts := S.NormalParts(steps[0]).value;
        assert parts != [] ==> ([parts] + rest.value)[1..] == rest.value;
      }
    }
  }
}
