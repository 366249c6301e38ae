/** What the shared budget counts: the length of every text inside a rich block, each exactly once. */
module Charges {
  import opened Text
  import opened Blocks
  import opened Note
  import opened Budget
  import S = Steps

  // ----- The texts inside rich blocks, one by one -----

  function OptionalText(text: Option<string>): seq<string> {
    if text.Some? then [text.value] else []
  }

  function Cells(rows: seq<seq<string>>): seq<string> {
    if rows == [] then [] else rows[0] + Cells(rows[1..])
  }

  function CodeTexts(code: Code): seq<string> {
    [code.content] + OptionalText(code.caption)
  }

  function TableTexts(table: Table): seq<string> {
    OptionalText(table.caption) + table.headers + Cells(table.rows)
  }

  function QuoteTexts(quote: Quote): seq<string> {
    OptionalText(quote.title) + quote.lines
  }

  /** A paragraph is one text; a bullet is none. */
  function ItemTexts(item: BodyItem): seq<string> {
    match item
    case Paragraph(lines) => [Join(lines, "\n")]
    case Bullet(_, _, _, _) => []
    case CodeItem(code) => CodeTexts(code)
    case TableItem(table) => TableTexts(table)
    case QuoteItem(quote) => QuoteTexts(quote)
  }

  function ItemsTexts(items: seq<BodyItem>): seq<string> {
    if items == [] then [] else ItemTexts(items[0]) + ItemsTexts(items[1..])
  }

  /** The text of a step itself is none of them. */
  function PartTexts(part: StepPart): seq<string> {
    match part
    case StepText(_) => []
    case CodePart(code) => CodeTexts(code)
    case TablePart(table) => TableTexts(table)
    case QuotePart(quote) => QuoteTexts(quote)
  }

  function PartsTexts(step: S.Step): seq<string> {
    if step == [] then [] else PartTexts(step[0]) + PartsTexts(step[1..])
  }

  function StepsTexts(steps: seq<S.Step>): seq<string> {
    if steps == [] then [] else PartsTexts(steps[0]) + StepsTexts(steps[1..])
  }

  function CodeBlockTexts(codes: seq<Code>): seq<string> {
    if codes == [] then [] else CodeTexts(codes[0]) + CodeBlockTexts(codes[1..])
  }

  function FieldsTexts(bodies: map<Field, seq<BodyItem>>, fields: seq<Field>): seq<string> {
    if fields == [] then [] else ItemsTexts(BodyOf(bodies, fields[0])) + FieldsTexts(bodies, fields[1..])
  }

  function TopicsTexts(topics: seq<(string, seq<BodyItem>)>): seq<string> {
    if topics == [] then [] else ItemsTexts(topics[0].1) + TopicsTexts(topics[1..])
  }

  /** Every text inside a rich block of the export. */
  function BlockTexts(n: NormalExport): seq<string> {
    FieldsTexts(n.bodies, BODY_FIELDS) + TopicsTexts(n.topics) + StepsTexts(n.steps) + CodeBlockTexts(n.codeBlocks)
  }

  /** All of them in one. */
  function Together(texts: seq<string>): string {
    if texts == [] then "" else texts[0] + Together(texts[1..])
  }

  // ----- The charge -----

  lemma {:induction false} LengthsAdd(a: seq<string>, b: seq<string>)
    ensures |Together(a + b)| == |Together(a)| + |Together(b)|
  {
    if a == [] {
      assert a + b == b;
    } else {
      LengthsAdd(a[1..], b);
      assert (a + b)[1..] == a[1..] + b;
    }
  }

  lemma {:induction false} LinesAreCharged(lines: seq<string>)
    ensures TextChars(lines) == |Together(lines)|
  {
    if lines != [] {
      LinesAreCharged(lines[1..]);
    }
  }

  lemma {:induction false} RowsAreCharged(rows: seq<seq<string>>)
    ensures RowChars(rows) == |Together(Cells(rows))|
  {
    if rows != [] {
      LinesAreCharged(rows[0]);
      RowsAreCharged(rows[1..]);
      LengthsAdd(rows[0], Cells(rows[1..]));
    }
  }

  lemma OptionalIsCharged(text: Option<string>)
    ensures OptionalChars(text) == |Together(OptionalText(text))|
  {
    if text.Some? {
      OneText(text.value);
    }
  }

  lemma OneText(text: string)
    ensures |Together([text])| == |text|
  {
    assert [text][1..] == [];
  }

  lemma CodeIsCharged(code: Code)
    ensures CodeChars(code) == |Together(CodeTexts(code))|
  {
    hide Together, OptionalChars, OptionalText;
    OneText(code.content);
    OptionalIsCharged(code.caption);
    LengthsAdd([code.content], OptionalText(code.caption));
  }

  lemma TableIsCharged(table: Table)
    ensures TableChars(table) == |Together(TableTexts(table))|
  {
    hide Together, OptionalChars, OptionalText, TextChars, RowChars, Cells;
    OptionalIsCharged(table.caption);
    LinesAreCharged(table.headers);
    RowsAreCharged(table.rows);
    LengthsAdd(OptionalText(table.caption), table.headers);
    LengthsAdd(OptionalText(table.caption) + table.headers, Cells(table.rows));
  }

  lemma QuoteIsCharged(quote: Quote)
    ensures QuoteChars(quote) == |Together(QuoteTexts(quote))|
  {
    hide Together, OptionalChars, OptionalText, TextChars;
    OptionalIsCharged(quote.title);
    LinesAreCharged(quote.lines);
    LengthsAdd(OptionalText(quote.title), quote.lines);
  }

  lemma ItemIsCharged(item: BodyItem)
    ensures ItemChars(item) == |Together(ItemTexts(item))|
  {
    hide Together, CodeChars, TableChars, QuoteChars, CodeTexts, TableTexts, QuoteTexts, ParagraphChars, Join;
    NothingTogether();
    match item
    case Paragraph(lines) =>
      ParagraphIsChargedInFull(lines);
      OneText(Join(lines, "\n"));
    case Bullet(_, _, _, _) =>
    case CodeItem(code) => CodeIsCharged(code);
    case TableItem(table) => TableIsCharged(table);
    case QuoteItem(quote) => QuoteIsCharged(quote);
  }

  lemma NothingTogether()
    ensures Together([]) == ""
  {
  }

  lemma {:induction false} ItemsAreCharged(items: seq<BodyItem>)
    ensures ItemsChars(items) == |Together(ItemsTexts(items))|
  {
    hide Together, ItemChars, ItemTexts;
    NothingTogether();
    if items != [] {
      ItemIsCharged(items[0]);
      ItemsAreCharged(items[1..]);
      LengthsAdd(ItemTexts(items[0]), ItemsTexts(items[1..]));
    }
  }

  lemma PartIsCharged(part: StepPart)
    ensures PartChars(part) == |Together(PartTexts(part))|
  {
    hide Together, CodeChars, TableChars, QuoteChars, CodeTexts, TableTexts, QuoteTexts;
    NothingTogether();
    match part
    case StepText(_) =>
    case CodePart(code) => CodeIsCharged(code);
    case TablePart(table) => TableIsCharged(table);
    case QuotePart(quote) => QuoteIsCharged(quote);
  }

  lemma {:induction false} PartsAreCharged(step: S.Step)
    ensures StepChars(step) == |Together(PartsTexts(step))|
  {
    hide Together, PartChars, PartTexts;
    NothingTogether();
    if step != [] {
      PartIsCharged(step[0]);
      PartsAreCharged(step[1..]);
      LengthsAdd(PartTexts(step[0]), PartsTexts(step[1..]));
    }
  }

  lemma {:induction false} StepsAreCharged(steps: seq<S.Step>)
    ensures StepsChars(steps) == |Together(StepsTexts(steps))|
  {
    hide Together, StepChars, PartsTexts;
    NothingTogether();
    if steps != [] {
      PartsAreCharged(steps[0]);
      StepsAreCharged(steps[1..]);
      LengthsAdd(PartsTexts(steps[0]), StepsTexts(steps[1..]));
    }
  }

  lemma {:induction false} CodesAreCharged(codes: seq<Code>)
    ensures CodesChars(codes) == |Together(CodeBlockTexts(codes))|
  {
    hide Together, CodeChars, CodeTexts;
    NothingTogether();
    if codes != [] {
      CodeIsCharged(codes[0]);
      CodesAreCharged(codes[1..]);
      LengthsAdd(CodeTexts(codes[0]), CodeBlockTexts(codes[1..]));
    }
  }

  lemma {:induction false} FieldsAreCharged(bodies: map<Field, seq<BodyItem>>, fields: seq<Field>)
    ensures BodiesChars(bodies, fields) == |Together(FieldsTexts(bodies, fields))|
  {
    hide Together, ItemsChars, ItemsTexts;
    NothingTogether();
    if fields != [] {
      ItemsAreCharged(BodyOf(bodies, fields[0]));
      FieldsAreCharged(bodies, fields[1..]);
      LengthsAdd(ItemsTexts(BodyOf(bodies, fields[0])), FieldsTexts(bodies, fields[1..]));
    }
  }

  lemma {:induction false} TopicsAreCharged(topics: seq<(string, seq<BodyItem>)>)
    ensures TopicsChars(topics) == |Together(TopicsTexts(topics))|
  {
    hide Together, ItemsChars, ItemsTexts;
    NothingTogether();
    if topics != [] {
      ItemsAreCharged(topics[0].1);
      TopicsAreCharged(topics[1..]);
      LengthsAdd(ItemsTexts(topics[0].1), TopicsTexts(topics[1..]));
    }
  }

  /** The whole charge is the length of all texts inside rich blocks, put together. */
  lemma ChargeIsLength(n: NormalExport)
    ensures BlockChars(n) == |Together(BlockTexts(n))|
  {
    hide Together, BodiesChars, FieldsTexts, TopicsChars, TopicsTexts, StepsChars, StepsTexts, CodesChars, CodeBlockTexts;
    FieldsAreCharged(n.bodies, BODY_FIELDS);
    TopicsAreCharged(n.topics);
    StepsAreCharged(n.steps);
    CodesAreCharged(n.codeBlocks);
    var a := FieldsTexts(n.bodies, BODY_FIELDS);
    LengthsAdd(a, TopicsTexts(n.topics));
    a := a + TopicsTexts(n.topics);
    LengthsAdd(a, StepsTexts(n.steps));
    LengthsAdd(a + StepsTexts(n.steps), CodeBlockTexts(n.codeBlocks));
  }
}
