/** The shared budget for the text inside rich blocks. */
module Budget {
  import opened Text
  import opened Blocks
  import S = Steps

  const MAX_TOTAL_BLOCK_CHARS := 100_000

  function OptionalChars(value: Option<string>): nat {
    if value.Some? then |value.value| else 0
  }

  function TextChars(values: seq<string>): nat {
    if values == [] then 0 else |values[0]| + TextChars(values[1..])
  }

  function RowChars(rows: seq<seq<string>>): nat {
    if rows == [] then 0 else TextChars(rows[0]) + RowChars(rows[1..])
  }

  function CodeChars(code: Code): nat {
    |code.content| + OptionalChars(code.caption)
  }

  function TableChars(table: Table): nat {
    OptionalChars(table.caption) + TextChars(table.headers) + RowChars(table.rows)
  }

  function QuoteChars(quote: Quote): nat {
    OptionalChars(quote.title) + TextChars(quote.lines)
  }

  function ParagraphChars(lines: seq<string>): nat {
    TextChars(lines) + (if |lines| > 1 then |lines| - 1 else 0)
  }

  /** A paragraph is charged for its line breaks too: for exactly the text it is. */
  lemma {:induction false} ParagraphIsChargedInFull(lines: seq<string>)
    ensures ParagraphChars(lines) == |Join(lines, "\n")|
  {
    if |lines| > 1 {
      ParagraphIsChargedInFull(lines[1..]);
    } else if |lines| == 1 {
      assert TextChars(lines[1..]) == 0;
    }
  }

  /** Bullets are not charged. */
  function ItemChars(item: BodyItem): nat {
    match item
    case Paragraph(lines) => ParagraphChars(lines)
    case Bullet(_, _, _, _) => 0
    case CodeItem(code) => CodeChars(code)
    case TableItem(table) => TableChars(table)
    case QuoteItem(quote) => QuoteChars(quote)
  }

  function ItemsChars(items: seq<BodyItem>): nat {
    if items == [] then 0 else ItemChars(items[0]) + ItemsChars(items[1..])
  }

  function TopicsChars(topics: seq<(string, seq<BodyItem>)>): nat {
    if topics == [] then 0 else ItemsChars(topics[0].1) + TopicsChars(topics[1..])
  }

  function PartChars(part: StepPart): nat {
    match part
    case StepText(_) => 0
    case CodePart(code) => CodeChars(code)
    case TablePart(table) => TableChars(table)
    case QuotePart(quote) => QuoteChars(quote)
  }

  function StepChars(step: S.Step): nat {
    if step == [] then 0 else PartChars(step[0]) + StepChars(step[1..])
  }

  function StepsChars(steps: seq<S.Step>): nat {
    if steps == [] then 0 else StepChars(steps[0]) + StepsChars(steps[1..])
  }

  function CodesChars(codes: seq<Code>): nat {
    if codes == [] then 0 else CodeChars(codes[0]) + CodesChars(codes[1..])
  }
}
