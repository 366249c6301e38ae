/** The client's rich blocks and their normalised forms. */
module Blocks {
  import opened Text

  datatype Alignment = Left | Center | Right

  // What the client sends.

  datatype CodeBlock = CodeBlock(language: Option<string>, caption: Option<string>, content: string)

  datatype TableBlock = TableBlock(
    caption: Option<string>,
    headers: seq<string>,
    alignments: Option<seq<Alignment>>,
    rows: seq<seq<string>>)

  datatype QuoteBlock = QuoteBlock(callout: Option<string>, title: Option<string>, lines: seq<string>)

  datatype BodyBlock =
    | ParagraphBlock(content: string)
    | BulletBlock(content: string, depth: nat, checked: Option<bool>)
    | BodyCode(code: CodeBlock)
    | BodyTable(table: TableBlock)
    | BodyQuote(quote: QuoteBlock)

  datatype StepBlock =
    | TextBlock(content: string)
    | StepCode(code: CodeBlock)
    | StepTable(table: TableBlock)
    | StepQuote(quote: QuoteBlock)

  // What survives normalisation.

  datatype Code = Code(language: Option<string>, caption: Option<string>, content: string)

  datatype Table = Table(
    caption: Option<string>,
    headers: seq<string>,
    alignments: Option<seq<Alignment>>,
    rows: seq<seq<string>>)

  datatype Quote = Quote(callout: Option<string>, title: Option<string>, lines: seq<string>)

  datatype BodyItem =
    | Paragraph(lines: seq<string>)
    | Bullet(content: string, depth: nat, checked: Option<bool>, sourceIndex: nat)
    | CodeItem(code: Code)
    | TableItem(table: Table)
    | QuoteItem(quote: Quote)

  datatype StepPart =
    | StepText(content: string)
    | CodePart(code: Code)
    | TablePart(table: Table)
    | QuotePart(quote: Quote)

  /** The rejections of the normaliser, each with the position the client sees. */
  datatype BlockError =
    | EmptyHeader(column: nat)
    | AlignmentCount
    | RowCells(row: nat)
    | TitleWithoutCallout
    | DepthStart(depth: nat)
    | DepthJump(previous: nat, depth: nat)
    | StepNotText
}
