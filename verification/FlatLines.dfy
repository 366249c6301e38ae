/** Every line the printers emit is one line: no client text breaks a line or hides a carriage return. */
module FlatLines {
  import opened Text
  import opened Escape
  import opened Blocks
  import Fence
  import Tables
  import Grouping

  predicate FlatLine(line: string) {
    '\n' !in line && '\r' !in line
  }

  predicate Flat(lines: seq<string>) {
    lines != [] ==> FlatLine(lines[0]) && Flat(lines[1..])
  }

  // ----- What the normaliser guarantees of each block -----

  predicate ValidText(content: string) {
    content != "" && IsLine(content)
  }

  predicate ValidTexts(lines: seq<string>) {
    lines != [] ==> ValidText(lines[0]) && ValidTexts(lines[1..])
  }

  predicate ValidCaption(caption: Option<string>) {
    caption.Some? ==> ValidText(caption.value)
  }

  predicate ValidCode(code: Code) {
    Fence.CodeText(code.content) && ValidCaption(code.caption)
  }

  /** The schema's pattern for a callout. */
  predicate ValidCallout(callout: Option<string>) {
    callout.Some? ==>
      && 1 <= |callout.value| <= 32
      && Only(callout.value, c => Fence.IsAlphanumeric(c) || c == '-')
  }

  predicate ValidQuote(quote: Quote) {
    ValidCallout(quote.callout) && ValidCaption(quote.title) && ValidTexts(quote.lines) && quote.lines != []
  }

  predicate ValidTable(table: Table) {
    Tables.WellFormed(table) && table.headers != []
  }

  // ----- Flatness -----

  lemma LineIsFlat(s: string)
    requires IsLine(s)
    ensures FlatLine(s)
  {
    assert IsLineBreak('\n') && IsLineBreak('\r');
  }

  lemma EscapedIsFlat(s: string)
    requires FlatLine(s)
    ensures FlatLine(EscapeBlockStart(s))
  {
    hide EscapeBlockStart;
    EscapeChars(s);
  }

  lemma {:induction false} ReplacedIsFlat(s: string, p: char -> bool, with: char -> string)
    requires FlatLine(s) && forall c :: c != '\n' && c != '\r' ==> FlatLine(with(c))
    ensures FlatLine(Replace(s, p, with))
  {
    if s != "" {
      ReplacedIsFlat(s[1..], p, with);
    }
  }

  lemma CaptionIsFlat(s: string)
    requires FlatLine(s)
    ensures FlatLine(Fence.Caption(s))
  {
    hide EscapeBlockStart;
    ReplacedIsFlat(s, c => c in "\\`*_[]<>&~=$%#^", c => ['\\', c]);
    EscapedIsFlat(Fence.EscapeInline(s));
  }

  lemma {:induction false} FlatConcat(a: seq<string>, b: seq<string>)
    requires Flat(a) && Flat(b)
    ensures Flat(a + b)
  {
    if a == [] {
      assert a + b == b;
    } else {
      FlatConcat(a[1..], b);
      assert (a + b)[1..] == a[1..] + b;
    }
  }

  /** Flat lines, joined, split into the same lines. */
  lemma {:induction false} FlatIndex(lines: seq<string>)
    requires Flat(lines)
    ensures forall k :: 0 <= k < |lines| ==> '\n' !in lines[k]
  {
    if lines != [] {
      FlatIndex(lines[1..]);
      forall k | 0 <= k < |lines|
        ensures '\n' !in lines[k]
      {
        assert k > 0 ==> lines[k] == lines[1..][k - 1];
      }
    }
  }

  lemma FlatSplit(lines: seq<string>)
    requires Flat(lines) && lines != []
    ensures Lines(Join(lines, "\n")) == lines
  {
    FlatIndex(lines);
    SplitJoin(lines, '\n');
  }

  lemma {:induction false} SplitIsFlat(s: string)
    requires '\r' !in s
    ensures Flat(Lines(s))
  {
    if s != "" {
      assert s[0] in s;
      SplitIsFlat(s[1..]);
      var rest := Lines(s[1..]);
      if s[0] == '\n' {
        assert ([""] + rest)[1..] == rest;
      } else {
        assert ([[s[0]] + rest[0]] + rest[1..])[1..] == rest[1..];
      }
    }
  }

  lemma {:induction false} IndentIsFlat(lines: seq<string>, indent: string)
    requires Flat(lines) && FlatLine(indent)
    ensures Flat(Fence.Indent(lines, indent))
  {
    if lines != [] {
      IndentIsFlat(lines[1..], indent);
    }
  }

  lemma InfoIsFlat(language: Option<string>)
    ensures FlatLine(Fence.InfoString(language))
  {
    if language.Some? && Fence.IsSafeLanguage(language.value) {
      var value := language.value;
      forall i | 0 <= i < |value|
        ensures value[i] != '\n' && value[i] != '\r'
      {
        if i > 0 {
          SpanAt(value[1..], c => Fence.IsAlphanumeric(c) || c in "+#._-", i - 1);
        }
      }
    }
  }

  lemma CaptionLinesAreFlat(caption: Option<string>)
    requires ValidCaption(caption)
    ensures Flat(Fence.CaptionLines(caption))
  {
    hide Fence.Caption;
    if caption.Some? {
      LineIsFlat(caption.value);
      CaptionIsFlat(caption.value);
    }
  }

  lemma FenceLinesAreFlat(code: Code)
    requires ValidCode(code)
    ensures Flat(Fence.FenceLines(code))
  {
    hide Fence.InfoString, Fence.FenceLength;
    var fence := Fence.FenceFor(code.content);
    InfoIsFlat(code.language);
    assert Fence.CodeText(code.content) && IsCodeControl('\r');
    SplitIsFlat(code.content);
    FlatConcat([fence + Fence.InfoString(code.language)], Lines(code.content));
    FlatConcat([fence + Fence.InfoString(code.language)] + Lines(code.content), [fence]);
  }

  lemma CodeLinesAreFlat(code: Code, indent: string)
    requires ValidCode(code) && FlatLine(indent)
    ensures Flat(Fence.CodeLines(code, indent))
  {
    hide Fence.FenceLines, Fence.CaptionLines;
    CaptionLinesAreFlat(code.caption);
    FenceLinesAreFlat(code);
    FlatConcat(Fence.CaptionLines(code.caption), Fence.FenceLines(code));
    IndentIsFlat(Fence.CaptionLines(code.caption) + Fence.FenceLines(code), indent);
  }

  lemma {:induction false} JoinIsFlat(parts: seq<string>, sep: string)
    requires Flat(parts) && FlatLine(sep)
    ensures FlatLine(Join(parts, sep))
  {
    if |parts| > 1 {
      JoinIsFlat(parts[1..], sep);
    }
  }

  lemma CellIsFlat(cell: string)
    requires FlatLine(cell)
    ensures FlatLine(Tables.EscapeTableCell(cell))
  {
    var once := Replace(cell, c => c == '\\', c => "\\\\");
    ReplacedIsFlat(cell, c => c == '\\', c => "\\\\");
    ReplacedIsFlat(once, c => c == '|', c => "\\|");
  }

  lemma {:induction false} CellsAreFlat(cells: seq<string>)
    requires Tables.AllLines(cells)
    ensures Flat(Tables.EscapeCells(cells))
  {
    hide Tables.EscapeTableCell, IsLine;
    if cells != [] {
      LineIsFlat(cells[0]);
      CellIsFlat(cells[0]);
      CellsAreFlat(cells[1..]);
    }
  }

  lemma RowIsFlat(cells: seq<string>)
    requires Tables.AllLines(cells)
    ensures FlatLine(Tables.TableRow(cells))
  {
    CellsAreFlat(cells);
    JoinIsFlat(Tables.EscapeCells(cells), " | ");
  }

  lemma {:induction false} DelimitersAreFlat(alignments: seq<Alignment>)
    ensures Flat(Tables.DelimiterCells(alignments))
  {
    if alignments != [] {
      DelimitersAreFlat(alignments[1..]);
    }
  }

  lemma {:induction false} PlainDelimitersAreFlat(n: nat)
    ensures Flat(Tables.PlainDelimiters(n))
  {
    if n > 0 {
      PlainDelimitersAreFlat(n - 1);
    }
  }

  lemma DelimiterRowIsFlat(alignments: Option<seq<Alignment>>, columns: nat)
    ensures FlatLine(Tables.TableDelimiterRow(alignments, columns))
  {
    if alignments.None? {
      PlainDelimitersAreFlat(columns);
      JoinIsFlat(Tables.PlainDelimiters(columns), " | ");
    } else {
      DelimitersAreFlat(alignments.value);
      JoinIsFlat(Tables.DelimiterCells(alignments.value), " | ");
    }
  }

  lemma {:induction false} RowsAreFlat(rows: seq<seq<string>>)
    requires Tables.AllRowLines(rows)
    ensures Flat(Tables.TableRows(rows))
  {
    hide Tables.TableRow;
    if rows != [] {
      RowIsFlat(rows[0]);
      RowsAreFlat(rows[1..]);
    }
  }

  lemma TableLinesAreFlat(table: Table)
    requires ValidTable(table)
    ensures Flat(Tables.TableLines(table))
    ensures Tables.TableLines(table) != []
  {
    hide Tables.TableRow, Tables.TableDelimiterRow, Fence.CaptionLines;
    CaptionLinesAreFlat(table.caption);
    RowIsFlat(table.headers);
    DelimiterRowIsFlat(table.alignments, |table.headers|);
    RowsAreFlat(table.rows);
    FlatConcat(
      [Tables.TableRow(table.headers), Tables.TableDelimiterRow(table.alignments, |table.headers|)],
      Tables.TableRows(table.rows));
    FlatConcat(Fence.CaptionLines(table.caption), Tables.TableGrid(table));
  }

  lemma {:induction false} QuotedLinesAreFlat(lines: seq<string>)
    requires ValidTexts(lines)
    ensures Flat(Grouping.EscapedQuoteLines(lines))
  {
    hide EscapeBlockStart, IsLine;
    if lines != [] {
      LineIsFlat(lines[0]);
      EscapedIsFlat(lines[0]);
      QuotedLinesAreFlat(lines[1..]);
    }
  }

  lemma CalloutIsFlat(callout: string)
    requires ValidCallout(Some(callout))
    ensures FlatLine(callout)
  {
    forall i | 0 <= i < |callout|
      ensures callout[i] != '\n' && callout[i] != '\r'
    {
      SpanAt(callout, c => Fence.IsAlphanumeric(c) || c == '-', i);
    }
  }

  lemma QuoteLinesAreFlat(quote: Quote)
    requires ValidQuote(quote)
    ensures Flat(Grouping.QuoteLines(quote))
    ensures Grouping.QuoteLines(quote) != []
  {
    hide IsLine, EscapeBlockStart, ValidCallout;
    QuotedLinesAreFlat(quote.lines);
    if quote.callout.Some? {
      CalloutIsFlat(quote.callout.value);
    }
    if quote.title.Some? {
      LineIsFlat(quote.title.value);
    }
    FlatConcat(Grouping.QuoteHeader(quote), Grouping.EscapedQuoteLines(quote.lines));
  }
}
