/** The inside of a step: its parts are told apart again, whatever blank lines and fences the code among them holds. */
module StepParts {
  import opened Text
  import opened Escape
  import opened Blocks
  import opened FlatLines
  import opened Headings
  import opened PrintedBlocks
  import Fence
  import Tables
  import G = Grouping
  import S = Steps

  // ----- The reader -----

  /** How many lines stand in front of the first blank one. */
  function FirstBlank(lines: seq<string>): nat {
    if lines == [] || lines[0] == "" then 0 else 1 + FirstBlank(lines[1..])
  }

  /** A code block goes to its closing fence, anything else to the next blank line. */
  function PartLength(lines: seq<string>): nat {
    match ReadCaptionedCode(lines)
    case Some((_, block)) => if |block.rest| < |lines| then |lines| - |block.rest| else FirstBlank(lines)
    case None => FirstBlank(lines)
  }

  /** The parts, a blank line behind each but the last. */
  function SplitParts(lines: seq<string>): seq<seq<string>>
    decreases |lines|
  {
    if lines == [] then []
    else
      var n := PartLength(lines);
      if n >= |lines| then [lines] else [lines[..n]] + SplitParts(lines[n + 1..])
  }

  // ----- Parts that are not code -----

  /** No line is blank or opens a fence. */
  predicate PlainLines(lines: seq<string>) {
    lines != [] ==> lines[0] != "" && Fence.OpeningFence(lines[0]).None? && PlainLines(lines[1..])
  }

  lemma {:induction false} PlainTogether(a: seq<string>, b: seq<string>)
    requires PlainLines(a) && PlainLines(b)
    ensures PlainLines(a + b)
  {
    hide Fence.OpeningFence;
    if a == [] {
      assert a + b == b;
    } else {
      PlainTogether(a[1..], b);
      assert (a + b)[1..] == a[1..] + b;
    }
  }

  lemma StartsNoFence(line: string)
    requires line != "" ==> line[0] != '`'
    ensures Fence.OpeningFence(line).None?
  {
    SpanIs(line, Fence.IsTick, 0);
  }

  lemma {:induction false} PlainRun(lines: seq<string>, rest: seq<string>)
    requires PlainLines(lines) && (rest == [] || rest[0] == "")
    ensures FirstBlank(lines + rest) == |lines|
  {
    hide Fence.OpeningFence;
    if lines == [] {
      assert lines + rest == rest;
    } else {
      PlainRun(lines[1..], rest);
      assert (lines + rest)[1..] == lines[1..] + rest;
    }
  }

  lemma NoFenceFirst(lines: seq<string>)
    requires lines == [] || Fence.OpeningFence(lines[0]).None?
    ensures Fence.ReadFence(lines).None?
  {
    hide Fence.OpeningFence;
  }

  /** Such lines are not taken for code. */
  lemma PlainIsNoCode(lines: seq<string>, rest: seq<string>)
    requires PlainLines(lines) && lines != [] && (rest == [] || rest[0] == "")
    ensures PartLength(lines + rest) == |lines|
  {
    hide Fence.OpeningFence, Fence.ReadFence;
    var all := lines + rest;
    PlainRun(lines, rest);
    StartsNoFence("");
    var below := all[1..];
    assert below == lines[1..] + rest;
    if |lines| > 1 {
      assert below[0] == lines[1..][0];
    } else {
      assert below == rest;
    }
    NoFenceFirst(all);
    NoFenceFirst(below);
  }

  lemma TextIsPlain(content: string)
    requires ValidText(content)
    ensures PlainLines([EscapeBlockStart(content)])
  {
    hide EscapeBlockStart, IsLine, OpensNoBlock, Fence.OpeningFence, IsHeading;
    EscapeChars(content);
    EscapeOpensNoBlock(content);
    UnopenedIsInert(EscapeBlockStart(content));
  }

  lemma CaptionIsPlain(caption: Option<string>)
    requires ValidCaption(caption)
    ensures PlainLines(Fence.CaptionLines(caption))
  {
    hide Fence.OpeningFence, Fence.Caption, IsLine;
    if caption.Some? {
      CaptionIsNoFence(caption.value);
      Fence.CaptionNotEmpty(caption.value);
    }
  }

  lemma {:induction false} RowsArePlain(rows: seq<seq<string>>)
    ensures PlainLines(Tables.TableRows(rows))
  {
    hide Fence.OpeningFence, Tables.EscapeCells;
    if rows != [] {
      StartsNoFence(Tables.TableRow(rows[0]));
      RowsArePlain(rows[1..]);
    }
  }

  lemma TableIsPlain(table: Table)
    requires ValidTable(table)
    ensures PlainLines(Tables.TableLines(table))
  {
    hide Fence.OpeningFence, Tables.EscapeCells, Fence.CaptionLines, Tables.PlainDelimiters, Tables.DelimiterCells, ValidTable;
    CaptionOfTable(table);
    CaptionIsPlain(table.caption);
    var header, delimiter := Tables.TableRow(table.headers), Tables.TableDelimiterRow(table.alignments, |table.headers|);
    StartsNoFence(header);
    StartsNoFence(delimiter);
    RowsArePlain(table.rows);
    assert [delimiter][1..] == [] && PlainLines([delimiter]);
    assert [header, delimiter][1..] == [delimiter];
    PlainTogether([header, delimiter], Tables.TableRows(table.rows));
    PlainTogether(Fence.CaptionLines(table.caption), Tables.TableGrid(table));
  }

  lemma {:induction false} QuotedLinesArePlain(lines: seq<string>)
    ensures PlainLines(G.EscapedQuoteLines(lines))
  {
    hide Fence.OpeningFence, EscapeBlockStart;
    if lines != [] {
      StartsNoFence("> " + EscapeBlockStart(lines[0]));
      QuotedLinesArePlain(lines[1..]);
    }
  }

  lemma QuoteIsPlain(quote: Quote)
    ensures PlainLines(G.QuoteLines(quote))
  {
    hide Fence.OpeningFence, G.EscapedQuoteLines;
    QuotedLinesArePlain(quote.lines);
    var header := G.QuoteHeader(quote);
    if header != [] {
      assert header[0][0] == '>' && header[1..] == [];
      StartsNoFence(header[0]);
    }
    PlainTogether(header, G.EscapedQuoteLines(quote.lines));
  }

  // ----- The parts of a step -----

  lemma CodePartEnds(code: Code, rest: seq<string>)
    requires ValidCode(code)
    ensures var lines := Fence.CaptionLines(code.caption) + Fence.FenceLines(code); lines != [] && PartLength(lines + rest) == |lines|
  {
    hide Fence.CaptionLines, Fence.InfoString, ValidCode, ReadCaptionedCode, Lines;
    CodeReads(code, rest);
    FenceExists(code);
  }

  lemma FenceExists(code: Code)
    ensures |Fence.FenceLines(code)| >= 2
  {
  }

  /** In front of a blank line or the end, a part ends where it was printed to end. */
  lemma PartEnds(part: StepPart, rest: seq<string>)
    requires S.ValidPart(part) && (rest == [] || rest[0] == "")
    ensures S.PartLines(part) != [] && PartLength(S.PartLines(part) + rest) == |S.PartLines(part)|
  {
    hide PartLength, PlainLines, EscapeBlockStart, ValidText, ValidCode, ValidTable, ValidQuote, Fence.FenceLines, Fence.CaptionLines,
      Tables.TableLines, G.QuoteLines, Lines, Join;
    match part
    case StepText(content) =>
      TextIsPlain(content);
      PlainIsNoCode(S.PartLines(part), rest);
    case CodePart(code) => CodePartEnds(code, rest);
    case TablePart(table) =>
      TableIsPlain(table);
      TableLinesAreFlat(table);
      FlatSplit(Tables.TableLines(table));
      PlainIsNoCode(S.PartLines(part), rest);
    case QuotePart(quote) =>
      QuoteIsPlain(quote);
      QuoteLinesAreFlat(quote);
      FlatSplit(G.QuoteLines(quote));
      PlainIsNoCode(S.PartLines(part), rest);
  }

  lemma SplitFirst(first: seq<string>, rest: seq<string>)
    requires first != [] && (rest == [] || rest[0] == "") && PartLength(first + rest) == |first|
    ensures SplitParts(first + rest) == [first] + (if rest == [] then [] else SplitParts(rest[1..]))
  {
    hide PartLength;
    var all := first + rest;
    if rest == [] {
      assert all == first;
    } else {
      assert all[..|first|] == first && all[|first| + 1..] == rest[1..];
    }
  }

  /** The lines of each part, one part after the other. */
  predicate TheirLines(step: S.Step, chunks: seq<seq<string>>) {
    |chunks| == |step| && forall i :: 0 <= i < |step| ==> chunks[i] == S.PartLines(step[i])
  }

  /** A reader of a step's inside finds its parts in order, each with its own lines. */
  lemma {:induction false} StepPartsRead(step: S.Step)
    requires step != [] && S.ValidParts(step)
    ensures TheirLines(step, SplitParts(S.StepBody(step)))
  {
    hide S.PartLines, S.ValidPart, SplitParts, PartLength;
    var first, rest := S.PartLines(step[0]), S.LaterLines(step[1..]);
    if |step| == 1 {
      assert rest == [];
      PartEnds(step[0], rest);
      SplitFirst(first, rest);
    } else {
      StepPartsRead(step[1..]);
      LaterAre(step[1..]);
      PartEnds(step[0], rest);
      SplitFirst(first, rest);
      var chunks, more := SplitParts(S.StepBody(step)), SplitParts(S.StepBody(step[1..]));
      assert chunks == [first] + more;
      assert forall i :: 0 < i < |step| ==> chunks[i] == more[i - 1] && step[i] == step[1..][i - 1];
    }
  }

  lemma LaterAre(parts: S.Step)
    requires parts != []
    ensures S.LaterLines(parts) == [""] + S.StepBody(parts)
    ensures S.LaterLines(parts)[1..] == S.StepBody(parts)
  {
    hide S.PartLines;
  }

  /** A title stands only beside a callout, as the normaliser sees to. */
  predicate TitlesHaveCallouts(step: S.Step) {
    forall i :: 0 <= i < |step| && step[i].QuotePart? && step[i].quote.title.Some? ==> step[i].quote.callout.Some?
  }

  lemma {:induction false} PartIsValid(step: S.Step, i: nat)
    requires S.ValidParts(step) && i < |step|
    ensures S.ValidPart(step[i])
  {
    hide S.ValidPart;
    if i > 0 {
      PartIsValid(step[1..], i - 1);
    }
  }

  /** The inside of a step, read back: each part shows what it holds, but for the tables whose caption passes for the header. */
  lemma StepReads(step: S.Step)
    requires step != [] && S.ValidParts(step) && TitlesHaveCallouts(step)
    ensures var chunks := SplitParts(S.StepBody(step));
      && |chunks| == |step|
      && forall i :: 0 <= i < |step| ==>
        (PartShows(step[i], chunks[i]) <==> !(step[i].TablePart? && CaptionPassesForHeader(step[i].table)))
  {
    hide SplitParts, S.StepBody, S.ValidParts, S.ValidPart, S.PartLines, PartShows, CaptionPassesForHeader;
    StepPartsRead(step);
    forall i | 0 <= i < |step|
      ensures PartShows(step[i], S.PartLines(step[i])) <==> !(step[i].TablePart? && CaptionPassesForHeader(step[i].table))
    {
      PartIsValid(step, i);
      PartReads(step[i]);
    }
  }
}
