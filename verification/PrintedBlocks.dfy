/** What a reader sees of the printed blocks: captions, quotes and escaped lines come back as the client wrote them. */
module PrintedBlocks {
  import opened Text
  import opened Escape
  import opened Blocks
  import opened FlatLines
  import opened Headings
  import B = BodyItems
  import P = Paragraph
  import Fence
  import Tables
  import G = Grouping
  import S = Steps

  // ----- Backslash escapes (section 2.4 of the CommonMark specification) -----

  predicate IsPunctuation(c: char) {
    '!' <= c <= '/' || ':' <= c <= '@' || '[' <= c <= '`' || '{' <= c <= '~'
  }

  /** The text a reader shows for a source text: a backslash in front of ASCII punctuation is not shown. */
  function Shown(s: string): string
    decreases |s|
  {
    if s == "" then ""
    else if s[0] == '\\' && |s| > 1 && IsPunctuation(s[1]) then [s[1]] + Shown(s[2..])
    else [s[0]] + Shown(s[1..])
  }

  function AllShown(lines: seq<string>): seq<string> {
    if lines == [] then [] else [Shown(lines[0])] + AllShown(lines[1..])
  }

  /** In front of a text without backslashes, nothing that follows is touched. */
  lemma {:induction false} ShownBehind(prefix: string, s: string)
    requires '\\' !in prefix
    ensures Shown(prefix + s) == prefix + Shown(s)
  {
    if prefix == "" {
      assert prefix + s == s;
    } else {
      assert prefix[0] in prefix;
      assert (prefix + s)[1..] == prefix[1..] + s;
      ShownBehind(prefix[1..], s);
    }
  }

  lemma ShownEscape(c: char, rest: string)
    requires IsPunctuation(c)
    ensures Shown("\\" + ([c] + rest)) == [c] + Shown(rest)
  {
    var s := "\\" + ([c] + rest);
    assert s[1] == c && s[2..] == rest;
  }

  lemma ShownPlain(c: char, rest: string)
    requires c != '\\'
    ensures Shown([c] + rest) == [c] + Shown(rest)
  {
    assert ([c] + rest)[1..] == rest;
  }

  lemma HazardStartsWithMark(value: string)
    requires Hazard(value) && !IsBlank(value[0])
    ensures value != "" && IsPunctuation(value[0]) && value[0] != '\\'
  {
    if !StartsHazard(value[0]) {
      PlainStartIsNoHazard(value);
    }
  }

  lemma HazardIsSomething(value: string)
    requires Hazard(value)
    ensures value != ""
  {
    if value == "" {
      SpanIs(value, c => c == '#', 0);
    }
  }

  lemma DigitsHoldNoBackslash(value: string, n: nat)
    requires n <= Span(value, IsDigit)
    ensures '\\' !in value[..n]
  {
    forall i | 0 <= i < n
      ensures value[i] != '\\'
    {
      SpanAt(value, IsDigit, i);
      DigitStartsNoHazard(value[i]);
    }
  }

  lemma PointIsShown(s: string)
    requires s != "" && IsPunctuation(s[0]) && s[0] != '\\'
    ensures Shown("\\" + s) == Shown(s)
  {
    hide Shown, IsPunctuation;
    assert s == [s[0]] + s[1..];
    ShownEscape(s[0], s[1..]);
    ShownPlain(s[0], s[1..]);
  }

  lemma NumberEscapeIsInvisible(value: string, n: nat)
    requires n < |value| && '\\' !in value[..n] && (value[n] == '.' || value[n] == ')')
    ensures Shown(value[..n] + "\\" + value[n..]) == Shown(value)
  {
    var digits, rest := value[..n], value[n..];
    PointIsShown(rest);
    hide Shown, IsPunctuation;
    ShownBehind(digits, rest);
    ShownBehind(digits, "\\" + rest);
    assert value == digits + rest;
    Regroup(digits, "\\", rest);
  }

  lemma MarkEscapeIsInvisible(value: string)
    requires Hazard(value) && !IsBlank(value[0])
    ensures Shown("\\" + value) == Shown(value)
  {
    hide Shown, IsPunctuation, Hazard;
    HazardStartsWithMark(value);
    PointIsShown(value);
  }

  lemma OrderedStart(value: string)
    requires OrderedDigits(value) > 0
    ensures var n := OrderedDigits(value); n < |value| && '\\' !in value[..n] && (value[n] == '.' || value[n] == ')')
  {
    hide IsDigit;
    DigitsHoldNoBackslash(value, OrderedDigits(value));
  }

  /** The block-start escape cannot be seen: with it and without it, the reader shows the same text. */
  lemma EscapeIsInvisible(value: string)
    requires value != "" ==> !IsBlank(value[0])
    ensures Shown(EscapeBlockStart(value)) == Shown(value)
  {
    hide OrderedDigits, Hazard, Shown;
    var n := OrderedDigits(value);
    if n > 0 {
      OrderedStart(value);
      NumberEscapeIsInvisible(value, n);
    } else if Hazard(value) {
      HazardIsSomething(value);
      MarkEscapeIsInvisible(value);
    }
  }

  // ----- Captions -----

  /** Every backslash and every inline mark is escaped: the caption is shown letter for letter. */
  lemma {:induction false} InlineIsLiteral(s: string)
    ensures Shown(Fence.EscapeInline(s)) == s
  {
    if s == "" {
    } else {
      hide Shown;
      InlineIsLiteral(s[1..]);
      var rest := Fence.EscapeInline(s[1..]);
      assert [s[0]] + s[1..] == s;
      if s[0] in "\\`*_[]<>&~=$%#^" {
        ShownEscape(s[0], rest);
        assert Fence.EscapeInline(s) == "\\" + ([s[0]] + rest);
      } else {
        ShownPlain(s[0], rest);
      }
    }
  }

  lemma InlineStart(s: string)
    requires s != "" && !IsBlank(s[0])
    ensures Fence.EscapeInline(s) != "" && !IsBlank(Fence.EscapeInline(s)[0])
  {
  }

  /** A caption is read back exactly, whatever marks it holds. */
  lemma CaptionIsLiteral(s: string)
    requires ValidText(s)
    ensures Shown(Fence.Caption(s)) == s
  {
    hide Shown, EscapeBlockStart, Fence.EscapeInline;
    InlineStart(s);
    EscapeIsInvisible(Fence.EscapeInline(s));
    InlineIsLiteral(s);
  }

  lemma CaptionIsNoFence(s: string)
    requires ValidText(s)
    ensures Fence.OpeningFence(Fence.Caption(s)).None?
  {
    hide EscapeBlockStart, Fence.EscapeInline, OpensNoBlock, Fence.OpeningFence, IsHeading;
    EscapeOpensNoBlock(Fence.EscapeInline(s));
    UnopenedIsInert(Fence.Caption(s));
  }

  /** A fenced block, and the line in front of it if there is one. */
  function ReadCaptionedCode(lines: seq<string>): Option<(Option<string>, Fence.FencedBlock)> {
    if Fence.ReadFence(lines).Some? then Some((None, Fence.ReadFence(lines).value))
    else if lines == [] || Fence.ReadFence(lines[1..]).None? then None
    else Some((Some(Shown(lines[0])), Fence.ReadFence(lines[1..]).value))
  }

  /** A code block is read back with its caption and content, and the lines behind it are left alone. */
  lemma CodeReads(code: Code, rest: seq<string>)
    requires ValidCode(code)
    ensures ReadCaptionedCode(Fence.CaptionLines(code.caption) + Fence.FenceLines(code) + rest)
         == Some((code.caption, Fence.FencedBlock(Fence.InfoString(code.language), code.content, rest)))
  {
    hide Fence.FenceLines, Fence.OpeningFence, Fence.InfoString, Shown, Fence.Caption, Fence.ReadContent;
    assert Fence.UnindentAll([], "") == [];
    Fence.FenceRoundTrip(code, "", rest);
    var below := Fence.FenceLines(code) + rest;
    if code.caption.Some? {
      CaptionIsLiteral(code.caption.value);
      CaptionIsNoFence(code.caption.value);
      var all := [Fence.Caption(code.caption.value)] + below;
      assert all[1..] == below;
      assert Fence.CaptionLines(code.caption) + Fence.FenceLines(code) + rest == all;
    } else {
      assert Fence.CaptionLines(code.caption) + Fence.FenceLines(code) + rest == below;
    }
  }

  /** A language is printed exactly if it is 1 to 32 letters, digits and `+#._-`, the first a letter or a digit. */
  lemma LanguageIsShown(language: Option<string>)
    ensures Fence.InfoString(language) == if SafeName(language) then language.value else ""
  {
    if language.Some? && 1 <= |language.value| <= 32 {
      var tail := language.value[1..];
      if SafeName(language) {
        SpanIs(tail, c => Fence.IsAlphanumeric(c) || c in "+#._-", |tail|);
      } else if Fence.IsSafeLanguage(language.value) {
        forall i | 0 <= i < |language.value|
          ensures NameChar(language.value[i])
        {
          if i > 0 {
            SpanAt(tail, c => Fence.IsAlphanumeric(c) || c in "+#._-", i - 1);
          }
        }
      }
    }
  }

  predicate NameChar(c: char) {
    'a' <= c <= 'z' || 'A' <= c <= 'Z' || '0' <= c <= '9' || c == '+' || c == '#' || c == '.' || c == '_' || c == '-'
  }

  predicate SafeName(language: Option<string>) {
    && language.Some? && 1 <= |language.value| <= 32
    && language.value[0] !in "+#._-" && forall i :: 0 <= i < |language.value| ==> NameChar(language.value[i])
  }

  // ----- Tables -----

  /** A table, and the line in front of it if there is one. */
  function ReadCaptionedTable(lines: seq<string>): Option<(Option<string>, Tables.ReadResult)> {
    if Tables.ReadTable(lines).Some? then Some((None, Tables.ReadTable(lines).value))
    else if lines == [] || Tables.ReadTable(lines[1..]).None? then None
    else Some((Some(Shown(lines[0])), Tables.ReadTable(lines[1..]).value))
  }

  /** `:?-+:?` for every header: the header row could be a delimiter row. */
  predicate HeadersDelimit(headers: seq<string>) {
    headers != [] ==> Tables.ReadAlignment(headers[0]).Some? && HeadersDelimit(headers[1..])
  }

  /** The caption passes for a header row: the row below it for a delimiter row, as wide as the caption. */
  predicate CaptionPassesForHeader(table: Table) {
    && table.caption.Some? && HeadersDelimit(table.headers)
    && |Tables.ReadRow(Fence.Caption(table.caption.value))| == |table.headers|
  }

  lemma {:induction false} DelimitingHeaders(headers: seq<string>)
    ensures HeadersDelimit(headers) <==> Tables.ReadAlignments(headers).Some?
    ensures HeadersDelimit(headers) ==> |Tables.ReadAlignments(headers).value| == |headers|
  {
    hide Tables.ReadAlignment;
    if headers != [] {
      DelimitingHeaders(headers[1..]);
    }
  }

  /**
   * A table is read back with its caption exactly unless its header row consists of delimiter cells and the caption
   * has as many cells: the reader then takes the caption for the header row.
   */
  lemma TableReads(table: Table)
    requires ValidTable(table)
    ensures ReadCaptionedTable(Tables.TableLines(table))
            == Some((table.caption,
                     Tables.ReadResult(table.headers, Tables.AlignmentList(table.alignments, |table.headers|), table.rows)))
       <==> !CaptionPassesForHeader(table)
  {
    hide Tables.ReadRow, Tables.TableRow, Tables.TableDelimiterRow, Tables.AlignmentList, Shown, Fence.Caption, HeadersDelimit,
      Tables.ReadAlignments, Tables.ReadRows;
    Tables.TableRoundTrip(table);
    var grid := Tables.TableGrid(table);
    if table.caption.Some? {
      assert ValidCaption(table.caption) by { CaptionOfTable(table); }
      CaptionIsLiteral(table.caption.value);
      HeaderRowReads(table);
      DelimitingHeaders(table.headers);
      var all := [Fence.Caption(table.caption.value)] + grid;
      assert all[1..] == grid && all[1] == Tables.TableRow(table.headers);
      assert Tables.TableLines(table) == all;
    } else {
      assert Tables.TableLines(table) == grid;
    }
  }

  lemma CaptionOfTable(table: Table)
    requires ValidTable(table)
    ensures ValidCaption(table.caption)
  {
  }

  lemma HeaderRowReads(table: Table)
    requires ValidTable(table)
    ensures Tables.ReadRow(Tables.TableRow(table.headers)) == table.headers
  {
    hide Tables.ReadRow, Tables.TableRow;
    Tables.LinesAreTrimmed(table.headers);
    Tables.RowRoundTrip(table.headers);
  }

  lemma OneLetterCaption()
    ensures Fence.Caption("x") == "x"
    ensures Tables.ReadRow("x") == ["x"]
  {
    assert Fence.EscapeInline("x") == "x";
    PlainStartIsNoHazard("x");
    SpanIs("x", IsDigit, 0);
    SpanIs("x", IsBlank, 0);
    assert "x"[1..] == "";
    assert Tables.RawCells("x") == ["x"];
    assert ["x"][1..] == [];
  }

  lemma DashRow()
    ensures Tables.TableRow(["---"]) == "| --- |" == Tables.TableDelimiterRow(None, 1)
  {
    Tables.EscapeIdle(["---"]);
    assert Tables.PlainDelimiters(1) == ["---"];
  }

  lemma DashTable()
    ensures ValidTable(Table(Some("x"), ["---"], None, []))
    ensures Tables.ReadRow("| --- |") == ["---"]
  {
    hide Tables.ReadRow, Tables.TableRow;
    DashRow();
    HeaderRowReads(Table(Some("x"), ["---"], None, []));
  }

  lemma DashesAlign()
    ensures Tables.ReadAlignment("---") == Some(None)
  {
  }

  lemma DashesDelimit()
    ensures Tables.ReadAlignments(["---"]) == Some([None])
  {
    hide Tables.ReadAlignment;
    DashesAlign();
    var none: seq<string> := [];
    assert ["---"][1..] == none && Tables.ReadAlignments(none) == Some([]);
    var last: seq<Option<Alignment>> := [None];
    assert last + [] == last;
  }

  /** One column headed `---` under the caption `x`: what is read is a table headed `x`. */
  lemma CaptionTakenForHeader()
    ensures var table := Table(Some("x"), ["---"], None, []);
      && ValidTable(table) && CaptionPassesForHeader(table)
      && Tables.TableLines(table) == ["x", "| --- |", "| --- |"]
      && ReadCaptionedTable(Tables.TableLines(table)) == Some((None, Tables.ReadResult(["x"], [None], [["---"]])))
  {
    hide Tables.ReadRow, Tables.TableRow, Tables.TableDelimiterRow, Tables.ReadAlignment, Tables.ReadAlignments, Fence.Caption, Shown,
      ValidTable;
    OneLetterCaption();
    DashRow();
    DashTable();
    DashesAlign();
    DashesDelimit();
    var lines := ["x", "| --- |", "| --- |"];
    assert lines[2..] == ["| --- |"];
    assert Tables.ReadRows(["| --- |"]) == [["---"]] by { assert ["| --- |"][1..] == []; }
    assert HeadersDelimit(["---"]) by { assert ["---"][1..] == []; }
  }

  // ----- Quotes -----

  /** The lines inside a quote: each behind a marker and a space. */
  function Unquoted(lines: seq<string>): Option<seq<string>> {
    if lines == [] then Some([])
    else if !("> " <= lines[0]) || Unquoted(lines[1..]).None? then None
    else Some([lines[0][2..]] + Unquoted(lines[1..]).value)
  }

  datatype QuoteRead = QuoteRead(callout: Option<string>, title: Option<string>, lines: seq<string>)

  predicate NotBracket(c: char) {
    c != ']'
  }

  /** A callout is a first line that starts with `[!` and closes the bracket; its title is what follows a space. */
  function ReadQuote(lines: seq<string>): Option<QuoteRead> {
    match Unquoted(lines)
    case None => None
    case Some(inner) =>
      if inner == [] || !("[!" <= inner[0]) || Only(inner[0], NotBracket) then Some(QuoteRead(None, None, inner))
      else
        var n := Span(inner[0], NotBracket);
        var title := inner[0][n + 1..];
        Some(QuoteRead(Some(inner[0][2..n]), if " " <= title then Some(title[1..]) else None, inner[1..]))
  }

  function EscapedLines(lines: seq<string>): seq<string> {
    if lines == [] then [] else [EscapeBlockStart(lines[0])] + EscapedLines(lines[1..])
  }

  lemma {:induction false} QuoteLinesRead(lines: seq<string>)
    ensures Unquoted(G.EscapedQuoteLines(lines)) == Some(EscapedLines(lines))
  {
    hide EscapeBlockStart;
    if lines != [] {
      QuoteLinesRead(lines[1..]);
      var line := "> " + EscapeBlockStart(lines[0]);
      assert line[2..] == EscapeBlockStart(lines[0]);
      assert G.EscapedQuoteLines(lines)[1..] == G.EscapedQuoteLines(lines[1..]);
    }
  }

  /** No escaped line opens a block, and each is shown as the client's line. */
  lemma {:induction false} EscapedLinesShow(lines: seq<string>)
    requires ValidTexts(lines)
    ensures AllShown(EscapedLines(lines)) == AllShown(lines)
    ensures lines != [] ==> OpensNoBlock(EscapedLines(lines)[0])
  {
    hide EscapeBlockStart, OpensNoBlock, Shown, IsLine;
    if lines != [] {
      assert !IsBlank(lines[0][0]) by { TextStart(lines[0]); }
      EscapeIsInvisible(lines[0]);
      EscapeOpensNoBlock(lines[0]);
      EscapedLinesShow(lines[1..]);
      assert EscapedLines(lines)[1..] == EscapedLines(lines[1..]);
    }
  }

  lemma TextStart(s: string)
    requires ValidText(s)
    ensures !IsBlank(s[0])
  {
  }

  lemma CalloutLineReads(callout: string, tail: string)
    requires ']' !in callout
    ensures var line := "[!" + callout + "]" + tail;
      && "[!" <= line && Span(line, NotBracket) == |callout| + 2 < |line|
      && line[2..|callout| + 2] == callout && line[|callout| + 3..] == tail
  {
    var line := "[!" + callout + "]" + tail;
    assert line[|callout| + 2] == ']';
    forall i | 0 <= i < |callout| + 2
      ensures NotBracket(line[i])
    {
      assert i >= 2 ==> line[i] == callout[i - 2] && callout[i - 2] in callout;
    }
    SpanIs(line, NotBracket, |callout| + 2);
  }

  lemma CalloutHoldsNoBracket(callout: string)
    requires ValidCallout(Some(callout))
    ensures ']' !in callout
  {
    forall i | 0 <= i < |callout|
      ensures callout[i] != ']'
    {
      SpanAt(callout, c => Fence.IsAlphanumeric(c) || c == '-', i);
    }
  }

  lemma BracketOpens(line: string)
    requires OpensNoBlock(line)
    ensures !("[!" <= line)
  {
  }

  /**
   * A quote is read back with its callout and its title exactly and with its lines as the client's lines are shown;
   * a line of the client is never taken for the callout. A title without a callout does not get past the normaliser.
   */
  lemma QuoteReads(quote: Quote)
    requires ValidQuote(quote) && (quote.title.Some? ==> quote.callout.Some?)
    ensures var r := ReadQuote(G.QuoteLines(quote));
      && r.Some? && r.value.callout == quote.callout && r.value.title == quote.title
      && AllShown(r.value.lines) == AllShown(quote.lines)
  {
    hide Shown, EscapeBlockStart, IsLine, OpensNoBlock, ValidTexts, ValidCallout, G.EscapedQuoteLines, Unquoted, EscapedLines, AllShown;
    QuoteLinesRead(quote.lines);
    EscapedLinesShow(quote.lines);
    var body := EscapedLines(quote.lines);
    if quote.callout.None? {
      assert G.QuoteLines(quote) == G.EscapedQuoteLines(quote.lines);
      assert body != [] by { EscapedLinesExist(quote.lines); }
      BracketOpens(body[0]);
    } else {
      CalloutHoldsNoBracket(quote.callout.value);
      assert quote.callout.value != "" by { CalloutExists(quote.callout.value); }
      var tail := if quote.title.Some? then " " + quote.title.value else "";
      var header := "[!" + quote.callout.value + "]" + tail;
      CalloutLineReads(quote.callout.value, tail);
      HeaderReads(quote);
      UnquotedFirst(header, G.EscapedQuoteLines(quote.lines));
      assert quote.title.Some? ==> tail[1..] == quote.title.value;
    }
  }

  lemma EscapedLinesExist(lines: seq<string>)
    requires lines != []
    ensures EscapedLines(lines) != []
  {
  }

  lemma CalloutExists(callout: string)
    requires ValidCallout(Some(callout))
    ensures callout != ""
  {
  }

  lemma HeaderReads(quote: Quote)
    requires quote.callout.Some? && quote.callout.value != "" && (quote.title.Some? ==> quote.title.value != "")
    ensures var tail := if quote.title.Some? then " " + quote.title.value else "";
      G.QuoteHeader(quote) == ["> " + ("[!" + quote.callout.value + "]" + tail)]
  {
    var tail := if quote.title.Some? then " " + quote.title.value else "";
    assert "> [!" + quote.callout.value + "]" + tail == "> " + ("[!" + quote.callout.value + "]" + tail);
  }

  lemma UnquotedFirst(line: string, lines: seq<string>)
    requires Unquoted(lines).Some?
    ensures Unquoted(["> " + line] + lines) == Some([line] + Unquoted(lines).value)
  {
    var all := ["> " + line] + lines;
    assert all[1..] == lines && all[0][2..] == line;
  }

  // ----- Paragraphs and the parts of a step -----

  lemma IndentedLineShows(line: string)
    requires P.CleanLine(line)
    ensures var n := P.IndentOf(line); Shown(line[..n] + EscapeBlockStart(line[n..])) == Shown(line)
  {
    hide Shown, EscapeBlockStart;
    var n := P.IndentOf(line);
    forall i | 0 <= i < n
      ensures line[i] != '\\'
    {
      SpanAt(line, IsBlank, i);
    }
    EscapeIsInvisible(line[n..]);
    ShownBehind(line[..n], line[n..]);
    ShownBehind(line[..n], EscapeBlockStart(line[n..]));
    assert line[..n] + line[n..] == line;
  }

  lemma {:induction false} ParagraphLinesShow(lines: seq<string>, start: bool)
    requires P.CleanLines(lines) && P.Outdented(lines, start)
    ensures AllShown(P.RenderedLines(lines, start)) == AllShown(lines)
  {
    hide Shown, EscapeBlockStart, P.CleanLine, P.IndentOf;
    if lines != [] {
      var n, r := P.IndentOf(lines[0]), P.RenderedLines(lines, start);
      IndentedLineShows(lines[0]);
      ParagraphLinesShow(lines[1..], lines[0] == "");
      assert r[1..] == P.RenderedLines(lines[1..], lines[0] == "");
      assert start ==> lines[0][..n] + EscapeBlockStart(lines[0][n..]) == EscapeBlockStart(lines[0][n..]);
    }
  }

  /** A printed paragraph shows exactly its canonical lines. */
  lemma ParagraphShows(lines: seq<string>)
    requires P.Canonical(lines) && lines != []
    ensures AllShown(Lines(P.ParagraphText(lines))) == AllShown(lines)
  {
    hide Shown, P.FaithfulLine, P.CleanLines, P.Outdented, AllShown;
    ParagraphLinesShow(lines, true);
    P.RenderedLinesAreFaithful(lines, true);
    P.FaithfulLinesSplit(lines, P.RenderedLines(lines, true));
    SplitJoin(P.RenderedLines(lines, true), '\n');
  }

  /** These lines show one part of a step. */
  ghost predicate PartShows(part: StepPart, lines: seq<string>) {
    match part
    case StepText(content) => |lines| == 1 && OpensNoBlock(lines[0]) && Shown(lines[0]) == Shown(content)
    case CodePart(code) => ReadCaptionedCode(lines) == Some((code.caption, Fence.FencedBlock(Fence.InfoString(code.language), code.content, [])))
    case TablePart(table) => ReadCaptionedTable(lines)
      == Some((table.caption, Tables.ReadResult(table.headers, Tables.AlignmentList(table.alignments, |table.headers|), table.rows)))
    case QuotePart(quote) =>
      var r := ReadQuote(lines);
      && r.Some? && r.value.callout == quote.callout && r.value.title == quote.title
      && AllShown(r.value.lines) == AllShown(quote.lines)
  }

  /** The normaliser lets no title through without a callout. */
  lemma TitleHasCallout(sent: QuoteBlock)
    ensures var r := B.NormalQuote(sent);
      r.Ok? && r.value.Some? && r.value.value.title.Some? ==> r.value.value.callout.Some?
  {
    hide OneLine, B.NonEmptyLines;
  }

  /** Every part of a step is read back from its own lines, but for the tables whose caption passes for the header. */
  lemma PartReads(part: StepPart)
    requires S.ValidPart(part)
    requires part.QuotePart? && part.quote.title.Some? ==> part.quote.callout.Some?
    ensures PartShows(part, S.PartLines(part)) <==> !(part.TablePart? && CaptionPassesForHeader(part.table))
  {
    hide Shown, AllShown, EscapeBlockStart, OpensNoBlock, IsLine, ValidCode, ValidTable, ValidQuote, Fence.FenceLines, Fence.CaptionLines,
      Fence.InfoString, ReadCaptionedCode, ReadCaptionedTable, ReadQuote, CaptionPassesForHeader, G.QuoteLines, Tables.TableLines,
      Tables.AlignmentList, Lines, Join;
    match part
    case StepText(content) =>
      TextStart(content);
      EscapeIsInvisible(content);
      EscapeOpensNoBlock(content);
    case CodePart(code) =>
      CodeReads(code, []);
      var lines := Fence.CaptionLines(code.caption) + Fence.FenceLines(code);
      assert lines + [] == lines;
    case TablePart(table) =>
      TableReads(table);
      TableLinesAreFlat(table);
      FlatSplit(Tables.TableLines(table));
    case QuotePart(quote) =>
      QuoteReads(quote);
      QuoteLinesAreFlat(quote);
      FlatSplit(G.QuoteLines(quote));
  }
}
