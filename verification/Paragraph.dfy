/** Paragraph prose: canonical lines, and their escaped rendering. */
module Paragraph {
  import opened Text
  import opened Escape

  // ----- _canonicalise_paragraph (after Unicode NFC) -----

  /** Every line-breaking character becomes a newline, CRLF becoming one. */
  function BreaksToNewlines(s: string): string
    decreases |s|
  {
    if s == "" then ""
    else if "\r\n" <= s then "\n" + BreaksToNewlines(s[2..])
    else (if IsLineBreak(s[0]) then "\n" else [s[0]]) + BreaksToNewlines(s[1..])
  }

  function StripRightAll(lines: seq<string>): seq<string> {
    if lines == [] then [] else [StripRight(lines[0])] + StripRightAll(lines[1..])
  }

  function DropLeadingBlank(lines: seq<string>): (r: seq<string>)
    ensures r != [] ==> r[0] != ""
  {
    if lines != [] && lines[0] == "" then DropLeadingBlank(lines[1..]) else lines
  }

  function DropTrailingBlank(lines: seq<string>): (r: seq<string>)
    ensures r <= lines
    ensures r != [] ==> r[|r| - 1] != ""
  {
    if lines != [] && lines[|lines| - 1] == "" then DropTrailingBlank(lines[..|lines| - 1]) else lines
  }

  function IndentOf(line: string): (n: nat)
    ensures n <= |line|
  {
    Span(line, IsBlank)
  }

  /** Indentation goes from every line that opens a block (the first, or the first after a blank line). */
  function Outdent(lines: seq<string>, atBlockStart: bool): seq<string> {
    if lines == [] then []
    else [if atBlockStart then lines[0][IndentOf(lines[0])..] else lines[0]] + Outdent(lines[1..], lines[0] == "")
  }

  function RawLines(content: string): seq<string> {
    StripRightAll(Lines(Remove(BreaksToNewlines(content), IsCodeControl)))
  }

  function CanonicalLines(content: string): seq<string> {
    Outdent(DropTrailingBlank(DropLeadingBlank(RawLines(content))), true)
  }

  method CanonicaliseParagraph(content: string) returns (result: seq<string>)
    ensures result == CanonicalLines(content)
  {
    var lines := RawLines(content);
    ghost var leading := DropLeadingBlank(lines);
    while lines != [] && lines[0] == ""
      invariant DropLeadingBlank(lines) == leading
      decreases |lines|
    {
      lines := lines[1..];
    }
    ghost var kept := DropTrailingBlank(lines);
    while lines != [] && lines[|lines| - 1] == ""
      invariant DropTrailingBlank(lines) == kept
      decreases |lines|
    {
      lines := lines[..|lines| - 1];
    }
    if lines == [] {
      return [];
    }
    result := OutdentLoop(lines);
  }

  lemma EmptyIndent()
    ensures IndentOf("") == 0
  {
  }

  /** The second half of `CanonicaliseParagraph`: the loop over the surviving lines. */
  method OutdentLoop(lines: seq<string>) returns (result: seq<string>)
    ensures result == Outdent(lines, true)
  {
    hide IndentOf;
    EmptyIndent();
    result := [];
    var atBlockStart := true;
    for i := 0 to |lines|
      invariant result + Outdent(lines[i..], atBlockStart) == Outdent(lines, true)
    {
      var line := lines[i];
      assert lines[i..][0] == line && lines[i..][1..] == lines[i + 1..];
      Regroup(result, [if atBlockStart then line[IndentOf(line)..] else line], Outdent(lines[i + 1..], line == ""));
      if line == "" {
        result := result + [""];
        atBlockStart := true;
      } else {
        if atBlockStart {
          result := result + [line[IndentOf(line)..]];
        } else {
          result := result + [line];
        }
        atBlockStart := false;
      }
    }
  }

  /** No line break, no control character but tab, no trailing whitespace. */
  predicate CleanLine(line: string) {
    && (forall c :: c in line ==> !IsLineBreak(c) && !IsCodeControl(c))
    && (line != "" ==> !IsSpace(line[|line| - 1]))
  }

  predicate CleanLines(lines: seq<string>) {
    lines != [] ==> CleanLine(lines[0]) && CleanLines(lines[1..])
  }

  /** Lines that open a block have no indentation. */
  predicate Outdented(lines: seq<string>, atBlockStart: bool) {
    lines != [] ==> (atBlockStart ==> IndentOf(lines[0]) == 0) && Outdented(lines[1..], lines[0] == "")
  }

  predicate NoBlankEnds(lines: seq<string>) {
    lines != [] ==> lines[0] != "" && lines[|lines| - 1] != ""
  }

  /** The shape of a canonical paragraph; the empty one is dropped by every caller. */
  predicate Canonical(lines: seq<string>) {
    CleanLines(lines) && NoBlankEnds(lines) && Outdented(lines, true)
  }

  lemma {:induction false} StrippedLinesAreClean(lines: seq<string>)
    requires forall k, c :: 0 <= k < |lines| && c in lines[k] ==> !IsLineBreak(c) && !IsCodeControl(c)
    ensures CleanLines(StripRightAll(lines))
  {
    if lines != [] {
      StrippedLinesAreClean(lines[1..]);
    }
  }

  lemma RawLinesAreClean(content: string)
    ensures CleanLines(RawLines(content))
  {
    var text := Remove(BreaksToNewlines(content), IsCodeControl);
    BreaksChars(content);
    RemoveChars(BreaksToNewlines(content), IsCodeControl);
    var lines := Lines(text);
    forall k, c | 0 <= k < |lines| && c in lines[k]
      ensures !IsLineBreak(c) && !IsCodeControl(c)
    {
      SplitChars(text, '\n', k, c);
    }
    StrippedLinesAreClean(lines);
  }

  lemma {:induction false} BreaksChars(s: string)
    ensures forall c :: c in BreaksToNewlines(s) ==> c == '\n' || !IsLineBreak(c)
    decreases |s|
  {
    hide IsLineBreak;
    if s != "" {
      BreaksChars(if "\r\n" <= s then s[2..] else s[1..]);
    }
  }

  lemma {:induction false} BreaksIdle(s: string)
    requires forall c :: c in s ==> c == '\n' || !IsLineBreak(c)
    ensures BreaksToNewlines(s) == s
  {
    hide IsLineBreak;
    if s != "" {
      assert s[0] in s;
      CarriageReturnBreaks();
      BreaksIdle(s[1..]);
    }
  }

  lemma CarriageReturnBreaks()
    ensures IsLineBreak('\r')
  {
  }

  lemma {:induction false} CleanAfterDrops(lines: seq<string>)
    requires CleanLines(lines)
    ensures CleanLines(DropLeadingBlank(lines))
    ensures CleanLines(DropTrailingBlank(lines))
    decreases |lines|
  {
    if lines != [] {
      CleanAfterDrops(lines[1..]);
      var kept := DropTrailingBlank(lines);
      CleanPrefix(lines, |kept|);
      assert lines[..|kept|] == kept;
    }
  }

  lemma {:induction false} CleanPrefix(lines: seq<string>, n: nat)
    requires CleanLines(lines) && n <= |lines|
    ensures CleanLines(lines[..n])
  {
    if n > 0 {
      CleanPrefix(lines[1..], n - 1);
      assert lines[..n][1..] == lines[1..][..n - 1];
    }
  }

  /** A right-stripped line is not all blanks, so it keeps its last character without its indentation. */
  lemma OutdentLine(line: string)
    requires CleanLine(line)
    ensures CleanLine(line[IndentOf(line)..])
    ensures line[IndentOf(line)..] == "" <==> line == ""
    ensures IndentOf(line[IndentOf(line)..]) == 0
    ensures line != "" ==> IndentOf(line) < |line| && !IsBlank(line[IndentOf(line)])
  {
    var n := IndentOf(line);
    if line != "" {
      assert n < |line| by {
        if n == |line| {
          SpanAt(line, IsBlank, n - 1);
        }
      }
      SpanIs(line[n..], IsBlank, 0);
    }
  }

  lemma {:induction false} OutdentIsCanonical(lines: seq<string>, start: bool)
    requires CleanLines(lines)
    ensures var r := Outdent(lines, start);
      && CleanLines(r) && Outdented(r, start)
      && |r| == |lines| && (lines != [] ==> (r[0] == "" <==> lines[0] == ""))
      && (lines != [] ==> (r[|r| - 1] == "" <==> lines[|lines| - 1] == ""))
  {
    if lines != [] {
      OutdentLine(lines[0]);
      OutdentIsCanonical(lines[1..], lines[0] == "");
    }
  }

  lemma {:induction false} DropTrailingKeepsFirst(lines: seq<string>)
    requires lines != [] && lines[0] != ""
    ensures DropTrailingBlank(lines) != [] && DropTrailingBlank(lines)[0] == lines[0]
  {
    if lines[|lines| - 1] == "" {
      DropTrailingKeepsFirst(lines[..|lines| - 1]);
    }
  }

  /** No leading or trailing blank line, no trailing whitespace, no indentation where a block could open. */
  lemma CanonicalLinesAreCanonical(content: string)
    ensures Canonical(CanonicalLines(content))
  {
    hide RawLines;
    var lines := DropLeadingBlank(RawLines(content));
    RawLinesAreClean(content);
    CleanAfterDrops(RawLines(content));
    CleanAfterDrops(lines);
    if lines != [] {
      DropTrailingKeepsFirst(lines);
    }
    OutdentIsCanonical(DropTrailingBlank(lines), true);
  }

  lemma {:induction false} JoinedChars(lines: seq<string>)
    requires CleanLines(lines)
    ensures forall c :: c in Join(lines, "\n") ==> c == '\n' || (!IsLineBreak(c) && !IsCodeControl(c))
  {
    if |lines| > 1 {
      JoinedChars(lines[1..]);
    }
  }

  lemma {:induction false} CleanLinesSplit(lines: seq<string>)
    requires CleanLines(lines)
    ensures StripRightAll(lines) == lines
    ensures forall k :: 0 <= k < |lines| ==> '\n' !in lines[k]
  {
    if lines != [] {
      CleanLinesSplit(lines[1..]);
      forall k | 0 <= k < |lines|
        ensures '\n' !in lines[k]
      {
        assert k > 0 ==> lines[k] == lines[1..][k - 1];
      }
    }
  }

  lemma {:induction false} OutdentIdle(lines: seq<string>, start: bool)
    requires Outdented(lines, start)
    ensures Outdent(lines, start) == lines
  {
    if lines != [] {
      OutdentIdle(lines[1..], lines[0] == "");
    }
  }

  /** Canonical lines, put back together, canonicalise to themselves. */
  lemma CanonicalIsFixed(lines: seq<string>)
    requires Canonical(lines) && lines != []
    ensures CanonicalLines(Join(lines, "\n")) == lines
  {
    var text := Join(lines, "\n");
    JoinedChars(lines);
    BreaksIdle(text);
    RemoveChars(text, IsCodeControl);
    CleanLinesSplit(lines);
    SplitJoin(lines, '\n');
    OutdentIdle(lines, true);
  }

  /** Canonicalisation is idempotent (on NFC text). */
  lemma CanonicalisationIdempotent(content: string)
    ensures CanonicalLines(Join(CanonicalLines(content), "\n")) == CanonicalLines(content)
  {
    hide RawLines;
    CanonicalLinesAreCanonical(content);
    if CanonicalLines(content) == [] {
      EmptyContent();
    } else {
      CanonicalIsFixed(CanonicalLines(content));
    }
  }

  lemma EmptyContent()
    ensures CanonicalLines("") == []
  {
    assert RawLines("") == [""];
  }

  // ----- _render_paragraph -----

  /** Every line is escaped behind its indentation, which only a line inside a paragraph keeps. */
  function RenderedLines(lines: seq<string>, atBlockStart: bool): seq<string> {
    if lines == [] then []
    else
      var n := IndentOf(lines[0]);
      var escaped := EscapeBlockStart(lines[0][n..]);
      [if lines[0] == "" then "" else if atBlockStart then escaped else lines[0][..n] + escaped]
      + RenderedLines(lines[1..], lines[0] == "")
  }

  function ParagraphText(lines: seq<string>): string {
    Join(RenderedLines(lines, true), "\n")
  }

  method RenderParagraph(lines: seq<string>) returns (text: string)
    ensures text == ParagraphText(lines)
  {
    hide EscapeBlockStart, IndentOf;
    var rendered: seq<string> := [];
    var atBlockStart := true;
    for i := 0 to |lines|
      invariant rendered + RenderedLines(lines[i..], atBlockStart) == RenderedLines(lines, true)
    {
      var line := lines[i];
      assert lines[i..][0] == line && lines[i..][1..] == lines[i + 1..];
      Regroup(rendered, [RenderedLines(lines[i..], atBlockStart)[0]], RenderedLines(lines[i + 1..], line == ""));
      if line == "" {
        rendered := rendered + [""];
        atBlockStart := true;
      } else {
        var indent, rest := line[..IndentOf(line)], line[IndentOf(line)..];
        var escaped := EscapeBlockStart(rest);
        rendered := rendered + [if atBlockStart then escaped else indent + escaped];
        atBlockStart := false;
      }
    }
    assert rendered == RenderedLines(lines, true);
    text := Join(rendered, "\n");
  }

  /** One rendered line against its canonical line. */
  ghost predicate FaithfulLine(line: string, rendered: string) {
    && (rendered == "" <==> line == "")
    && AddsOneBackslash(line, rendered)
    && IndentOf(rendered) == IndentOf(line)
    && OpensNoBlock(rendered[IndentOf(rendered)..])
    && '\n' !in rendered
  }

  ghost predicate FaithfulLines(lines: seq<string>, rendered: seq<string>) {
    if lines == [] || rendered == [] then lines == rendered
    else FaithfulLine(lines[0], rendered[0]) && FaithfulLines(lines[1..], rendered[1..])
  }

  /** Adding a backslash behind a prefix. */
  lemma BackslashBehind(prefix: string, a: string, b: string)
    requires AddsOneBackslash(a, b)
    ensures AddsOneBackslash(prefix + a, prefix + b)
  {
    if a != b {
      var k :| 0 <= k <= |a| && b == a[..k] + "\\" + a[k..];
      var n := |prefix| + k;
      assert (prefix + a)[..n] == prefix + a[..k];
      assert (prefix + a)[n..] == a[k..];
      assert prefix + b == (prefix + a)[..n] + "\\" + (prefix + a)[n..];
    }
  }

  /** Replacing what follows the indentation leaves the indentation alone. */
  lemma IndentKept(line: string, rest: string)
    requires rest != "" && !IsBlank(rest[0])
    ensures IndentOf(line[..IndentOf(line)] + rest) == IndentOf(line)
  {
    forall i | 0 <= i < IndentOf(line)
      ensures IsBlank(line[i])
    {
      SpanAt(line, IsBlank, i);
    }
    SpanIs(line[..IndentOf(line)] + rest, IsBlank, IndentOf(line));
  }

  lemma RenderedLineHasNoNewline(line: string)
    requires CleanLine(line)
    ensures '\n' !in line[..IndentOf(line)] + EscapeBlockStart(line[IndentOf(line)..])
  {
    hide EscapeBlockStart;
    EscapeChars(line[IndentOf(line)..]);
    assert IsLineBreak('\n');
  }

  lemma RenderedLineIsFaithful(line: string)
    requires CleanLine(line) && line != ""
    ensures FaithfulLine(line, line[..IndentOf(line)] + EscapeBlockStart(line[IndentOf(line)..]))
  {
    hide EscapeBlockStart, OpensNoBlock, AddsOneBackslash, CleanLine, IndentOf;
    var n := IndentOf(line);
    var indent, rest := line[..n], line[n..];
    var escaped := EscapeBlockStart(rest);
    OutdentLine(line);
    EscapeOpensNoBlock(rest);
    EscapeChars(rest);
    BackslashBehind(indent, rest, escaped);
    assert indent + rest == line;
    IndentKept(line, escaped);
    assert (indent + escaped)[n..] == escaped;
    RenderedLineHasNoNewline(line);
  }

  lemma EmptyLineIsFaithful()
    ensures FaithfulLine("", "")
  {
  }

  lemma {:induction false} RenderedLinesAreFaithful(lines: seq<string>, start: bool)
    requires CleanLines(lines) && Outdented(lines, start)
    ensures FaithfulLines(lines, RenderedLines(lines, start))
    ensures Outdented(RenderedLines(lines, start), start)
  {
    hide EscapeBlockStart, FaithfulLine;
    if lines != [] {
      var r := RenderedLines(lines, start);
      RenderedLinesAreFaithful(lines[1..], lines[0] == "");
      assert r[1..] == RenderedLines(lines[1..], lines[0] == "");
      if lines[0] == "" {
        EmptyLineIsFaithful();
      } else {
        RenderedLineIsFaithful(lines[0]);
        var n := IndentOf(lines[0]);
        assert r[0] == lines[0][..n] + EscapeBlockStart(lines[0][n..]);
        FaithfulFacts(lines[0], r[0]);
      }
    }
  }

  lemma FaithfulFacts(line: string, rendered: string)
    requires FaithfulLine(line, rendered)
    ensures IndentOf(rendered) == IndentOf(line) && (rendered == "" <==> line == "") && '\n' !in rendered
  {
  }

  lemma {:induction false} FaithfulLinesSplit(lines: seq<string>, rendered: seq<string>)
    requires FaithfulLines(lines, rendered)
    ensures |lines| == |rendered|
    ensures forall k :: 0 <= k < |rendered| ==> '\n' !in rendered[k]
  {
    hide FaithfulLine;
    if rendered != [] && lines != [] {
      FaithfulFacts(lines[0], rendered[0]);
      FaithfulLinesSplit(lines[1..], rendered[1..]);
      forall k | 0 <= k < |rendered|
        ensures '\n' !in rendered[k]
      {
        assert k > 0 ==> rendered[k] == rendered[1..][k - 1];
      }
    }
  }

  /**
   * Rendering keeps the paragraph's lines and blank lines one to one, up to one added backslash each, and
   * no line, past its indentation, matches a block-opening pattern; a line that opens a block has no indentation.
   */
  lemma RenderingIsFaithful(lines: seq<string>)
    requires Canonical(lines) && lines != []
    ensures FaithfulLines(lines, Lines(ParagraphText(lines)))
    ensures Outdented(Lines(ParagraphText(lines)), true)
  {
    hide FaithfulLine;
    RenderedLinesAreFaithful(lines, true);
    FaithfulLinesSplit(lines, RenderedLines(lines, true));
    SplitJoin(RenderedLines(lines, true), '\n');
  }
}
