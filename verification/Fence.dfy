/** Code content, its fence, and a reader of fenced blocks (section 4.5 of the CommonMark spec). */
module Fence {
  import opened Text
  import opened Escape
  import opened Blocks

  // ----- _canonicalise_code -----

  function UnifyNewlines(s: string): string
    decreases |s|
  {
    if s == "" then ""
    else if "\r\n" <= s then "\n" + UnifyNewlines(s[2..])
    else if s[0] == '\r' then "\n" + UnifyNewlines(s[1..])
    else [s[0]] + UnifyNewlines(s[1..])
  }

  function DropFinalNewline(s: string): string {
    if s != "" && s[|s| - 1] == '\n' then s[..|s| - 1] else s
  }

  function CanonicaliseCode(content: string): string {
    DropFinalNewline(Remove(UnifyNewlines(content), IsCodeControl))
  }

  lemma {:induction false} UnifyChars(s: string)
    ensures '\r' !in UnifyNewlines(s)
    ensures '\r' !in s ==> UnifyNewlines(s) == s
    decreases |s|
  {
    if s != "" {
      assert s[0] in s;
      UnifyChars(if "\r\n" <= s then s[2..] else s[1..]);
    }
  }

  predicate CodeText(s: string) {
    forall c :: c in s ==> !IsCodeControl(c)
  }

  lemma CanonicalCodeIsText(content: string)
    ensures CodeText(CanonicaliseCode(content))
    ensures '\r' !in CanonicaliseCode(content)
  {
    RemoveChars(UnifyNewlines(content), IsCodeControl);
    assert IsCodeControl('\r');
  }

  /**
   * A second run only takes a second final newline: canonicalisation is stable exactly when the content, line endings
   * unified and control characters dropped, does not end in two newlines.
   */
  lemma CanonicalCodeStable(content: string)
    ensures var text := Remove(UnifyNewlines(content), IsCodeControl);
      CanonicaliseCode(CanonicaliseCode(content)) == CanonicaliseCode(content)
      <==> !(|text| >= 2 && text[|text| - 2] == '\n' && text[|text| - 1] == '\n')
  {
    hide UnifyNewlines, Remove, CodeText, IsCodeControl;
    CanonicalCodeIsText(content);
    TextIsCanonical(CanonicaliseCode(content));
  }

  /** Of a text in canonical form, only the final newline is at stake. */
  lemma TextIsCanonical(text: string)
    requires CodeText(text) && '\r' !in text
    ensures CanonicaliseCode(text) == DropFinalNewline(text)
  {
    hide IsCodeControl;
    UnifyChars(text);
    RemoveChars(text, IsCodeControl);
  }

  /** Two final newlines: the second run takes what the first one kept. */
  lemma CodeIsNotIdempotent()
    ensures CanonicaliseCode("a\n\n") == "a\n" && CanonicaliseCode("a\n") == "a"
  {
    assert UnifyNewlines("a\n\n") == "a\n\n" by { UnifyChars("a\n\n"); }
    assert UnifyNewlines("a\n") == "a\n" by { UnifyChars("a\n"); }
    RemoveChars("a\n\n", IsCodeControl);
    RemoveChars("a\n", IsCodeControl);
  }

  // ----- _fence_for -----

  predicate IsTick(c: char) {
    c == '`'
  }

  /** The lengths of `re.findall("`+", s)`. */
  function TickRuns(s: string): seq<nat>
    decreases |s|
  {
    if s == "" then []
    else
      var n := Span(s, IsTick);
      if n == 0 then TickRuns(s[1..]) else [n] + TickRuns(s[n..])
  }

  /** `max(runs, default=0)` */
  function Longest(runs: seq<nat>): nat {
    if runs == [] then 0
    else
      var rest := Longest(runs[1..]);
      if runs[0] > rest then runs[0] else rest
  }

  function FenceLength(content: string): (r: nat)
    ensures r >= 3
  {
    var n := Longest(TickRuns(content)) + 1;
    if n < 3 then 3 else n
  }

  function FenceFor(content: string): string {
    Repeat('`', FenceLength(content))
  }

  /** Backticks side by side anywhere in the text are shorter than its fence. */
  lemma {:induction false} TicksFit(s: string, from: nat, n: nat)
    requires from + n <= |s| && forall i :: from <= i < from + n ==> s[i] == '`'
    ensures n <= Longest(TickRuns(s))
    decreases |s|
  {
    if n > 0 {
      var first := Span(s, IsTick);
      assert first < |s| ==> s[first] != '`';
      if first <= from {
        var skip := if first == 0 then 1 else first;
        TicksFit(s[skip..], from - skip, n);
      }
    }
  }

  /** That many backticks side by side, from `k` on. */
  predicate TicksAt(s: string, k: nat, n: nat) {
    k + n <= |s| && forall i :: k <= i < k + n ==> s[i] == '`'
  }

  ghost predicate HoldsTicks(s: string, n: nat) {
    exists k: nat :: TicksAt(s, k, n)
  }

  lemma {:induction false} LongestIsThere(s: string) returns (k: nat)
    ensures TicksAt(s, k, Longest(TickRuns(s)))
    decreases |s|
  {
    k := 0;
    if s != "" {
      var n := Span(s, IsTick);
      var skip := if n == 0 then 1 else n;
      var later := LongestIsThere(s[skip..]);
      TicksBehind(s, skip, later, Longest(TickRuns(s[skip..])));
      if n > 0 && n > Longest(TickRuns(s[n..])) {
        forall i | 0 <= i < n
          ensures s[i] == '`'
        {
          SpanAt(s, IsTick, i);
        }
      } else {
        k := skip + later;
      }
    }
  }

  lemma TicksBehind(s: string, skip: nat, k: nat, n: nat)
    requires skip <= |s| && TicksAt(s[skip..], k, n)
    ensures TicksAt(s, skip + k, n)
  {
    assert forall i :: skip + k <= i < skip + k + n ==> s[i] == s[skip..][i - skip];
  }

  /**
   * The fence is as short as it can be: as many backticks side by side are nowhere in the content, and one less are
   * somewhere in it, unless that makes only the two that no fence can do with.
   */
  lemma FenceIsShortest(content: string)
    ensures !HoldsTicks(content, FenceLength(content))
    ensures FenceLength(content) == 3 || HoldsTicks(content, FenceLength(content) - 1)
  {
    hide TickRuns, Longest;
    if k: nat :| TicksAt(content, k, FenceLength(content)) {
      TicksFit(content, k, FenceLength(content));
    }
    var k := LongestIsThere(content);
    assert HoldsTicks(content, Longest(TickRuns(content)));
  }

  // ----- _render_fenced_code -----

  /** `^[A-Za-z0-9][A-Za-z0-9+#._-]{0,31}$`, matched whole. */
  predicate IsSafeLanguage(value: string) {
    && 1 <= |value| <= 32
    && IsAlphanumeric(value[0])
    && Only(value[1..], c => IsAlphanumeric(c) || c in "+#._-")
  }

  predicate IsAlphanumeric(c: char) {
    'A' <= c <= 'Z' || 'a' <= c <= 'z' || '0' <= c <= '9'
  }

  function InfoString(language: Option<string>): string {
    if language.Some? && IsSafeLanguage(language.value) then language.value else ""
  }

  function EscapeInline(value: string): string {
    Replace(value, c => c in "\\`*_[]<>&~=$%#^", c => ['\\', c])
  }

  function Caption(text: string): string {
    EscapeBlockStart(EscapeInline(text))
  }

  /** Every non-empty line behind the indentation. */
  function Indent(lines: seq<string>, indent: string): (r: seq<string>)
    ensures |r| == |lines|
  {
    if lines == [] then []
    else [if lines[0] == "" then "" else indent + lines[0]] + Indent(lines[1..], indent)
  }

  lemma {:induction false} IndentConcat(a: seq<string>, b: seq<string>, indent: string)
    ensures Indent(a + b, indent) == Indent(a, indent) + Indent(b, indent)
  {
    if a == [] {
      assert a + b == b;
    } else {
      IndentConcat(a[1..], b, indent);
      assert (a + b)[1..] == a[1..] + b;
      Regroup([if a[0] == "" then "" else indent + a[0]], Indent(a[1..], indent), Indent(b, indent));
    }
  }

  function CaptionLines(caption: Option<string>): seq<string> {
    if caption.Some? && caption.value != "" then [Caption(caption.value)] else []
  }

  /** The fence and its content, without caption and without indentation. */
  function FenceLines(code: Code): seq<string> {
    var fence := FenceFor(code.content);
    [fence + InfoString(code.language)] + Lines(code.content) + [fence]
  }

  function CodeLines(code: Code, indent: string): seq<string> {
    Indent(CaptionLines(code.caption) + FenceLines(code), indent)
  }

  lemma IndentOne(line: string, indent: string)
    requires line != ""
    ensures Indent([line], indent) == [indent + line]
  {
  }

  lemma CodeLinesInParts(code: Code, indent: string)
    ensures var fence := FenceFor(code.content);
      CodeLines(code, indent)
      == Indent(CaptionLines(code.caption), indent) + [indent + fence + InfoString(code.language)]
         + Indent(Lines(code.content), indent) + [indent + fence]
  {
    hide InfoString;
    var fence, info, content := FenceFor(code.content), InfoString(code.language), Lines(code.content);
    IndentConcat(CaptionLines(code.caption), FenceLines(code), indent);
    IndentConcat([fence + info] + content, [fence], indent);
    IndentConcat([fence + info], content, indent);
    IndentOne(fence, indent);
    IndentOne(fence + info, indent);
    assert indent + (fence + info) == indent + fence + info;
  }

  method RenderFencedCode(code: Code, indent: string) returns (lines: seq<string>)
    ensures lines == CodeLines(code, indent)
  {
    hide EscapeBlockStart, EscapeInline, InfoString, CodeLines;
    lines := [];
    if code.caption.Some? && code.caption.value != "" {
      CaptionNotEmpty(code.caption.value);
      IndentOne(Caption(code.caption.value), indent);
      lines := lines + [indent + Caption(code.caption.value)];
    }
    var fence := FenceFor(code.content);
    lines := lines + [indent + fence + InfoString(code.language)];
    ghost var head := lines;
    assert head == Indent(CaptionLines(code.caption), indent) + [indent + fence + InfoString(code.language)];
    var content := Lines(code.content);
    for i := 0 to |content|
      invariant lines + Indent(content[i..], indent) == head + Indent(content, indent)
    {
      var line := content[i];
      assert content[i..][0] == line && content[i..][1..] == content[i + 1..];
      lines := lines + [if line != "" then indent + line else ""];
    }
    assert lines == head + Indent(content, indent);
    lines := lines + [indent + fence];
    CodeLinesInParts(code, indent);
  }

  lemma CaptionNotEmpty(text: string)
    requires text != ""
    ensures Caption(text) != ""
  {
    EscapeChars(EscapeInline(text));
  }

  // ----- The reader -----

  /** A line without the container's indentation; a line that lacks it keeps what it has. */
  function Unindent(line: string, indent: string): string {
    if indent <= line then line[|indent|..] else line
  }

  function UnindentAll(lines: seq<string>, indent: string): seq<string> {
    if lines == [] then [] else [Unindent(lines[0], indent)] + UnindentAll(lines[1..], indent)
  }

  /** An opening fence at the left margin: three backticks or more, and no backtick after them. */
  function OpeningFence(line: string): Option<(nat, string)> {
    var n := Span(line, IsTick);
    if n >= 3 && '`' !in line[n..] then Some((n, line[n..])) else None
  }

  /** A closing fence: up to three spaces, at least `n` backticks, then only blanks. */
  predicate ClosingFence(line: string, n: nat) {
    var indent := Span(line, c => c == ' ');
    var rest := line[indent..];
    var ticks := Span(rest, IsTick);
    indent <= 3 && ticks >= n && Only(rest[ticks..], IsBlank)
  }

  /** The lines up to the first closing fence, and the lines behind it. */
  function ReadContent(lines: seq<string>, n: nat): Option<(seq<string>, seq<string>)> {
    if lines == [] then None
    else if ClosingFence(lines[0], n) then Some(([], lines[1..]))
    else
      match ReadContent(lines[1..], n)
      case None => None
      case Some((content, rest)) => Some(([lines[0]] + content, rest))
  }

  datatype FencedBlock = FencedBlock(info: string, content: string, rest: seq<string>)

  function ReadFence(lines: seq<string>): Option<FencedBlock> {
    if lines == [] || OpeningFence(lines[0]).None? then None
    else
      var (n, info) := OpeningFence(lines[0]).value;
      match ReadContent(lines[1..], n)
      case None => None
      case Some((content, rest)) => Some(FencedBlock(info, Join(content, "\n"), rest))
  }

  // ----- The round trip -----

  lemma {:induction false} UnindentIndent(lines: seq<string>, indent: string)
    requires forall i :: 0 <= i < |indent| ==> indent[i] == ' '
    ensures UnindentAll(Indent(lines, indent), indent) == lines
  {
    if lines != [] {
      UnindentIndent(lines[1..], indent);
      assert lines == [lines[0]] + lines[1..];
    }
  }

  /** A run of backticks inside one line is a run inside the whole content. */
  lemma {:induction false} LineInside(lines: seq<string>, k: nat) returns (from: nat)
    requires k < |lines|
    ensures from + |lines[k]| <= |Join(lines, "\n")|
    ensures Join(lines, "\n")[from..from + |lines[k]|] == lines[k]
  {
    if k == 0 {
      from := 0;
    } else {
      var inner := LineInside(lines[1..], k - 1);
      from := |lines[0]| + 1 + inner;
      var rest := Join(lines[1..], "\n");
      assert Join(lines, "\n")[|lines[0]| + 1..] == rest;
    }
  }

  /** No part of a line of the content, up to the line's end, can close the fence chosen for it. */
  lemma TailDoesNotClose(content: string, k: nat, start: nat)
    requires k < |Lines(content)| && start <= |Lines(content)[k]|
    ensures !ClosingFence(Lines(content)[k][start..], FenceLength(content))
  {
    hide Split, Join;
    var lines := Lines(content);
    JoinSplit(content, '\n');
    var whole := LineInside(lines, k);
    var from := whole + start;
    assert content[whole..whole + |lines[k]|][start..] == content[from..whole + |lines[k]|];
    var line := lines[k][start..];
    assert content[from..from + |line|] == line;
    var indent := Span(line, c => c == ' ');
    var ticks := Span(line[indent..], IsTick);
    forall i | from + indent <= i < from + indent + ticks
      ensures content[i] == '`'
    {
      SpanAt(line[indent..], IsTick, i - from - indent);
      assert content[i] == content[from..from + |line|][i - from];
    }
    TicksFit(content, from + indent, ticks);
  }

  /** No line of the content can close the fence chosen for it. */
  lemma ContentDoesNotClose(content: string, k: nat)
    requires k < |Lines(content)|
    ensures !ClosingFence(Lines(content)[k], FenceLength(content))
  {
    hide Split, ClosingFence, FenceLength;
    TailDoesNotClose(content, k, 0);
    assert Lines(content)[k][0..] == Lines(content)[k];
  }

  lemma {:induction false} ReadContentOf(lines: seq<string>, last: string, rest: seq<string>, n: nat)
    requires forall k :: 0 <= k < |lines| ==> !ClosingFence(lines[k], n)
    requires ClosingFence(last, n)
    ensures ReadContent(lines + [last] + rest, n) == Some((lines, rest))
  {
    hide ClosingFence;
    var all := lines + [last] + rest;
    if lines == [] {
      assert all[0] == last && all[1..] == rest;
    } else {
      ReadContentOf(lines[1..], last, rest, n);
      assert all[0] == lines[0] && all[1..] == lines[1..] + [last] + rest;
      assert [lines[0]] + lines[1..] == lines;
    }
  }

  lemma InfoHasNoTick(language: Option<string>)
    ensures '`' !in InfoString(language)
  {
    if language.Some? && IsSafeLanguage(language.value) {
      var value := language.value;
      forall i | 0 <= i < |value|
        ensures value[i] != '`'
      {
        if i > 0 {
          SpanAt(value[1..], c => IsAlphanumeric(c) || c in "+#._-", i - 1);
        }
      }
    }
  }

  lemma FenceIsFence(n: nat, info: string)
    requires n >= 3 && '`' !in info
    ensures OpeningFence(Repeat('`', n) + info) == Some((n, info))
    ensures ClosingFence(Repeat('`', n), n)
  {
    var line := Repeat('`', n) + info;
    SpanIs(line, IsTick, n);
    assert line[n..] == info;
    var fence := Repeat('`', n);
    SpanIs(fence, c => c == ' ', 0);
    SpanIs(fence, IsTick, n);
    assert fence[0..] == fence && fence[n..] == "";
  }

  lemma FencedLinesRead(fence: string, n: nat, info: string, content: string, rest: seq<string>)
    requires OpeningFence(fence + info) == Some((n, info)) && ClosingFence(fence, n)
    requires forall k :: 0 <= k < |Lines(content)| ==> !ClosingFence(Lines(content)[k], n)
    ensures ReadFence([fence + info] + Lines(content) + [fence] + rest) == Some(FencedBlock(info, content, rest))
  {
    hide ClosingFence, OpeningFence;
    var lines := Lines(content);
    ReadContentOf(lines, fence, rest, n);
    var all := [fence + info] + lines + [fence] + rest;
    assert all[0] == fence + info;
    assert all[1..] == lines + [fence] + rest;
    JoinSplit(content, '\n');
  }

  /**
   * The fence round trip: behind any indentation, with any lines after it, the reader closes the block at its
   * last rendered line and recovers info string and content exactly, whatever backticks the content holds.
   */
  lemma FenceRoundTrip(code: Code, indent: string, rest: seq<string>)
    requires forall i :: 0 <= i < |indent| ==> indent[i] == ' '
    ensures UnindentAll(Indent(FenceLines(code), indent), indent) == FenceLines(code)
    ensures ReadFence(FenceLines(code) + rest)
         == Some(FencedBlock(InfoString(code.language), code.content, rest))
  {
    hide ClosingFence, IsSafeLanguage, OpeningFence, ReadFence, FenceLength;
    var n := FenceLength(code.content);
    UnindentIndent(FenceLines(code), indent);
    InfoHasNoTick(code.language);
    FenceIsFence(n, InfoString(code.language));
    forall k | 0 <= k < |Lines(code.content)|
      ensures !ClosingFence(Lines(code.content)[k], n)
    {
      ContentDoesNotClose(code.content, k);
    }
    FencedLinesRead(FenceFor(code.content), n, InfoString(code.language), code.content, rest);
  }
}
