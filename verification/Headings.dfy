/** A line-based reader of headings: what it finds in a text, and which printed lines it cannot take for one. */
module Headings {
  import opened Text
  import opened Escape
  import opened Blocks
  import opened FlatLines
  import opened Containers
  import Fence

  /** Lines as Markdown ends them: at a newline, a carriage return, or both together. */
  function MarkdownLines(s: string): (r: seq<string>)
    ensures |r| >= 1
    decreases |s|
  {
    if s == "" then [""]
    else if "\r\n" <= s then [""] + MarkdownLines(s[2..])
    else if s[0] == '\n' || s[0] == '\r' then [""] + MarkdownLines(s[1..])
    else
      var rest := MarkdownLines(s[1..]);
      [[s[0]] + rest[0]] + rest[1..]
  }

  lemma {:induction false} MarkdownLinesAreLines(s: string)
    requires '\r' !in s
    ensures MarkdownLines(s) == Lines(s)
  {
    if s != "" {
      assert s[0] in s;
      MarkdownLinesAreLines(s[1..]);
    }
  }

  // ----- The reader -----

  /** Outside any fence, or inside one opened by `length` times `tick`. */
  datatype Mode = Outside | Fenced(tick: char, length: nat)

  predicate IsTilde(c: char) {
    c == '~'
  }

  predicate IsHash(c: char) {
    c == '#'
  }

  /** A fence at the left margin: three or more backticks (none after them) or tildes. */
  function Opens(line: string): Mode {
    var tildes := Span(line, IsTilde);
    if Fence.OpeningFence(line).Some? then Fenced('`', Fence.OpeningFence(line).value.0)
    else if tildes >= 3 then Fenced('~', tildes)
    else Outside
  }

  predicate Closes(line: string, mode: Mode)
    requires mode.Fenced?
  {
    if mode.tick == '`' then Fence.ClosingFence(line, mode.length)
    else
      var indent := Span(line, c => c == ' ');
      var rest := line[indent..];
      var tildes := Span(rest, IsTilde);
      indent <= 3 && tildes >= mode.length && Only(rest[tildes..], IsBlank)
  }

  /** An ATX heading of any level, or a line that would underline a setext heading. */
  predicate IsHeading(line: string) {
    var n := Span(line, IsHash);
    (1 <= n <= 6 && (n == |line| || IsBlank(line[n]))) || SetextUnderline(line)
  }

  datatype Scan = Scan(headings: seq<string>, mode: Mode)

  /** The headings at the left margin, outside fences at the left margin. */
  function ScanLines(lines: seq<string>, mode: Mode): Scan {
    if lines == [] then Scan([], mode)
    else if mode.Fenced? then ScanLines(lines[1..], if Closes(lines[0], mode) then Outside else mode)
    else
      var rest := ScanLines(lines[1..], Opens(lines[0]));
      Scan((if Opens(lines[0]).Outside? && IsHeading(lines[0]) then [lines[0]] else []) + rest.headings, rest.mode)
  }

  /** Every heading line of a note at the left margin. */
  function HeadingsOf(note: string): seq<string> {
    ScanLines(MarkdownLines(note), Outside).headings
  }

  /**
   * Every heading of a note behind any indentation and inside any quotes and list items, as a reader finds them who
   * peels every line down to its core before looking for headings and fences.
   */
  function DeepHeadingsOf(note: string): seq<string> {
    ScanLines(Cores(MarkdownLines(note)), Outside).headings
  }

  /** The mode behind one line, and the heading it is, if any. */
  function AfterLine(line: string, mode: Mode): Mode {
    if mode.Outside? then Opens(line) else if Closes(line, mode) then Outside else mode
  }

  function HeadingIn(line: string, mode: Mode): seq<string> {
    if mode.Outside? && Opens(line).Outside? && IsHeading(line) then [line] else []
  }

  lemma ScanFirst(lines: seq<string>, mode: Mode)
    requires lines != []
    ensures var rest := ScanLines(lines[1..], AfterLine(lines[0], mode));
      ScanLines(lines, mode) == Scan(HeadingIn(lines[0], mode) + rest.headings, rest.mode)
  {
    hide Opens, Closes, IsHeading;
  }

  lemma {:induction false} ScanConcat(a: seq<string>, b: seq<string>, mode: Mode)
    ensures var x := ScanLines(a, mode);
      var y := ScanLines(b, x.mode);
      ScanLines(a + b, mode) == Scan(x.headings + y.headings, y.mode)
  {
    if a == [] {
      assert a + b == b;
    } else {
      hide ScanLines, AfterLine, HeadingIn;
      assert (a + b)[1..] == a[1..] + b;
      var next := AfterLine(a[0], mode);
      ScanConcat(a[1..], b, next);
      ScanFirst(a, mode);
      ScanFirst(a + b, mode);
      var x := ScanLines(a[1..], next);
      Regroup(HeadingIn(a[0], mode), x.headings, ScanLines(b, x.mode).headings);
    }
  }

  // ----- Texts that contribute known headings and leave no fence open -----

  /** Both readers find these headings in these lines, and are outside any fence behind them. */
  predicate Yields(lines: seq<string>, headings: seq<string>) {
    ScanLines(lines, Outside) == Scan(headings, Outside) && ScanLines(Cores(lines), Outside) == Scan(headings, Outside)
  }

  ghost predicate Contributes(text: string, headings: seq<string>) {
    '\r' !in text && Yields(Lines(text), headings)
  }

  lemma YieldBelow(a: seq<string>, x: seq<string>, b: seq<string>, y: seq<string>)
    requires Yields(a, x) && Yields(b, y)
    ensures Yields(a + b, x + y)
  {
    CoresConcat(a, b);
    ScanConcat(a, b, Outside);
    ScanConcat(Cores(a), Cores(b), Outside);
  }

  lemma ContributesMeans(text: string, headings: seq<string>)
    requires Contributes(text, headings)
    ensures HeadingsOf(text) == headings && DeepHeadingsOf(text) == headings
  {
    MarkdownLinesAreLines(text);
  }

  lemma ContributeBelow(a: string, x: seq<string>, b: string, y: seq<string>)
    requires Contributes(a, x) && Contributes(b, y)
    ensures Contributes(a + "\n" + b, x + y)
  {
    hide Yields;
    SplitConcat(a, '\n', b);
    YieldBelow(Lines(a), x, Lines(b), y);
  }

  lemma EmptyContributes()
    ensures Contributes("", [])
  {
    hide SafeLine;
    PlainStartIsSafe("");
    SafeTextContributes("");
  }

  lemma ContributeApart(a: string, x: seq<string>, b: string, y: seq<string>)
    requires Contributes(a, x) && Contributes(b, y)
    ensures Contributes(a + "\n\n" + b, x + y)
  {
    hide Contributes;
    EmptyContributes();
    ContributeBelow(a, x, "", []);
    ContributeBelow(a + "\n" + "", x + [], b, y);
    assert a + "\n" + "" + "\n" + b == a + "\n\n" + b;
    assert x + [] == x;
  }

  /** The heading lists of several texts, in order. */
  function Concat(parts: seq<seq<string>>): seq<string> {
    if parts == [] then [] else parts[0] + Concat(parts[1..])
  }

  ghost predicate AllContribute(texts: seq<string>, headings: seq<seq<string>>) {
    if texts == [] || headings == [] then texts == [] && headings == []
    else Contributes(texts[0], headings[0]) && AllContribute(texts[1..], headings[1..])
  }

  lemma {:induction false} JoinedContribute(texts: seq<string>, headings: seq<seq<string>>, apart: bool)
    requires texts != [] && AllContribute(texts, headings)
    ensures Contributes(Join(texts, if apart then "\n\n" else "\n"), Concat(headings))
  {
    hide Contributes;
    if |texts| == 1 {
      assert headings[1..] == [];
      assert headings[0] + [] == headings[0];
    } else {
      JoinedContribute(texts[1..], headings[1..], apart);
      var rest := Join(texts[1..], if apart then "\n\n" else "\n");
      if apart {
        ContributeApart(texts[0], headings[0], rest, Concat(headings[1..]));
      } else {
        ContributeBelow(texts[0], headings[0], rest, Concat(headings[1..]));
      }
    }
  }

  // ----- Safe lines -----

  /** Neither a heading nor a fence. */
  predicate Inert(line: string) {
    Opens(line).Outside? && !IsHeading(line)
  }

  /** For both readers neither a heading nor a fence. */
  predicate SafeLine(line: string) {
    Inert(line) && Inert(Core(line))
  }

  predicate SafeLines(lines: seq<string>) {
    lines != [] ==> SafeLine(lines[0]) && SafeLines(lines[1..])
  }

  lemma {:induction false} SafeLinesYield(lines: seq<string>)
    requires SafeLines(lines)
    ensures Yields(lines, [])
  {
    hide Opens, IsHeading, Core;
    if lines != [] {
      SafeLinesYield(lines[1..]);
      assert Cores(lines)[1..] == Cores(lines[1..]);
    }
  }

  lemma OneLineYields(line: string)
    requires SafeLine(line)
    ensures Yields([line], [])
  {
    hide SafeLine;
    assert [line][1..] == [];
    SafeLinesYield([line]);
  }

  /** A character no heading and no fence starts with. */
  predicate InertStart(c: char) {
    c !in "#=-`~"
  }

  lemma InertStartIsInert(line: string)
    requires line == "" || InertStart(line[0])
    ensures Inert(line)
  {
    SpanIs(line, IsHash, 0);
    SpanIs(line, IsTilde, 0);
    SpanIs(line, Fence.IsTick, 0);
    assert Body(line) != "" ==> Body(line)[0] == line[0];
  }

  /** A character no heading, no fence and no marker starts with. */
  lemma PlainStartIsSafe(line: string)
    requires line == "" || (InertStart(line[0]) && StartsNoMarker(line[0]))
    ensures SafeLine(line)
  {
    hide Inert;
    InertStartIsInert(line);
    PlainCore(line);
  }

  /** Behind an inert start, all depends on the core. */
  lemma WrappedIsSafe(line: string, inner: string)
    requires line != "" && InertStart(line[0]) && Core(line) == Core(inner) && SafeLine(inner)
    ensures SafeLine(line)
  {
    hide Inert, Core;
    InertStartIsInert(line);
  }

  lemma FenceIsHazard(line: string)
    requires Span(line, Fence.IsTick) >= 3 || Span(line, IsTilde) >= 3
    ensures BlockHazard(line)
  {
    if Span(line, Fence.IsTick) >= 3 {
      SpanAt(line, Fence.IsTick, 0);
      SpanAt(line, Fence.IsTick, 1);
      SpanAt(line, Fence.IsTick, 2);
      assert "```" <= line;
    } else {
      SpanAt(line, IsTilde, 0);
      SpanAt(line, IsTilde, 1);
      SpanAt(line, IsTilde, 2);
      assert "~~~" <= line;
    }
  }

  lemma HashRuns(line: string)
    ensures Span(line, c => c == '#') == Span(line, IsHash)
  {
    var n := Span(line, IsHash);
    forall i | 0 <= i < n
      ensures line[i] == '#'
    {
      SpanAt(line, IsHash, i);
    }
    SpanIs(line, c => c == '#', n);
  }

  lemma UnopenedIsInert(line: string)
    requires OpensNoBlock(line)
    ensures Inert(line)
  {
    HashRuns(line);
    if Span(line, Fence.IsTick) >= 3 || Span(line, IsTilde) >= 3 {
      FenceIsHazard(line);
    }
  }

  /** What the block-start escape leaves is safe. */
  lemma UnopenedIsSafe(line: string)
    requires OpensNoBlock(line) && (line != "" ==> !IsBlank(line[0]))
    ensures SafeLine(line)
  {
    hide Inert, OpensNoBlock, Core;
    UnopenedIsInert(line);
    UnopenedCore(line);
  }

  /** A bullet is no underline: its text neither is missing nor starts with a blank. */
  lemma BulletIsSafe(text: string)
    requires text != "" && !IsBlank(text[0]) && '\n' !in text && SafeLine(text)
    ensures SafeLine("- " + text)
  {
    hide SafeLine, Inert, Core;
    DashIsInert(text);
    BulletCore(text);
    SafeCore("- " + text, text);
  }

  lemma DashIsInert(text: string)
    requires text != "" && !IsBlank(text[0]) && '\n' !in text
    ensures Inert("- " + text)
  {
    hide SetextUnderline;
    var line := "- " + text;
    SpanIs(line, IsHash, 0);
    SpanIs(line, IsTilde, 0);
    SpanIs(line, Fence.IsTick, 0);
    BulletIsNoUnderline(text);
  }

  lemma SafeCore(line: string, inner: string)
    requires Inert(line) && Core(line) == Core(inner) && SafeLine(inner)
    ensures SafeLine(line)
  {
    hide Inert, Core;
  }

  lemma BulletIsNoUnderline(text: string)
    requires text != "" && !IsBlank(text[0]) && '\n' !in text
    ensures !SetextUnderline("- " + text)
  {
    var b := Body("- " + text);
    SpanIs(b, c => c == b[0], 1);
    var rest := b[1..];
    if |b| > 2 {
      assert rest[1] == text[0];
      if Only(rest, IsBlank) {
        SpanAt(rest, IsBlank, 1);
      }
    }
  }

  lemma SafeLinesContribute(lines: seq<string>)
    requires Flat(lines) && SafeLines(lines) && lines != []
    ensures Contributes(Join(lines, "\n"), [])
  {
    hide Yields;
    FlatSplit(lines);
    SafeLinesYield(lines);
    NoReturns(lines);
  }

  lemma {:induction false} NoReturns(lines: seq<string>)
    requires Flat(lines)
    ensures '\r' !in Join(lines, "\n")
  {
    if |lines| > 1 {
      NoReturns(lines[1..]);
    }
  }

  lemma SafeTextContributes(line: string)
    requires FlatLine(line) && SafeLine(line)
    ensures Contributes(line, [])
  {
    hide SafeLine, Yields;
    SplitWhole(line, '\n');
    OneLineYields(line);
  }

  lemma HeadingContributes(line: string)
    requires FlatLine(line) && IsHeading(line) && Opens(line).Outside? && Core(line) == line
    ensures Contributes(line, [line])
  {
    hide Core, IsHeading, Opens;
    SplitWhole(line, '\n');
    assert [line][1..] == [] && ScanLines([], Outside) == Scan([], Outside);
    assert Cores([line]) == [line];
  }

  // ----- Fenced code -----

  lemma {:induction false} FencedLinesScan(lines: seq<string>, last: string, mode: Mode)
    requires mode.Fenced? && (forall k :: 0 <= k < |lines| ==> !Closes(lines[k], mode)) && Closes(last, mode)
    ensures ScanLines(lines + [last], mode) == Scan([], Outside)
  {
    hide Closes, Opens, IsHeading, ScanLines;
    var all := lines + [last];
    ScanFirst(all, mode);
    if lines == [] {
      assert all[1..] == [];
      NothingScans();
    } else {
      FencedLinesScan(lines[1..], last, mode);
      assert all[1..] == lines[1..] + [last];
    }
  }

  lemma NothingScans()
    ensures ScanLines([], Outside) == Scan([], Outside)
  {
  }

  lemma {:induction false} FencedCores(lines: seq<string>, mode: Mode)
    requires mode.Fenced? && forall k :: 0 <= k < |lines| ==> !Closes(Core(lines[k]), mode)
    ensures |Cores(lines)| == |lines| && forall k :: 0 <= k < |lines| ==> !Closes(Cores(lines)[k], mode)
  {
    hide Closes, Core;
    if lines != [] {
      FencedCores(lines[1..], mode);
      forall k | 0 <= k < |lines|
        ensures |Cores(lines)| == |lines| && !Closes(Cores(lines)[k], mode)
      {
        assert k > 0 ==> Cores(lines)[k] == Cores(lines[1..])[k - 1] && lines[k] == lines[1..][k - 1];
      }
    }
  }

  /** Whether peeled or not, the lines between a fence's own lines are hidden. */
  lemma FenceScans(first: string, lines: seq<string>, last: string, mode: Mode)
    requires mode.Fenced? && Opens(first) == mode && Closes(last, mode)
    requires forall k :: 0 <= k < |lines| ==> !Closes(lines[k], mode)
    ensures ScanLines([first] + lines + [last], Outside) == Scan([], Outside)
  {
    hide Closes, Opens, IsHeading, ScanLines;
    FencedLinesScan(lines, last, mode);
    var all := [first] + lines + [last];
    assert all[1..] == lines + [last];
    ScanFirst(all, Outside);
  }

  /** Code hides whatever it holds: its fence closes at its last line, and nothing inside is a heading. */
  lemma CodeYields(code: Code)
    ensures Yields(Fence.FenceLines(code), [])
  {
    hide Fence.ClosingFence, Fence.IsSafeLanguage, Fence.OpeningFence, Fence.FenceLength, IsHeading, Core, Lines;
    var n, info := Fence.FenceLength(code.content), Fence.InfoString(code.language);
    var fence, lines := Fence.FenceFor(code.content), Lines(code.content);
    Fence.InfoHasNoTick(code.language);
    Fence.FenceIsFence(n, info);
    var mode := Fenced('`', n);
    forall k | 0 <= k < |lines|
      ensures !Closes(lines[k], mode) && !Closes(Core(lines[k]), mode)
    {
      Fence.ContentDoesNotClose(code.content, k);
      var start := CoreIsTail(lines[k]);
      Fence.TailDoesNotClose(code.content, k, start);
    }
    FenceScans(fence + info, lines, fence, mode);
    FencedCores(lines, mode);
    PlainCore(fence + info);
    PlainCore(fence);
    FenceScans(fence + info, Cores(lines), fence, mode);
    FenceCores(fence + info, lines, fence);
  }

  lemma FenceCores(first: string, lines: seq<string>, last: string)
    requires Core(first) == first && Core(last) == last
    ensures Cores([first] + lines + [last]) == [first] + Cores(lines) + [last]
  {
    hide Core;
    CoresConcat([first] + lines, [last]);
    CoresConcat([first], lines);
    assert Cores([first]) == [first] && Cores([last]) == [last];
  }
}
