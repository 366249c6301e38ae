/** Numbered steps: normalisation, printing behind the marker's own width, and a reader of the printed list. */
module Steps {
  import opened Text
  import opened Escape
  import opened Blocks
  import Fence
  import Tables
  import BodyItems
  import Grouping
  import opened FlatLines

  type Step = seq<StepPart>

  // ----- _normalise_steps -----

  function NormalPart(block: StepBlock): Result<Option<StepPart>, BlockError> {
    match block
    case TextBlock(content) => Ok(if OneLine(content) == "" then None else Some(StepText(OneLine(content))))
    case StepCode(code) =>
      (match BodyItems.NormalCode(code)
       case None => Ok(None)
       case Some(c) => Ok(Some(CodePart(c))))
    case StepTable(table) =>
      (match Tables.NormalTable(table)
       case Err(e) => Err(e)
       case Ok(t) => Ok(Some(TablePart(t))))
    case StepQuote(quote) =>
      match BodyItems.NormalQuote(quote)
      case Err(e) => Err(e)
      case Ok(None) => Ok(None)
      case Ok(Some(q)) => Ok(Some(QuotePart(q)))
  }

  /** The surviving parts of one step. */
  function NormalParts(blocks: seq<StepBlock>): Result<Step, BlockError> {
    if blocks == [] then Ok([])
    else
      match NormalPart(blocks[0])
      case Err(e) => Err(e)
      case Ok(part) =>
        match NormalParts(blocks[1..])
        case Err(e) => Err(e)
        case Ok(rest) => Ok((if part.Some? then [part.value] else []) + rest)
  }

  function NormalSteps(steps: seq<seq<StepBlock>>, index: nat): Result<seq<Step>, BodyItems.ItemError> {
    if steps == [] then Ok([])
    else
      match NormalParts(steps[0])
      case Err(e) => Err(BodyItems.ItemError(index, e))
      case Ok(parts) =>
        if parts != [] && !parts[0].StepText? then Err(BodyItems.ItemError(index, StepNotText))
        else
          match NormalSteps(steps[1..], index + 1)
          case Err(e) => Err(e)
          case Ok(rest) => Ok((if parts == [] then [] else [parts]) + rest)
  }

  method NormaliseSteps(steps: seq<seq<StepBlock>>) returns (r: Result<seq<Step>, BodyItems.ItemError>)
    ensures r == NormalSteps(steps, 0)
  {
    hide NormalParts;
    var result: seq<Step> := [];
    assert steps[0..] == steps;
    for index := 0 to |steps|
      invariant NormalSteps(steps, 0).Err? <==> NormalSteps(steps[index..], index).Err?
      invariant NormalSteps(steps, 0).Err? ==> NormalSteps(steps, 0) == NormalSteps(steps[index..], index)
      invariant NormalSteps(steps, 0).Ok? ==>
        NormalSteps(steps, 0).value == result + NormalSteps(steps[index..], index).value
    {
      assert steps[index..][0] == steps[index] && steps[index..][1..] == steps[index + 1..];
      var blocks := NormalParts(steps[index]);
      if blocks.Err? {
        return Err(BodyItems.ItemError(index, blocks.error));
      }
      if blocks.value != [] {
        if !blocks.value[0].StepText? {
          return Err(BodyItems.ItemError(index, StepNotText));
        }
        result := result + [blocks.value];
      }
    }
    assert result + [] == result;
    r := Ok(result);
  }

  predicate ValidPart(part: StepPart) {
    match part
    case StepText(content) => ValidText(content)
    case CodePart(code) => ValidCode(code)
    case TablePart(table) => ValidTable(table)
    case QuotePart(quote) => ValidQuote(quote)
  }

  predicate ValidParts(parts: Step) {
    parts != [] ==> ValidPart(parts[0]) && ValidParts(parts[1..])
  }

  /** What `NormalSteps` returns: steps with something in them, text first. */
  predicate ValidSteps(steps: seq<Step>) {
    steps != [] ==>
      && steps[0] != [] && steps[0][0].StepText? && ValidParts(steps[0])
      && ValidSteps(steps[1..])
  }

  // ----- _render_step -----

  /** The lines of one part at the left margin. */
  function PartLines(part: StepPart): seq<string> {
    match part
    case StepText(content) => [EscapeBlockStart(content)]
    case CodePart(code) => Fence.CaptionLines(code.caption) + Fence.FenceLines(code)
    case TablePart(table) => Lines(Tables.TableText(table))
    case QuotePart(quote) => Lines(Grouping.QuoteText(quote))
  }

  /** Later parts, each behind one blank line. */
  function LaterLines(parts: Step): seq<string> {
    if parts == [] then [] else [""] + PartLines(parts[0]) + LaterLines(parts[1..])
  }

  /** The content of a step, as if it stood at the left margin. */
  function StepBody(step: Step): seq<string>
    requires step != []
  {
    PartLines(step[0]) + LaterLines(step[1..])
  }

  function StepMarker(number: nat): string {
    Decimal(number) + ". "
  }

  function Spaces(n: nat): string {
    Repeat(' ', n)
  }

  /** The lines of step `number`: its text behind the marker, all else behind as many spaces. */
  function StepLines(number: nat, step: Step): seq<string>
    requires step != [] && step[0].StepText?
  {
    var marker := StepMarker(number);
    [marker + EscapeBlockStart(step[0].content)] + Fence.Indent(LaterLines(step[1..]), Spaces(|marker|))
  }

  function StepTexts(steps: seq<Step>, number: nat): seq<string>
    requires ValidSteps(steps)
  {
    if steps == [] then [] else [Join(StepLines(number, steps[0]), "\n")] + StepTexts(steps[1..], number + 1)
  }

  /** All steps, numbered from 1, one after the other. */
  function StepsText(steps: seq<Step>): string
    requires ValidSteps(steps)
  {
    Join(StepTexts(steps, 1), "\n")
  }

  method RenderStep(number: nat, step: Step) returns (text: string)
    requires step != [] && step[0].StepText? && ValidParts(step)
    ensures text == Join(StepLines(number, step), "\n")
  {
    hide EscapeBlockStart, PartLines, ValidPart, StepMarker;
    var marker := StepMarker(number);
    var indent := Spaces(|marker|);
    var lines: seq<string> := [];
    for position := 0 to |step|
      invariant ValidParts(step[position..])
      invariant position == 0 ==> lines == []
      invariant position > 0 ==> lines + Fence.Indent(LaterLines(step[position..]), indent) == StepLines(number, step)
    {
      var part := step[position];
      assert step[position..][0] == part && step[position..][1..] == step[position + 1..];
      if position == 0 {
        lines := [marker + EscapeBlockStart(part.content)];
      } else {
        var block := RenderPart(part, indent);
        LaterStep(part, step[position + 1..], indent);
        lines := lines + [""] + block;
      }
    }
    assert lines == StepLines(number, step);
    text := Join(lines, "\n");
  }

  method RenderPart(part: StepPart, indent: string) returns (lines: seq<string>)
    requires ValidPart(part)
    ensures lines == Fence.Indent(PartLines(part), indent)
  {
    hide EscapeBlockStart, IsLine;
    match part
    case StepText(content) =>
      EscapeChars(content);
      Fence.IndentOne(EscapeBlockStart(content), indent);
      lines := [indent + EscapeBlockStart(content)];
    case CodePart(code) =>
      lines := Fence.RenderFencedCode(code, indent);
    case TablePart(table) =>
      lines := Fence.Indent(Lines(Tables.TableText(table)), indent);
    case QuotePart(quote) =>
      lines := Fence.Indent(Lines(Grouping.QuoteText(quote)), indent);
  }

  lemma LaterStep(part: StepPart, rest: Step, indent: string)
    ensures Fence.Indent(LaterLines([part] + rest), indent)
         == [""] + Fence.Indent(PartLines(part), indent) + Fence.Indent(LaterLines(rest), indent)
  {
    hide PartLines;
    assert ([part] + rest)[1..] == rest;
    Fence.IndentConcat([""] + PartLines(part), LaterLines(rest), indent);
    Fence.IndentConcat([""], PartLines(part), indent);
  }

  // ----- The reader -----

  datatype NumberedItem = NumberedItem(number: nat, lines: seq<string>)

  /** How many lines at the head of `lines` do not start an item: they are blank, or start with a space. */
  function Continuation(lines: seq<string>): (n: nat)
    ensures n <= |lines|
  {
    if lines == [] || (lines[0] != "" && lines[0][0] != ' ') then 0 else 1 + Continuation(lines[1..])
  }

  /** Continuation lines without the marker's width; one that is not so far right falls out of its item. */
  function ReadContinuation(lines: seq<string>, indent: string): Option<seq<string>> {
    if lines == [] then Some([])
    else if lines[0] != "" && !(indent <= lines[0]) then None
    else
      match ReadContinuation(lines[1..], indent)
      case None => None
      case Some(rest) => Some([if lines[0] == "" then "" else lines[0][|indent|..]] + rest)
  }

  /** A numbered list: items start at lines that start with a number; everything else must stay inside an item. */
  function ReadSteps(lines: seq<string>): Option<seq<NumberedItem>>
    decreases |lines|
  {
    if lines == [] then Some([])
    else
      var n := Span(lines[0], IsAsciiDigit);
      var k := Continuation(lines[1..]);
      if n == 0 || !(". " <= lines[0][n..]) then None
      else
        match (ReadContinuation(lines[1..1 + k], Spaces(n + 2)), ReadSteps(lines[1 + k..]))
        case (Some(inner), Some(rest)) =>
          Some([NumberedItem(DecimalValue(lines[0][..n]), [lines[0][n + 2..]] + inner)] + rest)
        case _ => None
  }

  /** The list a reader has to find: consecutive numbers, and each step's own content. */
  function ExpectedItems(steps: seq<Step>, number: nat): seq<NumberedItem>
    requires ValidSteps(steps)
  {
    if steps == [] then []
    else [NumberedItem(number, StepBody(steps[0]))] + ExpectedItems(steps[1..], number + 1)
  }

  lemma MarkerReads(number: nat, text: string)
    ensures var line := StepMarker(number) + text;
      var n := |Decimal(number)|;
      && line != "" && line[0] != ' '
      && Span(line, IsAsciiDigit) == n > 0 && ". " <= line[n..] && |StepMarker(number)| == n + 2
      && line[..n] == Decimal(number) && line[n + 2..] == text
  {
    var line := StepMarker(number) + text;
    var digits := Decimal(number);
    DecimalRoundTrip(number);
    assert forall i :: 0 <= i < |digits| ==> line[i] == digits[i];
    SpanIs(line, IsAsciiDigit, |digits|);
    assert line[|digits|..] == ". " + text;
  }

  /** Indented lines are continuation lines, whatever they hold, up to the next line that is not. */
  lemma {:induction false} ContinuationOf(lines: seq<string>, indent: string, rest: seq<string>)
    requires indent != "" && indent[0] == ' '
    requires rest != [] ==> rest[0] != "" && rest[0][0] != ' '
    ensures Continuation(Fence.Indent(lines, indent) + rest) == |lines|
    ensures ReadContinuation(Fence.Indent(lines, indent), indent) == Some(lines)
  {
    var all := Fence.Indent(lines, indent) + rest;
    if lines == [] {
      assert all == rest;
    } else {
      ContinuationOf(lines[1..], indent, rest);
      assert all[1..] == Fence.Indent(lines[1..], indent) + rest;
      assert Fence.Indent(lines, indent)[1..] == Fence.Indent(lines[1..], indent);
      assert [lines[0]] + lines[1..] == lines;
    }
  }

  lemma ItemReads(first: string, body: seq<string>, inner: seq<string>, rest: seq<string>)
    requires var n := Span(first, IsAsciiDigit);
      && n > 0 && ". " <= first[n..]
      && Continuation(body + rest) == |body|
      && ReadContinuation(body, Spaces(n + 2)) == Some(inner)
    ensures ReadSteps([first] + body + rest)
         == match ReadSteps(rest)
            case None => None
            case Some(items) =>
              var n := Span(first, IsAsciiDigit);
              Some([NumberedItem(DecimalValue(first[..n]), [first[n + 2..]] + inner)] + items)
  {
    hide Span, DecimalValue, Spaces;
    var lines := [first] + body + rest;
    assert lines[0] == first && lines[1..] == body + rest;
    assert lines[1..1 + |body|] == body && lines[1 + |body|..] == rest;
  }

  lemma OneStepReads(number: nat, step: Step, rest: seq<string>)
    requires step != [] && step[0].StepText?
    requires rest != [] ==> rest[0] != "" && rest[0][0] != ' '
    ensures ReadSteps(StepLines(number, step) + rest)
         == match ReadSteps(rest)
            case None => None
            case Some(items) => Some([NumberedItem(number, StepBody(step))] + items)
  {
    hide EscapeBlockStart, LaterLines, StepMarker, ReadSteps;
    var text := EscapeBlockStart(step[0].content);
    var marker := StepMarker(number);
    var inner := LaterLines(step[1..]);
    var indent := Spaces(|marker|);
    MarkerReads(number, text);
    DecimalRoundTrip(number);
    ContinuationOf(inner, indent, rest);
    ItemReads(marker + text, Fence.Indent(inner, indent), inner, rest);
  }

  // ----- The lines of the rendered steps -----

  lemma PartLinesAreFlat(part: StepPart)
    requires ValidPart(part)
    ensures Flat(PartLines(part))
  {
    hide EscapeBlockStart, IsLine, ValidCode, ValidTable, ValidQuote, Fence.FenceLines, Fence.CaptionLines, Tables.TableLines,
      Grouping.QuoteLines;
    match part
    case StepText(content) =>
      LineIsFlat(content);
      EscapedIsFlat(content);
    case CodePart(code) =>
      CodeIsFlat(code);
    case TablePart(table) =>
      TableLinesAreFlat(table);
      FlatSplit(Tables.TableLines(table));
    case QuotePart(quote) =>
      QuoteLinesAreFlat(quote);
      FlatSplit(Grouping.QuoteLines(quote));
  }

  lemma CodeIsFlat(code: Code)
    requires ValidCode(code)
    ensures Flat(Fence.CaptionLines(code.caption) + Fence.FenceLines(code))
  {
    CaptionLinesAreFlat(code.caption);
    FenceLinesAreFlat(code);
    FlatConcat(Fence.CaptionLines(code.caption), Fence.FenceLines(code));
  }

  lemma {:induction false} LaterLinesAreFlat(parts: Step)
    requires ValidParts(parts)
    ensures Flat(LaterLines(parts))
  {
    hide PartLines, ValidPart;
    if parts != [] {
      PartLinesAreFlat(parts[0]);
      LaterLinesAreFlat(parts[1..]);
      FlatConcat([""], PartLines(parts[0]));
      FlatConcat([""] + PartLines(parts[0]), LaterLines(parts[1..]));
    }
  }

  lemma StepLinesAreFlat(number: nat, step: Step)
    requires step != [] && step[0].StepText? && ValidParts(step)
    ensures Flat(StepLines(number, step))
  {
    hide EscapeBlockStart, IsLine, LaterLines;
    var marker := StepMarker(number);
    LineIsFlat(step[0].content);
    EscapedIsFlat(step[0].content);
    MarkerIsFlat(number);
    LaterLinesAreFlat(step[1..]);
    IndentIsFlat(LaterLines(step[1..]), Spaces(|marker|));
  }

  lemma MarkerIsFlat(number: nat)
    ensures FlatLine(StepMarker(number))
  {
    DecimalRoundTrip(number);
  }

  function AllStepLines(steps: seq<Step>, number: nat): seq<string>
    requires ValidSteps(steps)
  {
    if steps == [] then [] else StepLines(number, steps[0]) + AllStepLines(steps[1..], number + 1)
  }

  lemma {:induction false} StepTextLines(steps: seq<Step>, number: nat)
    requires ValidSteps(steps) && steps != []
    ensures Lines(Join(StepTexts(steps, number), "\n")) == AllStepLines(steps, number)
    ensures Flat(AllStepLines(steps, number))
  {
    hide StepLines, ValidParts;
    StepLinesAreFlat(number, steps[0]);
    StepLinesNotEmpty(number, steps[0]);
    FlatSplit(StepLines(number, steps[0]));
    if |steps| > 1 {
      StepTextLines(steps[1..], number + 1);
      var first, rest := Join(StepLines(number, steps[0]), "\n"), StepTexts(steps[1..], number + 1);
      SplitConcat(first, '\n', Join(rest, "\n"));
      assert StepTexts(steps, number) == [first] + rest && ([first] + rest)[1..] == rest;
      FlatConcat(StepLines(number, steps[0]), AllStepLines(steps[1..], number + 1));
    }
  }

  lemma StepLinesNotEmpty(number: nat, step: Step)
    requires step != [] && step[0].StepText?
    ensures StepLines(number, step) != []
    ensures StepLines(number, step)[0] != "" && StepLines(number, step)[0][0] != ' '
  {
    MarkerReads(number, EscapeBlockStart(step[0].content));
  }

  lemma {:induction false} AllStepsRead(steps: seq<Step>, number: nat)
    requires ValidSteps(steps)
    ensures ReadSteps(AllStepLines(steps, number)) == Some(ExpectedItems(steps, number))
    ensures steps != [] ==>
      AllStepLines(steps, number) != [] && AllStepLines(steps, number)[0] != "" && AllStepLines(steps, number)[0][0] != ' '
  {
    hide StepLines, StepBody, ReadSteps;
    if steps != [] {
      AllStepsRead(steps[1..], number + 1);
      StepLinesNotEmpty(number, steps[0]);
      OneStepReads(number, steps[0], AllStepLines(steps[1..], number + 1));
    } else {
      NoSteps();
    }
  }

  lemma NoSteps()
    ensures ReadSteps([]) == Some([])
  {
  }

  /**
   * The steps round trip: the reader finds exactly the steps 1, 2, 3, ... and, inside each, exactly that step's text,
   * code, table and quote lines in order, also when the marker grows a digit.
   */
  lemma StepsRoundTrip(steps: seq<Step>)
    requires ValidSteps(steps) && steps != []
    ensures ReadSteps(Lines(StepsText(steps))) == Some(ExpectedItems(steps, 1))
  {
    hide ReadSteps, AllStepLines, StepTexts, ExpectedItems;
    StepTextLines(steps, 1);
    AllStepsRead(steps, 1);
  }
}
