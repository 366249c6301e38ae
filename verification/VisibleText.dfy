/** Canonicalising a client's text moves and drops whitespace and control characters, and nothing else. */
module VisibleText {
  import opened Text
  import opened Escape
  import P = Paragraph
  import Fence

  predicate Invisible(c: char) {
    IsSpace(c) || IsControl(c)
  }

  /** What a reader sees of a text: its characters in order, without whitespace and control characters. */
  function Ink(s: string): string {
    Remove(s, Invisible)
  }

  lemma InkConcat(a: string, b: string)
    ensures Ink(a + b) == Ink(a) + Ink(b)
  {
    RemoveConcat(a, b, Invisible);
  }

  lemma {:induction false} NoInk(s: string)
    requires forall i :: 0 <= i < |s| ==> Invisible(s[i])
    ensures Ink(s) == ""
  {
    hide Invisible;
    if s != "" {
      NoInk(s[1..]);
    }
  }

  lemma {:induction false} RemoveKeepsInk(s: string, p: char -> bool)
    requires forall c :: p(c) ==> Invisible(c)
    ensures Ink(Remove(s, p)) == Ink(s)
  {
    hide Invisible;
    if s != "" {
      RemoveKeepsInk(s[1..], p);
      if !p(s[0]) {
        assert ([s[0]] + Remove(s[1..], p))[1..] == Remove(s[1..], p);
      }
    }
  }

  lemma {:induction false} CollapseKeepsInk(s: string, p: char -> bool)
    requires forall c :: p(c) ==> Invisible(c)
    ensures Ink(Collapse(s, p, ' ')) == Ink(s)
    decreases |s|
  {
    hide Invisible, Remove;
    if s != "" {
      if p(s[0]) {
        var n := 1 + Span(s[1..], p);
        CollapseKeepsInk(s[n..], p);
        RunHasNoInk(s, p);
        assert s == s[..n] + s[n..];
        InkConcat(s[..n], s[n..]);
        SpaceHasNoInk();
        InkConcat(" ", Collapse(s[n..], p, ' '));
      } else {
        CollapseKeepsInk(s[1..], p);
        assert s == [s[0]] + s[1..];
        InkConcat([s[0]], s[1..]);
        InkConcat([s[0]], Collapse(s[1..], p, ' '));
      }
    }
  }

  lemma RunHasNoInk(s: string, p: char -> bool)
    requires s != "" && p(s[0]) && forall c :: p(c) ==> Invisible(c)
    ensures Ink(s[..1 + Span(s[1..], p)]) == ""
  {
    hide Invisible, Ink;
    var run := s[..1 + Span(s[1..], p)];
    forall i | 0 <= i < |run|
      ensures Invisible(run[i])
    {
      if i > 0 {
        SpanAt(s[1..], p, i - 1);
      }
    }
    NoInk(run);
  }

  lemma SpaceHasNoInk()
    ensures Ink(" ") == "" && Ink("\n") == "" && Ink("") == ""
  {
    NoInk(" ");
    NoInk("\n");
  }

  lemma StripRightKeepsInk(s: string)
    ensures Ink(StripRight(s)) == Ink(s)
  {
    hide Remove, StripRight, IsControl, IsSpace, Ink;
    var r := StripRight(s);
    assert s == r + s[|r|..];
    InkConcat(r, s[|r|..]);
    forall i | 0 <= i < |s| - |r|
      ensures Invisible(s[|r|..][i])
    {
      assert s[|r|..][i] == s[|r| + i];
    }
    NoInk(s[|r|..]);
  }

  lemma StripKeepsInk(s: string)
    ensures Ink(Strip(s)) == Ink(s)
  {
    hide Remove, StripRight, IsControl, IsSpace, Ink;
    var n := Span(s, IsSpace);
    forall i | 0 <= i < n
      ensures Invisible(s[..n][i])
    {
      SpanAt(s, IsSpace, i);
    }
    NoInk(s[..n]);
    assert s == s[..n] + s[n..];
    InkConcat(s[..n], s[n..]);
    StripRightKeepsInk(StripLeft(s));
  }

  /** `one_line` loses nothing visible. */
  lemma OneLineKeepsInk(s: string)
    ensures Ink(OneLine(s)) == Ink(s)
  {
    hide Remove, Collapse, Strip, Ink;
    var a := Collapse(s, IsLineBreak, ' ');
    var b := Remove(a, IsControl);
    CollapseKeepsInk(s, IsLineBreak);
    RemoveKeepsInk(a, IsControl);
    CollapseKeepsInk(b, IsBlank);
    StripKeepsInk(Collapse(b, IsBlank, ' '));
  }

  // ----- Paragraphs -----

  function LinesInk(lines: seq<string>): string {
    if lines == [] then "" else Ink(lines[0]) + LinesInk(lines[1..])
  }

  lemma {:induction false} LinesInkConcat(a: seq<string>, b: seq<string>)
    ensures LinesInk(a + b) == LinesInk(a) + LinesInk(b)
  {
    hide Ink;
    if a == [] {
      assert a + b == b;
    } else {
      LinesInkConcat(a[1..], b);
      assert (a + b)[1..] == a[1..] + b;
      Regroup(Ink(a[0]), LinesInk(a[1..]), LinesInk(b));
    }
  }

  lemma {:induction false} JoinedInk(lines: seq<string>)
    ensures Ink(Join(lines, "\n")) == LinesInk(lines)
  {
    hide Ink, Invisible;
    SpaceHasNoInk();
    if |lines| == 1 {
      assert LinesInk(lines[1..]) == "";
    } else if lines != [] {
      JoinedInk(lines[1..]);
      InkConcat(lines[0] + "\n", Join(lines[1..], "\n"));
      InkConcat(lines[0], "\n");
    }
  }

  lemma {:induction false} BreaksKeepInk(s: string)
    ensures Ink(P.BreaksToNewlines(s)) == Ink(s)
    decreases |s|
  {
    hide Ink, Invisible;
    if s == "" {
    } else if "\r\n" <= s {
      BreaksKeepInk(s[2..]);
      assert s == "\r\n" + s[2..];
      InkConcat("\r\n", s[2..]);
      InkConcat("\n", P.BreaksToNewlines(s[2..]));
      BreakHasNoInk('\n');
      BreakHasNoInk('\r');
      InkConcat("\r", "\n");
      assert "\r" + "\n" == "\r\n";
    } else {
      BreaksKeepInk(s[1..]);
      var first := if IsLineBreak(s[0]) then "\n" else [s[0]];
      assert s == [s[0]] + s[1..];
      InkConcat([s[0]], s[1..]);
      InkConcat(first, P.BreaksToNewlines(s[1..]));
      BreakHasNoInk('\n');
      BreakHasNoInk(s[0]);
    }
  }

  lemma BreakHasNoInk(c: char)
    ensures IsLineBreak(c) ==> Ink([c]) == ""
    ensures IsLineBreak('\n') && IsLineBreak('\r')
  {
    if IsLineBreak(c) {
      NoInk([c]);
    }
  }

  lemma {:induction false} StripAllKeepsInk(lines: seq<string>)
    ensures LinesInk(P.StripRightAll(lines)) == LinesInk(lines)
  {
    hide Ink, StripRight;
    if lines != [] {
      StripRightKeepsInk(lines[0]);
      StripAllKeepsInk(lines[1..]);
    }
  }

  lemma {:induction false} LeadingHasNoInk(lines: seq<string>)
    ensures LinesInk(P.DropLeadingBlank(lines)) == LinesInk(lines)
  {
    hide Ink;
    SpaceHasNoInk();
    if lines != [] {
      LeadingHasNoInk(lines[1..]);
    }
  }

  lemma {:induction false} TrailingHasNoInk(lines: seq<string>)
    ensures LinesInk(P.DropTrailingBlank(lines)) == LinesInk(lines)
    decreases |lines|
  {
    hide Ink, LinesInk;
    if lines != [] && lines[|lines| - 1] == "" {
      var rest := lines[..|lines| - 1];
      TrailingHasNoInk(rest);
      assert lines == rest + [""];
      LinesInkConcat(rest, [""]);
      EmptyLineHasNoInk();
    }
  }

  lemma EmptyLineHasNoInk()
    ensures LinesInk([""]) == ""
  {
    SpaceHasNoInk();
    assert LinesInk([""][1..]) == "";
  }

  lemma {:induction false} OutdentKeepsInk(lines: seq<string>, start: bool)
    ensures LinesInk(P.Outdent(lines, start)) == LinesInk(lines)
  {
    hide Ink, P.IndentOf;
    if lines != [] {
      IndentHasNoInk(lines[0]);
      OutdentKeepsInk(lines[1..], lines[0] == "");
    }
  }

  lemma IndentHasNoInk(line: string)
    ensures Ink(line[P.IndentOf(line)..]) == Ink(line)
  {
    hide Ink, IsControl;
    var n := P.IndentOf(line);
    forall i | 0 <= i < n
      ensures Invisible(line[..n][i])
    {
      SpanAt(line, IsBlank, i);
    }
    NoInk(line[..n]);
    assert line == line[..n] + line[n..];
    InkConcat(line[..n], line[n..]);
  }

  /** A paragraph loses nothing visible, and keeps it in order. */
  lemma ParagraphKeepsInk(content: string)
    ensures Ink(Join(P.CanonicalLines(content), "\n")) == Ink(content)
  {
    hide Ink, Remove, Split, P.Outdent, P.DropLeadingBlank, P.DropTrailingBlank, P.StripRightAll, P.BreaksToNewlines, Join;
    var broken := P.BreaksToNewlines(content);
    var text := Remove(broken, IsCodeControl);
    BreaksKeepInk(content);
    RemoveKeepsInk(broken, IsCodeControl);
    JoinSplit(text, '\n');
    JoinedInk(Lines(text));
    StripAllKeepsInk(Lines(text));
    LeadingHasNoInk(P.RawLines(content));
    TrailingHasNoInk(P.DropLeadingBlank(P.RawLines(content)));
    OutdentKeepsInk(P.DropTrailingBlank(P.DropLeadingBlank(P.RawLines(content))), true);
    JoinedInk(P.CanonicalLines(content));
  }

  // ----- Code -----

  lemma {:induction false} UnifyKeepsInk(s: string)
    ensures Ink(Fence.UnifyNewlines(s)) == Ink(s)
    decreases |s|
  {
    hide Ink, Invisible;
    BreakHasNoInk('\n');
    BreakHasNoInk('\r');
    if s == "" {
    } else if "\r\n" <= s {
      UnifyKeepsInk(s[2..]);
      assert s == "\r" + ("\n" + s[2..]);
      InkConcat("\r", "\n" + s[2..]);
      InkConcat("\n", s[2..]);
      InkConcat("\n", Fence.UnifyNewlines(s[2..]));
    } else {
      UnifyKeepsInk(s[1..]);
      var first := if s[0] == '\r' then "\n" else [s[0]];
      assert s == [s[0]] + s[1..];
      InkConcat([s[0]], s[1..]);
      InkConcat(first, Fence.UnifyNewlines(s[1..]));
    }
  }

  /** Code loses nothing visible. */
  lemma CodeKeepsInk(content: string)
    ensures Ink(Fence.CanonicaliseCode(content)) == Ink(content)
  {
    hide Ink, Remove, Fence.UnifyNewlines;
    var text := Remove(Fence.UnifyNewlines(content), IsCodeControl);
    UnifyKeepsInk(content);
    RemoveKeepsInk(Fence.UnifyNewlines(content), IsCodeControl);
    if text != "" && text[|text| - 1] == '\n' {
      BreakHasNoInk('\n');
      assert text == text[..|text| - 1] + "\n";
      InkConcat(text[..|text| - 1], "\n");
    }
  }

  /** Of canonical code without a final newline, every character stays where it is: indentation, blank lines and all. */
  lemma CodeIsKept(content: string)
    requires Fence.CodeText(content) && '\r' !in content
    ensures Fence.CanonicaliseCode(content + "\n") == content
  {
    hide IsCodeControl;
    var longer := content + "\n";
    NewlineIsText();
    assert Fence.CodeText(longer) && '\r' !in longer;
    Fence.TextIsCanonical(longer);
    assert longer[..|longer| - 1] == content;
  }

  lemma NewlineIsText()
    ensures !IsCodeControl('\n')
  {
  }
}
