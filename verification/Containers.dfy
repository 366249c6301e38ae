/** What stands behind indentation, quote markers and list markers: where a thorough reader looks for a heading or a fence. */
module Containers {
  import opened Text
  import opened Escape

  predicate IsBulletMark(c: char) {
    c == '-' || c == '*' || c == '+'
  }

  /**
   * How much the first step of peeling takes off a line: a blank, a quote marker, or a list marker with the blank
   * behind it (sections 5.1 and 5.2 of the CommonMark specification); 0 if there is none.
   */
  function MarkerWidth(s: string): (n: nat)
    ensures n <= |s|
  {
    var digits := Span(s, IsAsciiDigit);
    if s == "" then 0
    else if IsBlank(s[0]) || s[0] == '>' then 1
    else if IsBulletMark(s[0]) then (if |s| > 1 && IsBlank(s[1]) then 2 else 0)
    else if 0 < digits < |s| - 1 && (s[digits] == '.' || s[digits] == ')') && IsBlank(s[digits + 1]) then digits + 2
    else 0
  }

  /** A line without any indentation and markers in front, however deep they go. */
  function Core(line: string): string
    decreases |line|
  {
    var n := MarkerWidth(line);
    if n == 0 then line else Core(line[n..])
  }

  lemma {:induction false} CoreIsTail(line: string) returns (start: nat)
    ensures start <= |line| && Core(line) == line[start..]
    decreases |line|
  {
    var n := MarkerWidth(line);
    if n == 0 {
      start := 0;
      assert line[0..] == line;
    } else {
      start := CoreIsTail(line[n..]);
      start := n + start;
    }
  }

  function Cores(lines: seq<string>): seq<string> {
    if lines == [] then [] else [Core(lines[0])] + Cores(lines[1..])
  }

  lemma {:induction false} CoresConcat(a: seq<string>, b: seq<string>)
    ensures Cores(a + b) == Cores(a) + Cores(b)
  {
    hide Core;
    if a == [] {
      assert a + b == b;
    } else {
      CoresConcat(a[1..], b);
      assert (a + b)[1..] == a[1..] + b;
      Regroup([Core(a[0])], Cores(a[1..]), Cores(b));
    }
  }

  /** Characters no marker starts with. */
  predicate StartsNoMarker(c: char) {
    !IsBlank(c) && c != '>' && !IsBulletMark(c) && !IsAsciiDigit(c)
  }

  lemma PlainCore(line: string)
    requires line == "" || StartsNoMarker(line[0])
    ensures Core(line) == line
  {
    if line != "" {
      SpanIs(line, IsAsciiDigit, 0);
    }
  }

  lemma {:induction false} IndentedCore(indent: string, rest: string)
    requires forall i :: 0 <= i < |indent| ==> IsBlank(indent[i])
    ensures Core(indent + rest) == Core(rest)
  {
    if indent == "" {
      assert indent + rest == rest;
    } else {
      assert indent[0] == (indent + rest)[0];
      assert (indent + rest)[1..] == indent[1..] + rest;
      IndentedCore(indent[1..], rest);
    }
  }

  lemma BulletCore(text: string)
    ensures Core("- " + text) == Core(text)
  {
    assert ("- " + text)[2..] == text;
  }

  lemma QuoteCore(text: string)
    ensures Core("> " + text) == Core(text)
  {
    var line := "> " + text;
    assert line[1..] == " " + text;
    IndentedCore(" ", text);
  }

  lemma NumberCore(digits: string, text: string)
    requires digits != "" && forall i :: 0 <= i < |digits| ==> IsAsciiDigit(digits[i])
    ensures Core(digits + ". " + text) == Core(text)
  {
    var line, n := digits + ". " + text, |digits|;
    assert forall i :: 0 <= i < n ==> line[i] == digits[i];
    SpanIs(line, IsAsciiDigit, n);
    assert line[n] == '.' && line[n + 1] == ' ' && line[n + 2..] == text;
  }

  /** What the block-start escape leaves starts with no marker. */
  lemma UnopenedCore(line: string)
    requires OpensNoBlock(line) && (line != "" ==> !IsBlank(line[0]))
    ensures Core(line) == line
  {
    if line != "" {
      assert BlockHazard(line) <== IsBulletMark(line[0]) && |line| > 1 && IsBlank(line[1]);
      var digits := Span(line, IsAsciiDigit);
      if 0 < digits < |line| - 1 && (line[digits] == '.' || line[digits] == ')') && IsBlank(line[digits + 1]) {
        forall i | 0 <= i < digits
          ensures IsDigit(line[i])
        {
          SpanAt(line, IsAsciiDigit, i);
        }
        SpanIs(line, IsDigit, digits);
      }
    }
  }
}
