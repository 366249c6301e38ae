/** Single-line canonicalisation and the block-start escape that every rendering path ends with. */
module Escape {
  import opened Text

  // ----- one_line (Unicode NFC, its first step, is taken as already applied) -----

  /** `re.sub("[class]+", c, s)`: every maximal run becomes one `c`. */
  function Collapse(s: string, p: char -> bool, c: char): string
    decreases |s|
  {
    if s == "" then ""
    else if p(s[0]) then [c] + Collapse(s[1 + Span(s[1..], p)..], p, c)
    else [s[0]] + Collapse(s[1..], p, c)
  }

  function OneLine(s: string): string {
    Strip(Collapse(Remove(Collapse(s, IsLineBreak, ' '), IsControl), IsBlank, ' '))
  }

  predicate NoBreaks(s: string) {
    forall c :: c in s ==> !IsLineBreak(c) && !IsControl(c)
  }

  /** Every blank is one space, never followed by another blank. */
  predicate SingleSpaced(s: string) {
    forall i :: 0 <= i < |s| && IsBlank(s[i]) ==> s[i] == ' ' && (i + 1 < |s| ==> !IsBlank(s[i + 1]))
  }

  /** What a normalised single-line string looks like. */
  predicate IsLine(s: string) {
    NoBreaks(s) && Trimmed(s) && SingleSpaced(s)
  }

  lemma {:induction false} CollapseChars(s: string, p: char -> bool, c: char)
    ensures forall x :: x in Collapse(s, p, c) ==> x == c || (x in s && !p(x))
    decreases |s|
  {
    if s != "" {
      if p(s[0]) {
        CollapseChars(s[1 + Span(s[1..], p)..], p, c);
      } else {
        CollapseChars(s[1..], p, c);
      }
    }
  }

  lemma {:induction false} CollapseSingleSpaced(s: string)
    ensures SingleSpaced(Collapse(s, IsBlank, ' '))
    decreases |s|
  {
    if s != "" {
      if IsBlank(s[0]) {
        var rest := s[1 + Span(s[1..], IsBlank)..];
        assert rest != "" ==> !IsBlank(rest[0]);
        CollapseSingleSpaced(rest);
      } else {
        CollapseSingleSpaced(s[1..]);
      }
    }
  }

  lemma {:induction false} CollapseIdle(s: string, p: char -> bool, c: char)
    requires forall i :: 0 <= i < |s| && p(s[i]) ==> s[i] == c && (i + 1 < |s| ==> !p(s[i + 1]))
    ensures Collapse(s, p, c) == s
    decreases |s|
  {
    if s != "" {
      var rest := s[1..];
      assert forall i :: 0 <= i < |rest| ==> rest[i] == s[i + 1];
      if p(s[0]) {
        SpanIs(rest, p, 0);
        assert s[1 + Span(rest, p)..] == rest;
      }
      CollapseIdle(rest, p, c);
    }
  }

  /** Dropping the ends keeps single spacing: `Strip` returns a slice. */
  lemma StripSlice(s: string) returns (from: nat)
    ensures from + |Strip(s)| <= |s| && Strip(s) == s[from..from + |Strip(s)|]
  {
    from := |s| - |StripLeft(s)|;
    assert StripLeft(s)[..|Strip(s)|] == s[from..from + |Strip(s)|];
  }

  /** Whatever the client sends, the result is one trimmed line, and running it again changes nothing. */
  lemma OneLineIsLine(s: string)
    ensures IsLine(OneLine(s))
    ensures OneLine(OneLine(s)) == OneLine(s)
  {
    OneLineTrims(s);
    LineIsFixed(OneLine(s));
  }

  lemma OneLineTrims(s: string)
    ensures IsLine(OneLine(s))
  {
    hide Collapse, Remove, Strip;
    var a := Collapse(s, IsLineBreak, ' ');
    var b := Remove(a, IsControl);
    var c := Collapse(b, IsBlank, ' ');
    CollapseChars(s, IsLineBreak, ' ');
    RemoveChars(a, IsControl);
    CollapseChars(b, IsBlank, ' ');
    CollapseSingleSpaced(b);
    StripTrims(c);
    SliceSpacing(c);
  }

  lemma SliceSpacing(s: string)
    requires SingleSpaced(s)
    ensures SingleSpaced(Strip(s))
  {
    var from := StripSlice(s);
    hide Strip;
    forall i | 0 <= i < |Strip(s)| && IsBlank(Strip(s)[i])
      ensures Strip(s)[i] == ' ' && (i + 1 < |Strip(s)| ==> !IsBlank(Strip(s)[i + 1]))
    {
      assert Strip(s)[i] == s[from + i];
    }
  }

  lemma LineIsFixed(s: string)
    requires IsLine(s)
    ensures OneLine(s) == s
  {
    assert forall i :: 0 <= i < |s| ==> s[i] in s;
    CollapseIdle(s, IsLineBreak, ' ');
    RemoveChars(s, IsControl);
    CollapseIdle(s, IsBlank, ' ');
    StripTrims(s);
  }

  // ----- The block-opening patterns -----

  // First code points of the non-ASCII runs of ten decimal digits (`\d`, Unicode 15.1).
  const DIGIT_RUNS: seq<int> := [
    0x660, 0x6f0, 0x7c0, 0x966, 0x9e6, 0xa66, 0xae6, 0xb66, 0xbe6, 0xc66, 0xce6, 0xd66, 0xde6, 0xe50, 0xed0,
    0xf20, 0x1040, 0x1090, 0x17e0, 0x1810, 0x1946, 0x19d0, 0x1a80, 0x1a90, 0x1b50, 0x1bb0, 0x1c40, 0x1c50,
    0xa620, 0xa8d0, 0xa900, 0xa9d0, 0xa9f0, 0xaa50, 0xabf0, 0xff10, 0x104a0, 0x10d30, 0x11066, 0x110f0,
    0x11136, 0x111d0, 0x112f0, 0x11450, 0x114d0, 0x11650, 0x116c0, 0x11730, 0x118e0, 0x11950, 0x11c50,
    0x11d50, 0x11da0, 0x11f50, 0x16a60, 0x16ac0, 0x16b50, 0x1d7ce, 0x1d7d8, 0x1d7e2, 0x1d7ec, 0x1d7f6,
    0x1e140, 0x1e2f0, 0x1e4f0, 0x1e950, 0x1fbf0
  ]

  predicate InRuns(code: int, runs: seq<int>) {
    runs != [] && (runs[0] <= code < runs[0] + 10 || InRuns(code, runs[1..]))
  }

  /** The regex class `\d`. */
  predicate IsDigit(c: char) {
    IsAsciiDigit(c) || (c as int > 0x7f && InRuns(c as int, DIGIT_RUNS))
  }

  /** Position `i` is where the pattern `$` matches: the end, or just before a final newline. */
  predicate AtEnd(s: string, i: nat) {
    i == |s| || (i == |s| - 1 && s[i] == '\n')
  }

  /** What `^[class]*$` is matched against. */
  function Body(s: string): (r: string)
    ensures r <= s
  {
    if s != "" && s[|s| - 1] == '\n' then s[..|s| - 1] else s
  }

  /** Position `i` is followed by whitespace or by the end. */
  predicate SpaceOrEnd(s: string, i: nat) {
    AtEnd(s, i) || (i < |s| && IsSpace(s[i]))
  }

  /** `^(\d+)([.)])(?=\s|$)`: how many digits precede the punctuation, or 0 when it does not match. */
  function OrderedDigits(s: string): (n: nat)
    ensures n > 0 ==> n + 1 <= |s| && IsDigit(s[0])
  {
    var n := Span(s, IsDigit);
    if n > 0 && n < |s| && (s[n] == '.' || s[n] == ')') && SpaceOrEnd(s, n + 1) then n else 0
  }

  /** `#{1,6}(?:\s|$)` at the start. */
  predicate HashHazard(s: string) {
    var n := Span(s, c => c == '#');
    1 <= n <= 6 && SpaceOrEnd(s, n)
  }

  predicate BlockHazard(s: string) {
    || HashHazard(s)
    || (s != "" && (s[0] == '>' || s[0] == '<' || s[0] == '['))
    || (s != "" && (s[0] == '-' || s[0] == '*' || s[0] == '+') && SpaceOrEnd(s, 1))
    || "```" <= s
    || "~~~" <= s
  }

  /** `^(?:=+|-+)[ \t]*$` */
  predicate SetextUnderline(s: string) {
    var b := Body(s);
    b != "" && (b[0] == '=' || b[0] == '-') && Only(b[Span(b, c => c == b[0])..], IsBlank)
  }

  function Occurrences(s: string, c: char): nat {
    if s == "" then 0 else (if s[0] == c then 1 else 0) + Occurrences(s[1..], c)
  }

  /** `^([-_*])(?:[ \t]*\1){2,}[ \t]*$` */
  predicate ThematicBreak(s: string) {
    var b := Body(s);
    && b != "" && (b[0] == '-' || b[0] == '_' || b[0] == '*')
    && Only(b, c => c == b[0] || IsBlank(c))
    && Occurrences(b, b[0]) >= 3
  }

  /** `^[|:\- \t]*-[|:\- \t]*$` */
  predicate TableDelimiter(s: string) {
    var b := Body(s);
    Occurrences(b, '-') > 0 && Only(b, c => c == '|' || c == ':' || c == '-' || IsBlank(c))
  }

  predicate Hazard(s: string) {
    BlockHazard(s) || SetextUnderline(s) || ThematicBreak(s) || TableDelimiter(s)
  }

  /** Nothing a block-opening pattern matches. */
  predicate OpensNoBlock(s: string) {
    OrderedDigits(s) == 0 && !Hazard(s)
  }

  function EscapeBlockStart(value: string): string {
    var n := OrderedDigits(value);
    if n > 0 then value[..n] + "\\" + value[n..]
    else if Hazard(value) then "\\" + value
    else value
  }

  /** `b` is `a`, or `a` with one backslash added somewhere. */
  ghost predicate AddsOneBackslash(a: string, b: string) {
    b == a || exists k | 0 <= k <= |a| :: b == a[..k] + "\\" + a[k..]
  }

  /** The characters a hazard can start with. */
  predicate StartsHazard(c: char) {
    c in "#><[-*+`~=_|: \t"
  }

  lemma PlainStartIsNoHazard(s: string)
    requires s != "" && !StartsHazard(s[0])
    ensures !Hazard(s)
  {
    SpanIs(s, c => c == '#', 0);
    var b := Body(s);
    assert b != "" ==> b[0] == s[0];
  }

  lemma DigitStartsNoHazard(c: char)
    requires IsDigit(c)
    ensures !StartsHazard(c) && c != '\\'
  {
  }

  /** A digit first and a backslash right after the digits: no pattern allows both. */
  lemma DigitsThenBackslashIsSafe(s: string, n: nat)
    requires 0 < n < |s| && s[n] == '\\' && forall i :: 0 <= i < n ==> IsDigit(s[i])
    ensures OpensNoBlock(s)
  {
    DigitStartsNoHazard(s[0]);
    SpanIs(s, IsDigit, n) by {
      if IsDigit(s[n]) {
        DigitStartsNoHazard(s[n]);
      }
    }
    PlainStartIsNoHazard(s);
  }

  /** The escape's whole promise: what comes out opens no block, and is the input up to one backslash. */
  lemma EscapeOpensNoBlock(value: string)
    ensures OpensNoBlock(EscapeBlockStart(value))
    ensures AddsOneBackslash(value, EscapeBlockStart(value))
    ensures OpensNoBlock(value) <==> EscapeBlockStart(value) == value
  {
    var n := OrderedDigits(value);
    var r := EscapeBlockStart(value);
    if n > 0 {
      forall i | 0 <= i < n
        ensures IsDigit(r[i])
      {
        SpanAt(value, IsDigit, i);
      }
      DigitsThenBackslashIsSafe(r, n);
      assert |r| == |value| + 1;
    } else if Hazard(value) {
      SpanIs(r, IsDigit, 0);
      PlainStartIsNoHazard(r);
      assert r == value[..0] + "\\" + value[0..];
      assert |r| == |value| + 1;
    }
  }

  lemma EscapeChars(value: string)
    ensures forall c :: c in EscapeBlockStart(value) ==> c in value || c == '\\'
    ensures value != "" ==> EscapeBlockStart(value) != ""
    ensures value != "" ==> EscapeBlockStart(value)[0] == value[0] || EscapeBlockStart(value)[0] == '\\'
  {
  }
}
