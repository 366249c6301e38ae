/** The two frontmatter readers: a search over the whole text, and a bounded streaming read of its first lines. */
module Frontmatter {
  import opened Text

  // ----- Delimiters and lines -----

  predicate Dashes(s: string) {
    |s| >= 3 && s[0] == '-' && s[1] == '-' && s[2] == '-'
  }

  /** How a delimiter may end: the Gateway's patterns allow both, a text without CR LF needs only the one. */
  datatype Ending = LfOrCrlf | LfOnly

  /** Spaces or tabs and a line ending: their length, or 0. */
  function BlankEnding(s: string, ending: Ending): (n: nat)
    ensures n <= |s|
  {
    var blanks := Span(s, IsBlank);
    var after := s[blanks..];
    if |after| >= 1 && after[0] == '\n' then blanks + 1
    else if ending.LfOrCrlf? && |after| >= 2 && after[0] == '\r' && after[1] == '\n' then blanks + 2
    else 0
  }

  /** Length of the delimiter `s` starts with, or 0. */
  function DelimiterLength(s: string, ending: Ending): (n: nat)
    ensures n <= |s|
  {
    if Dashes(s) && BlankEnding(s[3..], ending) > 0 then 3 + BlankEnding(s[3..], ending) else 0
  }

  predicate AtLineStart(s: string, p: nat) {
    p == 0 || (p <= |s| && s[p - 1] == '\n')
  }

  /** The first delimiter at or after `p` that starts a line. */
  function Search(s: string, p: nat, ending: Ending): (q: Option<nat>)
    requires p <= |s|
    ensures q.Some? ==> p <= q.value <= |s| && AtLineStart(s, q.value) && DelimiterLength(s[q.value..], ending) > 0
    decreases |s| - p
  {
    if AtLineStart(s, p) && DelimiterLength(s[p..], ending) > 0 then Some(p)
    else if p == |s| then None
    else Search(s, p + 1, ending)
  }

  /** Where the YAML text begins and ends, and where the body begins. */
  datatype Block = Block(yaml: nat, close: nat, body: nat)

  function FindBlock(s: string, ending: Ending): (b: Option<Block>)
    ensures b.Some? ==> 0 < b.value.yaml <= b.value.close < b.value.body <= |s|
  {
    var yaml := DelimiterLength(s, ending);
    if yaml == 0 || Search(s, yaml, ending).None? then None
    else
      var close := Search(s, yaml, ending).value;
      Some(Block(yaml, close, close + DelimiterLength(s[close..], ending)))
  }

  /** `_split_frontmatter`, up to the YAML parser. */
  function SplitFrontmatter(s: string): (b: Option<Block>)
    ensures b.Some? ==> 0 < b.value.yaml <= b.value.close < b.value.body <= |s|
  {
    FindBlock(s, LfOrCrlf)
  }

  /** Length of the first line, with its line feed if it has one. */
  function LineLength(s: string): (n: nat)
    ensures n <= |s|
    ensures s != "" ==> n > 0
  {
    if s == "" then 0 else if s[0] == '\n' then 1 else 1 + LineLength(s[1..])
  }

  // ----- The streaming reader -----

  const MAX_CHARS := 64 * 1024
  const MAX_LINES := 1000

  /** `handle.readline(MAX_CHARS)` */
  function Readline(s: string): (line: string)
    ensures line <= s
    ensures s != "" ==> line != ""
  {
    if LineLength(s) > MAX_CHARS then s[..MAX_CHARS] else s[..LineLength(s)]
  }

  /** The lines up to the closing delimiter, if `chars` characters and `lines` lines reach it. */
  function ReadToClose(s: string, chars: int, lines: nat): Option<string>
    decreases lines
  {
    if lines == 0 || s == "" then None
    else
      var line := Readline(s);
      if |line| > chars then None
      else if DelimiterLength(line, LfOrCrlf) > 0 then Some(line)
      else
        Behind(line, ReadToClose(s[|line|..], chars - |line|, lines - 1))
  }

  function Behind(head: string, rest: Option<string>): Option<string> {
    if rest.Some? then Some(head + rest.value) else None
  }

  /** A file open for reading in text mode. */
  class TextHandle {
    var rest: string

    constructor (text: string)
      ensures rest == text
    {
      rest := text;
    }

    method ReadLine() returns (line: string)
      modifies this
      ensures line == Readline(old(rest)) && rest == old(rest)[|line|..]
    {
      line := Readline(rest);
      rest := rest[|line|..];
    }
  }

  function Newlines(s: string): nat {
    if s == "" then 0 else (if s[0] == '\n' then 1 else 0) + Newlines(s[1..])
  }

  // ----- Lines -----

  lemma {:induction false} LineShape(s: string)
    ensures forall i :: 0 <= i < LineLength(s) - 1 ==> s[i] != '\n'
    ensures LineLength(s) < |s| ==> s[LineLength(s) - 1] == '\n'
    ensures s != "" && LineLength(s) > 0 && s[LineLength(s) - 1] != '\n' ==> LineLength(s) == |s|
  {
    if s != "" && s[0] != '\n' {
      LineShape(s[1..]);
    }
  }

  /** A length that ends with the first line feed is the line's. */
  lemma {:induction false} LineIs(s: string, n: nat)
    requires 1 <= n <= |s| && s[n - 1] == '\n' && forall i :: 0 <= i < n - 1 ==> s[i] != '\n'
    ensures LineLength(s) == n
  {
    if n > 1 {
      assert s[0] != '\n';
      LineIs(s[1..], n - 1);
    }
  }

  /** A delimiter is a whole line. */
  lemma DelimiterIsLine(s: string, ending: Ending)
    requires DelimiterLength(s, ending) > 0
    ensures DelimiterLength(s, ending) == LineLength(s) && s[LineLength(s) - 1] == '\n'
  {
    var n := DelimiterLength(s, ending);
    var blanks := Span(s[3..], IsBlank);
    assert s[3..][blanks..] == s[3 + blanks..];
    forall i | 0 <= i < n - 1
      ensures s[i] != '\n'
    {
      if 3 <= i < 3 + blanks {
        SpanAt(s[3..], IsBlank, i - 3);
        assert s[3..][i - 3] == s[i];
      }
    }
    LineIs(s, n);
  }

  /** Whether `s` starts with a delimiter shows in its first line. */
  lemma DelimiterInLine(s: string, ending: Ending)
    ensures DelimiterLength(s[..LineLength(s)], ending) == DelimiterLength(s, ending)
  {
    hide DelimiterLength;
    LineShape(s);
    var l := s[..LineLength(s)];
    if DelimiterLength(s, ending) > 0 {
      DelimiterIsLine(s, ending);
      DelimiterShortens(l, s, ending);
    } else if DelimiterLength(l, ending) > 0 {
      DelimiterExtends(l, s, ending);
    }
  }

  /** A run of blanks that ends within a prefix is the run of the whole. */
  lemma SameBlanks(l: string, s: string)
    requires l <= s && (Span(l, IsBlank) < |l| || Span(s, IsBlank) < |l|)
    ensures Span(l, IsBlank) == Span(s, IsBlank)
  {
    if Span(l, IsBlank) < |l| {
      var n := Span(l, IsBlank);
      forall i | 0 <= i < n
        ensures IsBlank(s[i])
      {
        SpanAt(l, IsBlank, i);
        assert s[i] == l[i];
      }
      assert s[n] == l[n];
      SpanIs(s, IsBlank, n);
    } else {
      var n := Span(s, IsBlank);
      forall i | 0 <= i < n
        ensures IsBlank(l[i])
      {
        SpanAt(s, IsBlank, i);
        assert s[i] == l[i];
      }
      assert s[n] == l[n];
      SpanIs(l, IsBlank, n);
    }
  }

  /** An ending that fits into a prefix is an ending of the prefix, and the other way round. */
  lemma SameEnding(l: string, s: string, ending: Ending)
    requires l <= s && (BlankEnding(l, ending) > 0 || 0 < BlankEnding(s, ending) <= |l|)
    ensures BlankEnding(l, ending) == BlankEnding(s, ending)
  {
    hide Span;
    SameBlanks(l, s);
    var n := Span(l, IsBlank);
    assert l[n..] <= s[n..];
  }

  lemma SameStart(l: string, s: string)
    requires l <= s && |l| >= 3
    ensures Dashes(l) == Dashes(s) && l[3..] <= s[3..]
  {
    assert l[0] == s[0] && l[1] == s[1] && l[2] == s[2];
    assert l[3..] == s[3..][..|l| - 3];
  }

  lemma DelimiterShortens(l: string, s: string, ending: Ending)
    requires l <= s && DelimiterLength(s, ending) == |l| > 0
    ensures DelimiterLength(l, ending) == DelimiterLength(s, ending)
  {
    hide Dashes, BlankEnding;
    SameStart(l, s);
    SameEnding(l[3..], s[3..], ending);
  }

  lemma DelimiterExtends(l: string, s: string, ending: Ending)
    requires l <= s && DelimiterLength(l, ending) > 0
    ensures DelimiterLength(s, ending) == DelimiterLength(l, ending)
  {
    hide Dashes, BlankEnding;
    DashesAreThree(l);
    SameStart(l, s);
    SameEnding(l[3..], s[3..], ending);
  }

  lemma DashesAreThree(s: string)
    ensures Dashes(s) ==> |s| >= 3
  {
  }

  // ----- The search goes line by line -----

  /** Between two line starts there is nothing to find. */
  lemma {:induction false} SearchSkips(s: string, p: nat, q: nat, ending: Ending)
    requires p <= q <= |s|
    requires forall i :: p <= i < q ==> !AtLineStart(s, i)
    ensures Search(s, p, ending) == Search(s, q, ending)
    decreases q - p
  {
    hide DelimiterLength, AtLineStart;
    if p < q {
      assert !AtLineStart(s, p);
      SearchSkips(s, p + 1, q, ending);
    }
  }

  lemma SearchNextLine(s: string, p: nat, ending: Ending)
    requires p < |s| && AtLineStart(s, p) && DelimiterLength(s[p..], ending) == 0
    ensures Search(s, p, ending) == Search(s, p + LineLength(s[p..]), ending)
  {
    hide DelimiterLength;
    var next := p + LineLength(s[p..]);
    LineShape(s[p..]);
    forall i | p + 1 <= i < next
      ensures !AtLineStart(s, i)
    {
      assert s[i - 1] == s[p..][i - 1 - p];
    }
    SearchSkips(s, p + 1, next, ending);
  }

  lemma NothingAtEnd(s: string, ending: Ending)
    ensures Search(s, |s|, ending).None?
  {
    assert s[|s|..] == "";
  }

  lemma FoundHere(s: string, p: nat, ending: Ending)
    requires p <= |s| && AtLineStart(s, p) && DelimiterLength(s[p..], ending) > 0
    ensures Search(s, p, ending) == Some(p)
  {
  }

  lemma {:induction false} NewlinesConcat(a: string, b: string)
    ensures Newlines(a + b) == Newlines(a) + Newlines(b)
  {
    if a == "" {
      assert a + b == b;
    } else {
      assert (a + b)[1..] == a[1..] + b;
      NewlinesConcat(a[1..], b);
    }
  }

  lemma {:induction false} LineNewlines(s: string)
    ensures Newlines(s[..LineLength(s)]) == if s != "" && s[LineLength(s) - 1] == '\n' then 1 else 0
  {
    if s != "" {
      assert s[..LineLength(s)][1..] == if s[0] == '\n' then "" else s[1..][..LineLength(s[1..])];
      if s[0] != '\n' {
        LineNewlines(s[1..]);
      }
    }
  }

  // ----- The streaming read against the search -----

  /** From the line start `p` to the end of the closing delimiter the search finds. */
  function ToClose(s: string, p: nat): Option<string>
    requires p <= |s|
  {
    var close := Search(s, p, LfOrCrlf);
    if close.None? then None
    else Some(s[p..close.value + DelimiterLength(s[close.value..], LfOrCrlf)])
  }

  predicate Fits(part: Option<string>, chars: int, lines: nat) {
    part.Some? && |part.value| <= chars && Newlines(part.value) <= lines
  }

  lemma CloseHere(s: string, p: nat)
    requires p < |s| && AtLineStart(s, p) && DelimiterLength(s[p..], LfOrCrlf) > 0
    ensures ToClose(s, p) == Some(s[p..][..LineLength(s[p..])]) && Newlines(s[p..][..LineLength(s[p..])]) == 1
  {
    hide DelimiterLength, Newlines, LineLength;
    LineNewlines(s[p..]);
    DelimiterIsLine(s[p..], LfOrCrlf);
    assert s[p..][..LineLength(s[p..])] == s[p..p + DelimiterLength(s[p..], LfOrCrlf)];
  }

  lemma CloseLater(s: string, p: nat)
    requires p < |s| && AtLineStart(s, p) && DelimiterLength(s[p..], LfOrCrlf) == 0
    ensures var n := LineLength(s[p..]);
      var line, rest := s[p..][..n], ToClose(s, p + n);
      && ToClose(s, p) == Behind(line, rest)
      && (rest.Some? ==> Newlines(line) == 1 && AtLineStart(s, p + n))
  {
    hide DelimiterLength, Newlines, LineLength, Search;
    var n := LineLength(s[p..]);
    SearchNextLine(s, p, LfOrCrlf);
    var close := Search(s, p, LfOrCrlf);
    if close.Some? {
      LineShape(s[p..]);
      NothingAtEnd(s, LfOrCrlf);
      assert s[p..][n - 1] == s[p + n - 1];
      LineNewlines(s[p..]);
      var end := close.value + DelimiterLength(s[close.value..], LfOrCrlf);
      assert s[p..end] == s[p..][..n] + s[p + n..end];
    }
  }

  /** A line without line feed is the last. */
  lemma LastLine(s: string, p: nat)
    requires p < |s| && !AtLineStart(s, p + LineLength(s[p..]))
    ensures p + LineLength(s[p..]) == |s| && s[p + LineLength(s[p..])..] == ""
    ensures ToClose(s, |s|).None?
  {
    LineShape(s[p..]);
    NothingAtEnd(s, LfOrCrlf);
  }

  lemma NoClose(s: string)
    ensures ToClose(s, |s|).None? && s[|s|..] == ""
  {
    NothingAtEnd(s, LfOrCrlf);
  }

  /** From any line start of any text, the bounded loop returns the part up to the close exactly if it fits. */
  lemma {:induction false} StreamsToClose(s: string, p: nat, chars: int, lines: nat)
    requires p <= |s| && AtLineStart(s, p) && chars < MAX_CHARS
    ensures ReadToClose(s[p..], chars, lines) == if Fits(ToClose(s, p), chars, lines) then ToClose(s, p) else None
    decreases lines
  {
    hide DelimiterLength, Search, ToClose, LineLength, AtLineStart, ReadToClose, Newlines;
    if p == |s| {
      NoClose(s);
      NothingToRead(chars, lines);
    } else {
      var n := LineLength(s[p..]);
      ReadFirstLine(s, p, chars, lines);
      if DelimiterLength(s[p..], LfOrCrlf) > 0 {
        CloseHere(s, p);
      } else {
        CloseLater(s, p);
        if n <= chars && lines > 0 {
          if AtLineStart(s, p + n) {
            StreamsToClose(s, p + n, chars - n, lines - 1);
          } else {
            LastLine(s, p);
            NothingToRead(chars - n, lines - 1);
          }
        }
        if ToClose(s, p + n).Some? {
          NewlinesConcat(s[p..][..n], ToClose(s, p + n).value);
        }
      }
    }
  }

  lemma NothingToRead(chars: int, lines: nat)
    ensures ReadToClose("", chars, lines).None?
  {
  }

  /** What the loop does with the line at `p`. */
  lemma ReadFirstLine(s: string, p: nat, chars: int, lines: nat)
    requires p < |s| && chars < MAX_CHARS
    ensures var n := LineLength(s[p..]);
      && p + n <= |s|
      && ReadToClose(s[p..], chars, lines)
        == if lines == 0 || n > chars then None
           else if DelimiterLength(s[p..], LfOrCrlf) > 0 then Some(s[p..][..n])
           else Behind(s[p..][..n], ReadToClose(s[p + n..], chars - n, lines - 1))
  {
    hide DelimiterLength, LineLength;
    var n := LineLength(s[p..]);
    assert s[p..][n..] == s[p + n..];
    DelimiterInLine(s[p..], LfOrCrlf);
  }

  /** The frontmatter of a text, both delimiters included, if it keeps to both bounds. */
  function BlockWithin(text: string): Option<string> {
    var found := SplitFrontmatter(text);
    if found.None? then None
    else
      var block := text[..found.value.body];
      if |block| <= 65_536 && Newlines(block) <= 1_001 then Some(block) else None
  }

  /** The streaming read as one expression, from the first line on. */
  function Streamed(text: string): Option<string> {
    var first := Readline(text);
    if DelimiterLength(first, LfOrCrlf) == 0 then None
    else Behind(first, ReadToClose(text[|first|..], MAX_CHARS - |first|, MAX_LINES))
  }

  /** The opening line and the part up to the close. */
  lemma WholeBlock(text: string)
    requires DelimiterLength(text, LfOrCrlf) > 0
    ensures var n := DelimiterLength(text, LfOrCrlf);
      && n == LineLength(text) && AtLineStart(text, n) && Newlines(text[..n]) == 1
      && (SplitFrontmatter(text).Some? <==> ToClose(text, n).Some?)
      && (SplitFrontmatter(text).Some? ==> text[..SplitFrontmatter(text).value.body] == text[..n] + ToClose(text, n).value)
  {
    hide DelimiterLength, Newlines, LineLength, Search;
    DelimiterIsLine(text, LfOrCrlf);
    LineNewlines(text);
  }

  /** Without folding anything: on any text, the streaming read and the search over the whole agree. */
  lemma StreamIsBlock(text: string)
    ensures Streamed(text) == BlockWithin(text)
  {
    hide DelimiterLength, Newlines, LineLength, Search, ToClose, AtLineStart, ReadToClose;
    var n := DelimiterLength(text, LfOrCrlf);
    if n == 0 {
      if LineLength(text) > MAX_CHARS {
        CutLine(text);
      } else {
        DelimiterInLine(text, LfOrCrlf);
      }
    } else {
      WholeBlock(text);
      if n > MAX_CHARS {
        CutLine(text);
      } else {
        StreamFromOpener(text);
      }
    }
  }

  lemma StreamFromOpener(text: string)
    requires 0 < DelimiterLength(text, LfOrCrlf) <= MAX_CHARS
    ensures Streamed(text) == BlockWithin(text)
  {
    hide DelimiterLength, Newlines, LineLength, Search, ToClose, AtLineStart, ReadToClose, SplitFrontmatter;
    var n := DelimiterLength(text, LfOrCrlf);
    WholeBlock(text);
    NoBlockWithoutOpener(text);
    DelimiterInLine(text, LfOrCrlf);
    assert Readline(text) == text[..n];
    if ToClose(text, n).Some? {
      NewlinesConcat(text[..n], ToClose(text, n).value);
    }
    StreamsToClose(text, n, MAX_CHARS - n, MAX_LINES);
  }

  lemma NoBlockWithoutOpener(text: string)
    ensures DelimiterLength(text, LfOrCrlf) == 0 ==> SplitFrontmatter(text).None?
  {
  }

  /** A line cut short has no line feed, so it is no delimiter. */
  lemma CutLine(s: string)
    requires LineLength(s) > MAX_CHARS
    ensures DelimiterLength(s[..MAX_CHARS], LfOrCrlf) == 0
  {
    hide DelimiterLength;
    LineShape(s);
    var cut := s[..MAX_CHARS];
    assert forall i :: 0 <= i < |cut| ==> cut[i] == s[i] != '\n';
    if DelimiterLength(cut, LfOrCrlf) > 0 {
      DelimiterIsLine(cut, LfOrCrlf);
    }
  }

  // ----- The streaming reader, as it runs -----

  /** Text mode: CR LF and a bare CR become LF. */
  function Fold(s: string): string {
    if s == "" then ""
    else if s[0] == '\r' && |s| > 1 && s[1] == '\n' then Fold(s[1..])
    else [if s[0] == '\r' then '\n' else s[0]] + Fold(s[1..])
  }

  /** One more line read behind the text read so far. */
  lemma ReadOneLine(done: string, s: string, chars: int, lines: nat)
    requires lines > 0
    ensures var line := Readline(s);
      Behind(done, ReadToClose(s, chars, lines)) ==
        if line == "" || |line| > chars then None
        else if DelimiterLength(line, LfOrCrlf) > 0 then Some(done + line)
        else Behind(done + line, ReadToClose(s[|line|..], chars - |line|, lines - 1))
  {
    hide DelimiterLength, Readline;
    var line := Readline(s);
    if line != "" && |line| <= chars && DelimiterLength(line, LfOrCrlf) == 0 {
      var rest := ReadToClose(s[|line|..], chars - |line|, lines - 1);
      if rest.Some? {
        assert done + (line + rest.value) == done + line + rest.value;
      }
    }
  }

  /** `read_frontmatter_text`, on the decoded text of a note. */
  method ReadFrontmatterText(raw: string) returns (block: Option<string>)
    ensures block == BlockWithin(Fold(raw))
  {
    hide DelimiterLength, Fold, Newlines, Search, BlockWithin, Readline, ReadToClose, Behind, Join;
    StreamIsBlock(Fold(raw));
    var handle := new TextHandle(Fold(raw));
    var first := handle.ReadLine();
    if DelimiterLength(first, LfOrCrlf) == 0 {
      return None;
    }
    var lines := [first];
    JoinOne(first);
    var total := |first|;
    for i := 0 to MAX_LINES
      invariant lines != [] && total == |Join(lines, "")|
      invariant BlockWithin(Fold(raw)) == Behind(Join(lines, ""), ReadToClose(handle.rest, MAX_CHARS - total, MAX_LINES - i))
    {
      ReadOneLine(Join(lines, ""), handle.rest, MAX_CHARS - total, MAX_LINES - i);
      var line := handle.ReadLine();
      if line == "" {
        return None;
      }
      total := total + |line|;
      if total > MAX_CHARS {
        return None;
      }
      JoinAppend(lines, line, "");
      assert Join(lines, "") + "" == Join(lines, "");
      lines := lines + [line];
      if DelimiterLength(line, LfOrCrlf) > 0 {
        return Some(Join(lines, ""));
      }
    }
    NoLinesLeft(Join(lines, ""), handle.rest, MAX_CHARS - total);
    return None;
  }

  lemma JoinOne(line: string)
    ensures Join([line], "") == line
  {
  }

  lemma NoLinesLeft(done: string, s: string, chars: int)
    ensures Behind(done, ReadToClose(s, chars, 0)).None?
  {
  }
}
