/** What opens a block, said position by position: the block-opening patterns match exactly that. */
module BlockStarts {
  import opened Text
  import opened Escape

  /** One to six `#`, then whitespace or the end. */
  ghost predicate OpensHeading(s: string) {
    exists k :: HashesThen(s, k)
  }

  ghost predicate HashesThen(s: string, k: nat) {
    1 <= k <= 6 && k <= |s| && (forall i :: 0 <= i < k ==> s[i] == '#') && (k == |s| || IsSpace(s[k]))
  }

  /** Digits, a full stop or a closing parenthesis, then whitespace or the end. */
  ghost predicate OpensNumbered(s: string) {
    exists k :: DigitsThen(s, k)
  }

  ghost predicate DigitsThen(s: string, k: nat) {
    && 1 <= k < |s| && (forall i :: 0 <= i < k ==> IsDigit(s[i])) && (s[k] == '.' || s[k] == ')')
    && (k + 1 == |s| || IsSpace(s[k + 1]))
  }

  predicate OpensBulleted(s: string) {
    s != "" && (s[0] == '-' || s[0] == '*' || s[0] == '+') && (|s| == 1 || IsSpace(s[1]))
  }

  /** A quote, an HTML block, a link reference definition, or a fence. */
  predicate OpensMarked(s: string) {
    || (s != "" && (s[0] == '>' || s[0] == '<' || s[0] == '['))
    || (|s| >= 3 && s[0] == s[1] == s[2] && (s[0] == '`' || s[0] == '~'))
  }

  /** A run of `=` or of `-`, then only blanks. */
  ghost predicate Underlines(s: string) {
    exists k :: UnderlineThen(s, k)
  }

  ghost predicate UnderlineThen(s: string, k: nat) {
    && 1 <= k <= |s| && (s[0] == '=' || s[0] == '-')
    && (forall i :: 0 <= i < k ==> s[i] == s[0]) && forall i :: k <= i < |s| ==> IsBlank(s[i])
  }

  /** Three or more of one of `-`, `_` and `*`, with nothing but blanks between and behind them. */
  ghost predicate Breaks(s: string) {
    && s != "" && (s[0] == '-' || s[0] == '_' || s[0] == '*')
    && (forall i :: 0 <= i < |s| ==> s[i] == s[0] || IsBlank(s[i]))
    && exists i, j :: 0 < i < j < |s| && s[i] == s[0] && s[j] == s[0]
  }

  /** Only pipes, colons, hyphens and blanks, and a hyphen among them. */
  ghost predicate DelimitsTable(s: string) {
    '-' in s && forall i :: 0 <= i < |s| ==> s[i] == '|' || s[i] == ':' || s[i] == '-' || IsBlank(s[i])
  }

  ghost predicate OpensBlock(s: string) {
    || OpensHeading(s) || OpensNumbered(s) || OpensBulleted(s) || OpensMarked(s)
    || Underlines(s) || Breaks(s) || DelimitsTable(s)
  }

  // ----- Pattern by pattern -----

  lemma OnlyMeans(s: string, p: char -> bool)
    ensures Only(s, p) <==> forall i :: 0 <= i < |s| ==> p(s[i])
  {
    if Only(s, p) {
      forall i | 0 <= i < |s|
        ensures p(s[i])
      {
        SpanAt(s, p, i);
      }
    }
    if forall i :: 0 <= i < |s| ==> p(s[i]) {
      SpanIs(s, p, |s|);
    }
  }

  lemma WholeBody(s: string)
    requires '\n' !in s
    ensures Body(s) == s
  {
    if s != "" {
      assert s[|s| - 1] in s;
    }
  }

  lemma EndIsEnd(s: string, i: nat)
    requires '\n' !in s
    ensures SpaceOrEnd(s, i) <==> i == |s| || (i < |s| && IsSpace(s[i]))
  {
    hide IsSpace;
    if i == |s| - 1 {
      assert s[i] in s;
    }
  }

  lemma HeadingMeans(s: string)
    requires '\n' !in s
    ensures HashHazard(s) <==> OpensHeading(s)
  {
    hide SpaceOrEnd;
    var n := Span(s, c => c == '#');
    EndIsEnd(s, n);
    if HashHazard(s) {
      forall i | 0 <= i < n
        ensures s[i] == '#'
      {
        SpanAt(s, c => c == '#', i);
      }
      assert HashesThen(s, n);
    }
    if k: nat :| HashesThen(s, k) {
      SpanIs(s, c => c == '#', k);
    }
  }

  lemma NumberedMeans(s: string)
    requires '\n' !in s
    ensures OrderedDigits(s) > 0 <==> OpensNumbered(s)
  {
    hide IsDigit, SpaceOrEnd, IsSpace;
    var n := Span(s, IsDigit);
    EndIsEnd(s, n + 1);
    if OrderedDigits(s) > 0 {
      forall i | 0 <= i < n
        ensures IsDigit(s[i])
      {
        SpanAt(s, IsDigit, i);
      }
      assert DigitsThen(s, n);
    }
    if k: nat :| DigitsThen(s, k) {
      PointIsNoDigit(s[k]);
      SpanIs(s, IsDigit, k);
    }
  }

  lemma PointIsNoDigit(c: char)
    requires c == '.' || c == ')'
    ensures !IsDigit(c)
  {
  }

  lemma UnderlineMeans(s: string)
    requires '\n' !in s
    ensures SetextUnderline(s) <==> Underlines(s)
  {
    WholeBody(s);
    if s != "" {
      var n := Span(s, c => c == s[0]);
      OnlyMeans(s[n..], IsBlank);
      if SetextUnderline(s) {
        forall i | 0 <= i < n
          ensures s[i] == s[0]
        {
          SpanAt(s, c => c == s[0], i);
        }
        assert n >= 1 by { SpanStarts(s); }
        assert forall i :: n <= i < |s| ==> s[i] == s[n..][i - n];
        assert UnderlineThen(s, n);
      }
      if k: nat :| UnderlineThen(s, k) {
        SpanIs(s, c => c == s[0], k);
      }
    }
  }

  lemma SpanStarts(s: string)
    requires s != ""
    ensures Span(s, c => c == s[0]) >= 1
  {
  }

  lemma {:induction false} OccursTwice(s: string, c: char)
    ensures Occurrences(s, c) >= 1 <==> c in s
    ensures Occurrences(s, c) >= 2 <==> exists i, j :: 0 <= i < j < |s| && s[i] == c && s[j] == c
  {
    if s != "" {
      var t := s[1..];
      OccursTwice(t, c);
      assert forall i :: 0 <= i < |t| ==> t[i] == s[i + 1];
      if Occurrences(s, c) >= 2 {
        if s[0] == c {
          var j :| 0 <= j < |t| && t[j] == c;
          assert 0 < j + 1 < |s| && s[0] == c && s[j + 1] == c;
        } else {
          var i, j :| 0 <= i < j < |t| && t[i] == c && t[j] == c;
          assert s[i + 1] == c && s[j + 1] == c;
        }
      }
      if i, j :| 0 <= i < j < |s| && s[i] == c && s[j] == c {
        assert t[j - 1] == c;
        if i > 0 {
          assert t[i - 1] == c;
        }
      }
    }
  }

  lemma BreakMeans(s: string)
    requires '\n' !in s
    ensures ThematicBreak(s) <==> Breaks(s)
  {
    WholeBody(s);
    if s != "" {
      OnlyMeans(s, c => c == s[0] || IsBlank(c));
      var t := s[1..];
      OccursTwice(t, s[0]);
      if i, j :| 0 < i < j < |s| && s[i] == s[0] && s[j] == s[0] {
        assert t[i - 1] == s[0] && t[j - 1] == s[0];
      }
      if i, j :| 0 <= i < j < |t| && t[i] == s[0] && t[j] == s[0] {
        assert s[i + 1] == s[0] && s[j + 1] == s[0];
      }
    }
  }

  lemma TableMeans(s: string)
    requires '\n' !in s
    ensures TableDelimiter(s) <==> DelimitsTable(s)
  {
    WholeBody(s);
    OnlyMeans(s, c => c == '|' || c == ':' || c == '-' || IsBlank(c));
    OccursTwice(s, '-');
  }

  lemma BlockMeans(s: string)
    requires '\n' !in s
    ensures BlockHazard(s) <==> OpensHeading(s) || OpensBulleted(s) || OpensMarked(s)
  {
    hide IsSpace, HashHazard, OpensHeading;
    HeadingMeans(s);
    EndIsEnd(s, 1);
    if |s| >= 3 {
      assert "```" <= s <==> s[0] == s[1] == s[2] == '`';
      assert "~~~" <= s <==> s[0] == s[1] == s[2] == '~';
    }
  }

  /** A line is left as it is exactly if it opens no block; otherwise it gets one backslash and then opens none. */
  lemma EscapedIffOpening(line: string)
    requires '\n' !in line
    ensures EscapeBlockStart(line) == line <==> !OpensBlock(line)
    ensures !OpensBlock(EscapeBlockStart(line))
  {
    hide OrderedDigits, BlockHazard, SetextUnderline, ThematicBreak, TableDelimiter, OpensHeading, OpensNumbered, OpensBulleted, OpensMarked,
      Underlines, Breaks, DelimitsTable, EscapeBlockStart;
    EscapeOpensNoBlock(line);
    PatternsMean(line);
    EscapeChars(line);
    PatternsMean(EscapeBlockStart(line));
  }

  lemma PatternsMean(line: string)
    requires '\n' !in line
    ensures OpensNoBlock(line) <==> !OpensBlock(line)
  {
    hide OrderedDigits, BlockHazard, SetextUnderline, ThematicBreak, TableDelimiter, OpensHeading, OpensNumbered, OpensBulleted, OpensMarked,
      Underlines, Breaks, DelimitsTable;
    NumberedMeans(line);
    BlockMeans(line);
    UnderlineMeans(line);
    BreakMeans(line);
    TableMeans(line);
  }
}
