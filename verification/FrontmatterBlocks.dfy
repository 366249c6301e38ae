/** What a frontmatter block is, said position by position: the search finds exactly that. */
module FrontmatterBlocks {
  import opened Text
  import opened Frontmatter

  /** A delimiter line at `p`: three hyphens, blanks, and a line feed, perhaps behind a carriage return. */
  predicate DelimiterAt(s: string, p: nat, n: nat) {
    && n >= 4 && p + n <= |s|
    && s[p] == '-' && s[p + 1] == '-' && s[p + 2] == '-' && s[p + n - 1] == '\n'
    && (forall i :: p + 3 <= i < p + n - 2 ==> IsBlank(s[i]))
    && (n >= 5 ==> IsBlank(s[p + n - 2]) || s[p + n - 2] == '\r')
  }

  lemma EndingIs(s: string, n: nat)
    requires n > 0
    ensures BlankEnding(s, LfOrCrlf) == n <==>
      (&& n <= |s| && s[n - 1] == '\n' && (forall i :: 0 <= i < n - 2 ==> IsBlank(s[i]))
       && (n >= 2 ==> IsBlank(s[n - 2]) || s[n - 2] == '\r'))
  {
    var blanks := Span(s, IsBlank);
    if BlankEnding(s, LfOrCrlf) == n {
      forall i | 0 <= i < blanks
        ensures IsBlank(s[i])
      {
        SpanAt(s, IsBlank, i);
      }
    }
    if n <= |s| && s[n - 1] == '\n' && (forall i :: 0 <= i < n - 2 ==> IsBlank(s[i])) && (n >= 2 ==> IsBlank(s[n - 2]) || s[n - 2] == '\r') {
      SpanIs(s, IsBlank, if n >= 2 && s[n - 2] == '\r' then n - 2 else n - 1);
    }
  }

  lemma DelimiterIs(s: string, p: nat, n: nat)
    requires p <= |s| && n > 0
    ensures DelimiterLength(s[p..], LfOrCrlf) == n <==> DelimiterAt(s, p, n)
  {
    hide BlankEnding, IsBlank;
    var t := s[p..];
    if n > 3 && |t| >= 3 {
      var u := t[3..];
      EndingIs(u, n - 3);
      assert forall i :: 0 <= i < |u| ==> u[i] == s[p + 3 + i];
      if DelimiterAt(s, p, n) {
        assert u[n - 4] == s[p + n - 1];
        assert n >= 5 ==> u[n - 5] == s[p + n - 2];
      } else if BlankEnding(u, LfOrCrlf) == n - 3 && Dashes(t) {
        DelimiterFrom(s, p, n);
      }
    }
  }

  lemma DelimiterFrom(s: string, p: nat, n: nat)
    requires p + 3 <= |s| && n > 3 && Dashes(s[p..]) && BlankEnding(s[p..][3..], LfOrCrlf) == n - 3
    ensures DelimiterAt(s, p, n)
  {
    hide BlankEnding, IsBlank;
    var u := s[p..][3..];
    EndingIs(u, n - 3);
    assert forall i :: p + 3 <= i < |s| ==> s[i] == u[i - p - 3];
  }

  /** A line that delimits starts at `q`. */
  ghost predicate DelimiterStarts(s: string, q: nat) {
    (q == 0 || (q <= |s| && s[q - 1] == '\n')) && exists n :: DelimiterAt(s, q, n)
  }

  lemma StartsMeans(s: string, q: nat)
    requires q <= |s|
    ensures AtLineStart(s, q) && DelimiterLength(s[q..], LfOrCrlf) > 0 <==> DelimiterStarts(s, q)
  {
    hide DelimiterAt, DelimiterLength;
    var n := DelimiterLength(s[q..], LfOrCrlf);
    if n > 0 {
      DelimiterIs(s, q, n);
    }
    if m :| DelimiterAt(s, q, m) {
      DelimiterIsLong(s, q, m);
      DelimiterIs(s, q, m);
    }
  }

  lemma DelimiterIsLong(s: string, p: nat, n: nat)
    requires DelimiterAt(s, p, n)
    ensures n >= 4
  {
  }

  lemma {:induction false} SearchIsFirst(s: string, p: nat)
    requires p <= |s|
    ensures var q := Search(s, p, LfOrCrlf);
      && (q.Some? ==> p <= q.value <= |s| && DelimiterStarts(s, q.value))
      && forall k :: p <= k < (if q.Some? then q.value else |s| + 1) ==> !DelimiterStarts(s, k)
    decreases |s| - p
  {
    hide AtLineStart, DelimiterLength, DelimiterStarts;
    StartsMeans(s, p);
    if p < |s| && !DelimiterStarts(s, p) {
      SearchIsFirst(s, p + 1);
    }
  }

  /** The block: the text starts with a delimiter line, and the next line that delimits closes it. */
  ghost predicate IsBlock(s: string, b: Block) {
    && DelimiterAt(s, 0, b.yaml) && b.yaml <= b.close < b.body
    && DelimiterStarts(s, b.close) && DelimiterAt(s, b.close, b.body - b.close)
    && forall k :: b.yaml <= k < b.close ==> !DelimiterStarts(s, k)
  }

  /** The search finds a block exactly if there is one, and then that one. */
  lemma BlockIsFound(s: string, b: Block)
    ensures FindBlock(s, LfOrCrlf) == Some(b) <==> IsBlock(s, b)
  {
    hide DelimiterAt, DelimiterLength, DelimiterStarts, Search;
    var yaml := DelimiterLength(s, LfOrCrlf);
    assert s[0..] == s;
    if yaml > 0 {
      DelimiterIs(s, 0, yaml);
      SearchIsFirst(s, yaml);
      var q := Search(s, yaml, LfOrCrlf);
      if q.Some? {
        var body := DelimiterLength(s[q.value..], LfOrCrlf);
        DelimiterIs(s, q.value, body);
      }
    }
    if IsBlock(s, b) {
      DelimiterIsLong(s, 0, b.yaml);
      DelimiterIs(s, 0, b.yaml);
      CloseIsInside(s, b.close);
      DelimiterIs(s, b.close, b.body - b.close);
    }
  }

  lemma CloseIsInside(s: string, q: nat)
    requires DelimiterStarts(s, q)
    ensures q <= |s|
  {
    var n :| DelimiterAt(s, q, n);
  }
}
