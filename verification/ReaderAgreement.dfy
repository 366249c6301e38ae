/** Where the bounded streaming read, which folds a bare CR, and the full read, which does not, find the same frontmatter. */
module ReaderAgreement {
  import opened Text
  import opened Frontmatter

  // ----- Text mode in two steps -----

  /** CR LF becomes LF; a bare CR stays, at the place where text mode has its LF. */
  function Unify(s: string): (r: string)
    ensures |r| == |Fold(s)|
  {
    if s == "" then ""
    else if s[0] == '\r' && |s| > 1 && s[1] == '\n' then Unify(s[1..])
    else [s[0]] + Unify(s[1..])
  }

  /** `t` is `s` with every CR turned into LF. */
  ghost predicate Bares(s: string, t: string) {
    |s| == |t| && forall i :: 0 <= i < |s| ==> t[i] == if s[i] == '\r' then '\n' else s[i]
  }

  lemma {:induction false} FoldIsBares(s: string)
    ensures Bares(Unify(s), Fold(s))
  {
    if s != "" {
      FoldIsBares(s[1..]);
    }
  }

  lemma UnifyStep(s: string)
    requires s != ""
    ensures var crlf := s[0] == '\r' && |s| > 1 && s[1] == '\n';
      && Unify(s) == (if crlf then "" else [s[0]]) + Unify(s[1..])
      && Fold(s) == (if crlf then "" else [if s[0] == '\r' then '\n' else s[0]]) + Fold(s[1..])
  {
  }

  lemma {:induction false} UnifyConcat(a: string, b: string)
    requires a != "" ==> a[|a| - 1] != '\r'
    ensures Unify(a + b) == Unify(a) + Unify(b)
    ensures Fold(a + b) == Fold(a) + Fold(b)
  {
    if a == "" {
      assert a + b == b;
      assert Unify(a) == "" && Fold(a) == "";
    } else {
      hide Unify, Fold;
      assert (a + b)[1..] == a[1..] + b;
      UnifyConcat(a[1..], b);
      UnifyStep(a + b);
      UnifyStep(a);
      var crlf := a[0] == '\r' && |a| > 1 && a[1] == '\n';
      Regroup(if crlf then "" else [a[0]], Unify(a[1..]), Unify(b));
      Regroup(if crlf then "" else [if a[0] == '\r' then '\n' else a[0]], Fold(a[1..]), Fold(b));
    }
  }

  lemma UnifyFirst(s: string)
    ensures Unify(s) == "" <==> s == ""
    ensures s != "" && s[0] != '\r' ==> Unify(s) == [s[0]] + Unify(s[1..])
    ensures s != "" && s[0] == '\r' ==> Unify(s)[0] == if |s| > 1 && s[1] == '\n' then '\n' else '\r'
  {
  }

  lemma {:induction false} UnifyLast(s: string)
    requires s != "" && s[|s| - 1] == '\n'
    ensures Unify(s) != "" && Unify(s)[|Unify(s)| - 1] == '\n'
  {
    if |s| > 1 {
      UnifyLast(s[1..]);
    } else {
      assert Unify(s) == ['\n'] + Unify("");
    }
  }

  // ----- Delimiters of the raw text and of the unified one -----

  lemma {:induction false} UnifySpan(s: string)
    ensures Span(Unify(s), IsBlank) == Span(s, IsBlank)
    ensures Unify(s)[Span(s, IsBlank)..] == Unify(s[Span(s, IsBlank)..])
  {
    UnifyFirst(s);
    if s != "" && IsBlank(s[0]) {
      UnifySpan(s[1..]);
      var n := Span(s[1..], IsBlank);
      assert Unify(s)[1..] == Unify(s[1..]);
      assert s[1..][n..] == s[n + 1..];
      assert Unify(s)[n + 1..] == Unify(s[1..])[n..];
    }
  }

  lemma UnifyEnding(s: string)
    ensures BlankEnding(Unify(s), LfOnly) > 0 <==> BlankEnding(s, LfOrCrlf) > 0
  {
    hide Unify;
    UnifySpan(s);
    UnifyFirst(s[Span(s, IsBlank)..]);
  }

  lemma UnifyDashes(s: string)
    ensures Dashes(Unify(s)) <==> Dashes(s)
    ensures Dashes(s) ==> Unify(s)[3..] == Unify(s[3..])
  {
    hide Unify;
    UnifyFirst(s);
    if |s| >= 1 && s[0] == '-' {
      UnifyFirst(s[1..]);
      assert Unify(s)[1..] == Unify(s[1..]);
      if |s| >= 2 && s[1] == '-' {
        UnifyFirst(s[1..][1..]);
        assert Unify(s)[2..] == Unify(s[1..])[1..] == Unify(s[2..]);
        if |s| >= 3 && s[2] == '-' {
          assert s[1..][1..][1..] == s[3..];
          assert Unify(s)[3..] == Unify(s[2..])[1..];
        }
      }
    }
  }

  lemma UnifyKeepsDelimiter(s: string)
    ensures DelimiterLength(Unify(s), LfOnly) > 0 <==> DelimiterLength(s, LfOrCrlf) > 0
  {
    hide Unify, BlankEnding;
    UnifyDashes(s);
    if Dashes(s) {
      UnifyEnding(s[3..]);
    }
  }

  lemma UnifyLine(s: string)
    requires LineLength(s) < |s| || (s != "" && s[|s| - 1] == '\n')
    ensures var n := LineLength(s);
      && Unify(s) == Unify(s[..n]) + Unify(s[n..])
      && LineLength(Unify(s)) == |Unify(s[..n])| > 0
      && s[n - 1] == '\n' && Unify(s[..n])[|Unify(s[..n])| - 1] == '\n'
  {
    var n := LineLength(s);
    LineShape(s);
    assert s[..n] + s[n..] == s;
    UnifyConcat(s[..n], s[n..]);
    UnifyLast(s[..n]);
    UnifiedLine(s);
  }

  lemma {:induction false} UnifiedLine(s: string)
    ensures LineLength(Unify(s)) == |Unify(s[..LineLength(s)])|
  {
    if s != "" && s[0] != '\n' {
      UnifiedLine(s[1..]);
      assert s[..LineLength(s)][1..] == s[1..][..LineLength(s[1..])];
    } else if s != "" {
      assert s[..1] == "\n";
      assert Unify("\n") == "\n" by { assert Unify("\n") == ['\n'] + Unify(""); }
    }
  }

  // ----- The full read, on the raw text and on the unified one -----

  /** From `p`, which stands at `o` of `t`, the search finds a line at `q`; the one in `t` finds the same line. */
  ghost predicate Lands(s: string, p: nat, t: string, o: nat, q: nat)
    requires p <= q <= |s| && o <= |t|
  {
    var o' := o + |Unify(s[p..q])|;
    && Search(t, o, LfOnly) == Some(o') && t[o'..] == Unify(s[q..]) && t[o..o'] == Unify(s[p..q])
  }

  /** Behind a line that ends in LF, both texts stand at the start of the next. */
  lemma NextLine(s: string, p: nat, t: string, o: nat)
    requires p < |s| && o <= |t| && t[o..] == Unify(s[p..]) && AtLineStart(s, p + LineLength(s[p..]))
    ensures var n, m := LineLength(s[p..]), LineLength(t[o..]);
      && n > 0 && m > 0 && m == |Unify(s[p..][..n])| && o + m <= |t|
      && t[o + m..] == Unify(s[p + n..]) && t[o..o + m] == Unify(s[p..][..n]) && AtLineStart(t, o + m)
  {
    hide Unify;
    var n, m := LineLength(s[p..]), LineLength(t[o..]);
    assert s[p..][n - 1] == s[p + n - 1];
    UnifyLine(s[p..]);
    assert s[p..][n..] == s[p + n..];
    assert t[o + m..] == t[o..][m..] && t[o..o + m] == t[o..][..m];
    assert t[o..][m - 1] == t[o + m - 1];
  }

  /** In a last line without LF there is nothing to find. */
  lemma NothingInTail(s: string, p: nat, t: string, o: nat)
    requires p < |s| && o <= |t| && t[o..] == Unify(s[p..]) && AtLineStart(s, p) && AtLineStart(t, o)
    requires !AtLineStart(s, p + LineLength(s[p..])) && DelimiterLength(s[p..], LfOrCrlf) == 0
    ensures Search(s, p, LfOrCrlf).None? && Search(t, o, LfOnly).None?
  {
    hide Unify, DelimiterLength, Search;
    LineShape(s[p..]);
    var n := LineLength(s[p..]);
    assert s[p..][n - 1] == s[p + n - 1];
    assert s[p..][..n] == s[p..];
    UnifiedLine(s[p..]);
    UnifyKeepsDelimiter(s[p..]);
    UnifyFirst(s[p..]);
    SearchNextLine(s, p, LfOrCrlf);
    SearchNextLine(t, o, LfOnly);
    NothingAtEnd(s, LfOrCrlf);
    NothingAtEnd(t, LfOnly);
  }

  lemma {:induction false} UnifySearch(s: string, p: nat, t: string, o: nat)
    requires p <= |s| && o <= |t| && t[o..] == Unify(s[p..]) && AtLineStart(s, p) && AtLineStart(t, o)
    ensures Search(s, p, LfOrCrlf).None? ==> Search(t, o, LfOnly).None?
    ensures Search(s, p, LfOrCrlf).Some? ==> Lands(s, p, t, o, Search(s, p, LfOrCrlf).value)
    decreases |s| - p
  {
    hide Unify, DelimiterLength, LineLength, AtLineStart, Search, Lands;
    UnifyFirst(s[p..]);
    UnifyKeepsDelimiter(s[p..]);
    if p == |s| {
      NothingAtEnd(s, LfOrCrlf);
      NothingAtEnd(t, LfOnly);
    } else if DelimiterLength(s[p..], LfOrCrlf) > 0 {
      FoundHere(s, p, LfOrCrlf);
      FoundHere(t, o, LfOnly);
      LandsHere(s, p, t, o);
    } else {
      var n, m := LineLength(s[p..]), LineLength(t[o..]);
      if AtLineStart(s, p + n) {
        NextLine(s, p, t, o);
        SearchNextLine(s, p, LfOrCrlf);
        SearchNextLine(t, o, LfOnly);
        UnifySearch(s, p + n, t, o + m);
        if Search(s, p, LfOrCrlf).Some? {
          LandsLater(s, p, t, o, Search(s, p, LfOrCrlf).value, n, m);
        }
      } else {
        NothingInTail(s, p, t, o);
      }
    }
  }

  lemma LandsHere(s: string, p: nat, t: string, o: nat)
    requires p <= |s| && o <= |t| && t[o..] == Unify(s[p..]) && Search(t, o, LfOnly) == Some(o)
    ensures Lands(s, p, t, o, p)
  {
    hide Search;
    assert s[p..p] == "" && t[o..o] == "";
  }

  lemma LandsLater(s: string, p: nat, t: string, o: nat, q: nat, n: nat, m: nat)
    requires p < |s| && n == LineLength(s[p..]) && AtLineStart(s, p + n) && p + n <= q <= |s|
    requires o + m <= |t| && m == |Unify(s[p..][..n])| && t[o..o + m] == Unify(s[p..][..n])
    requires Lands(s, p + n, t, o + m, q) && Search(t, o, LfOnly) == Search(t, o + m, LfOnly)
    ensures Lands(s, p, t, o, q)
  {
    hide Search, Unify, LineLength, AtLineStart, Lands;
    UnifyPart(s, p, q);
    LandsBehind(s, p, t, o, q, n, m);
  }

  lemma LandsBehind(s: string, p: nat, t: string, o: nat, q: nat, n: nat, m: nat)
    requires p + n <= q <= |s| && o + m <= |t| && m == |Unify(s[p..][..n])|
    requires Lands(s, p + n, t, o + m, q) && Search(t, o, LfOnly) == Search(t, o + m, LfOnly)
    requires Unify(s[p..q]) == Unify(s[p..][..n]) + Unify(s[p + n..q]) && t[o..o + m] == Unify(s[p..][..n])
    ensures Lands(s, p, t, o, q)
  {
    hide Search, Unify, Lands;
    LandsMeans(s, p + n, t, o + m, q);
    var b := Unify(s[p + n..q]);
    var o' := o + m + |b|;
    TwoParts(t, o, o + m, o');
    LandsAt(s, p, t, o, q, o');
  }

  lemma LandsAt(s: string, p: nat, t: string, o: nat, q: nat, o': nat)
    requires p <= q <= |s| && o <= o' <= |t| && o' == o + |Unify(s[p..q])|
    requires Search(t, o, LfOnly) == Some(o') && t[o'..] == Unify(s[q..]) && t[o..o'] == Unify(s[p..q])
    ensures Lands(s, p, t, o, q)
  {
    hide Unify, Search;
  }

  lemma UnifyPart(s: string, p: nat, q: nat)
    requires p < |s| && AtLineStart(s, p + LineLength(s[p..])) && p + LineLength(s[p..]) <= q <= |s|
    ensures Unify(s[p..q]) == Unify(s[p..][..LineLength(s[p..])]) + Unify(s[p + LineLength(s[p..])..q])
  {
    hide Unify, LineLength;
    var n := LineLength(s[p..]);
    assert s[p..q] == s[p..][..n] + s[p + n..q];
    LineEndsInLf(s, p);
    UnifyConcat(s[p..][..n], s[p + n..q]);
  }

  lemma TwoParts(t: string, a: nat, b: nat, c: nat)
    requires a <= b <= c <= |t|
    ensures t[a..c] == t[a..b] + t[b..c]
  {
  }

  lemma LineEndsInLf(s: string, p: nat)
    requires p < |s| && AtLineStart(s, p + LineLength(s[p..]))
    ensures var l := s[p..][..LineLength(s[p..])]; l != "" && l[|l| - 1] == '\n'
  {
    var n := LineLength(s[p..]);
    assert s[p..][n - 1] == s[p + n - 1];
  }

  /** Where the places of a raw block stand in the unified text. */
  function Placed(raw: string, found: Block): Block
    requires found.yaml <= found.close <= found.body <= |raw|
  {
    var yaml := |Unify(raw[..found.yaml])|;
    var close := yaml + |Unify(raw[found.yaml..found.close])|;
    Block(yaml, close, close + |Unify(raw[found.close..found.body])|)
  }

  /** Searching the unified text for delimiters that end in LF finds the block of the raw text. */
  lemma UnifyKeepsBlock(raw: string)
    ensures SplitFrontmatter(raw).None? ==> FindBlock(Unify(raw), LfOnly).None?
    ensures SplitFrontmatter(raw).Some? ==>
      FindBlock(Unify(raw), LfOnly) == Some(Placed(raw, SplitFrontmatter(raw).value))
  {
    hide Unify, DelimiterLength, Search, Lands;
    UnifyKeepsDelimiter(raw);
    if DelimiterLength(raw, LfOrCrlf) > 0 {
      UnifyKeepsClose(raw);
    }
  }

  lemma UnifyKeepsClose(raw: string)
    requires DelimiterLength(raw, LfOrCrlf) > 0
    ensures SplitFrontmatter(raw).None? ==> FindBlock(Unify(raw), LfOnly).None?
    ensures SplitFrontmatter(raw).Some? ==>
      FindBlock(Unify(raw), LfOnly) == Some(Placed(raw, SplitFrontmatter(raw).value))
  {
    hide Unify, DelimiterLength, Search, Lands, AtLineStart;
    var t, n := Unify(raw), DelimiterLength(raw, LfOrCrlf);
    UnifyKeepsDelimiter(raw);
    UnifyKeepsOpener(raw);
    var m := |Unify(raw[..n])|;
    UnifySearch(raw, n, t, m);
    if Search(raw, n, LfOrCrlf).Some? {
      BlockLands(raw, n, t, m, Search(raw, n, LfOrCrlf).value);
    }
  }

  /** The block of `t`, once both searches have found their closing line. */
  lemma BlockLands(raw: string, n: nat, t: string, m: nat, close: nat)
    requires t == Unify(raw) && 0 < n == DelimiterLength(raw, LfOrCrlf) && Search(raw, n, LfOrCrlf) == Some(close)
    requires 0 < m == DelimiterLength(t, LfOnly) && m == |Unify(raw[..n])| && Lands(raw, n, t, m, close)
    ensures FindBlock(t, LfOnly) == Some(Placed(raw, SplitFrontmatter(raw).value))
  {
    hide Unify, DelimiterLength, Search, Lands, AtLineStart, LineLength;
    var o := m + |Unify(raw[n..close])|;
    LandsMeans(raw, n, t, m, close);
    DelimiterKept(raw, close, t, o);
    assert SplitFrontmatter(raw) == Some(Block(n, close, close + DelimiterLength(raw[close..], LfOrCrlf)));
  }

  lemma UnifyKeepsOpener(raw: string)
    requires DelimiterLength(raw, LfOrCrlf) > 0
    ensures var t, n := Unify(raw), DelimiterLength(raw, LfOrCrlf);
      var m := |Unify(raw[..n])|;
      && DelimiterLength(t, LfOnly) == m <= |t| && t[m..] == Unify(raw[n..]) && AtLineStart(raw, n) && AtLineStart(t, m)
  {
    hide Unify, DelimiterLength, AtLineStart;
    var t, n := Unify(raw), DelimiterLength(raw, LfOrCrlf);
    assert raw[0..] == raw && t[0..] == t && raw[0..0 + n] == raw[..n];
    DelimiterKept(raw, 0, t, 0);
  }

  lemma LandsMeans(s: string, p: nat, t: string, o: nat, q: nat)
    requires p <= q <= |s| && o <= |t| && Lands(s, p, t, o, q)
    ensures var o' := o + |Unify(s[p..q])|;
      && o' <= |t| && Search(t, o, LfOnly) == Some(o') && t[o'..] == Unify(s[q..]) && t[o..o'] == Unify(s[p..q])
  {
    hide Unify, Search;
  }

  /** A delimiter line unifies to a delimiter line; both texts go on behind it. */
  lemma DelimiterKept(s: string, p: nat, t: string, o: nat)
    requires p <= |s| && o <= |t| && t[o..] == Unify(s[p..]) && DelimiterLength(s[p..], LfOrCrlf) > 0
    ensures var n := DelimiterLength(s[p..], LfOrCrlf);
      var m := |Unify(s[p..p + n])|;
      && DelimiterLength(t[o..], LfOnly) == m && o + m <= |t| && t[o + m..] == Unify(s[p + n..])
      && AtLineStart(s, p + n) && AtLineStart(t, o + m)
  {
    hide Unify, DelimiterLength;
    var n := LineLength(s[p..]);
    DelimiterIsLine(s[p..], LfOrCrlf);
    assert s[p..][n - 1] == s[p + n - 1];
    NextLine(s, p, t, o);
    UnifyKeepsDelimiter(s[p..]);
    DelimiterIsLine(t[o..], LfOnly);
    assert s[p..p + n] == s[p..][..n];
  }

  // ----- Text mode against the unified text: the same characters, but for bare CRs -----

  lemma DelimiterChars(s: string)
    requires DelimiterLength(s, LfOnly) > 0
    ensures var n := DelimiterLength(s, LfOnly);
      s[n - 1] == '\n' && (forall i :: 0 <= i < n - 1 ==> s[i] != '\n') && forall i :: 0 <= i < n ==> s[i] != '\r'
  {
    var n := DelimiterLength(s, LfOnly);
    var blanks := Span(s[3..], IsBlank);
    assert s[3..][blanks..] == s[3 + blanks..];
    forall i | 0 <= i < n - 1
      ensures s[i] != '\n' && s[i] != '\r'
    {
      if 3 <= i < 3 + blanks {
        SpanAt(s[3..], IsBlank, i - 3);
        assert s[3..][i - 3] == s[i];
      }
    }
  }

  lemma SamePrefix(a: string, b: string, n: nat)
    requires 0 < n == DelimiterLength(a, LfOnly) && n <= |b| && a[..n] == b[..n]
    ensures DelimiterLength(b, LfOnly) == n
  {
    hide DelimiterLength;
    DelimiterShortens(a[..n], a, LfOnly);
    DelimiterExtends(a[..n], b, LfOnly);
  }

  /** A delimiter stays one in text mode; text mode makes one exactly of a line whose LF it has made. */
  lemma BaresDelimiter(k: string, f: string, p: nat)
    requires Bares(k, f) && p <= |k|
    ensures DelimiterLength(k[p..], LfOnly) > 0 ==> DelimiterLength(f[p..], LfOnly) == DelimiterLength(k[p..], LfOnly)
    ensures DelimiterLength(f[p..], LfOnly) > 0 ==>
      (DelimiterLength(k[p..], LfOnly) > 0 <==> k[p + DelimiterLength(f[p..], LfOnly) - 1] == '\n')
  {
    hide DelimiterLength;
    var n, m := DelimiterLength(k[p..], LfOnly), DelimiterLength(f[p..], LfOnly);
    if n > 0 {
      DelimiterChars(k[p..]);
      forall i | 0 <= i < n
        ensures k[p..][i] == f[p..][i]
      {
        assert k[p..][i] == k[p + i];
      }
      SamePrefix(k[p..], f[p..], n);
      assert k[p + n - 1] == k[p..][n - 1];
    } else if m > 0 {
      DelimiterChars(f[p..]);
      if k[p + m - 1] == '\n' {
        forall i | 0 <= i < m
          ensures k[p..][i] == f[p..][i]
        {
          assert f[p..][i] == f[p + i] && k[p..][i] == k[p + i];
        }
        SamePrefix(f[p..], k[p..], m);
      }
    }
  }

  /** In the unified text there is nothing to find in front of what text mode finds. */
  lemma {:induction false} BaresSearch(k: string, f: string, p: nat)
    requires Bares(k, f) && p <= |k|
    ensures Search(f, p, LfOnly).None? ==> Search(k, p, LfOnly).None?
    ensures Search(f, p, LfOnly).Some? ==> Search(k, p, LfOnly) == Search(k, Search(f, p, LfOnly).value, LfOnly)
    decreases |k| - p
  {
    hide DelimiterLength;
    if AtLineStart(f, p) && DelimiterLength(f[p..], LfOnly) > 0 {
    } else {
      BaresDelimiter(k, f, p);
      if p < |k| {
        BaresSearch(k, f, p + 1);
      }
    }
  }

  /** A line of the block ends at a bare CR of the raw text: the opening one, the one in front of the close, or the close. */
  predicate BareEnd(k: string, b: Block)
    requires 0 < b.yaml <= b.close < b.body <= |k|
  {
    k[b.yaml - 1] == '\r' || k[b.close - 1] == '\r' || k[b.body - 1] == '\r'
  }

  /** The block of the folded text is that of the unified one, unless one of its lines ends at a bare CR. */
  lemma BaresBlock(k: string, f: string)
    requires Bares(k, f)
    ensures var bf, bk := FindBlock(f, LfOnly), FindBlock(k, LfOnly);
      && (bf.None? ==> bk.None?)
      && (bf.Some? && !BareEnd(k, bf.value) ==> bk == bf)
      && (bf.Some? && BareEnd(k, bf.value) && bk.Some? ==> bk.value.body > bf.value.body)
  {
    hide DelimiterLength, Search, Bares;
    var bf, bk := FindBlock(f, LfOnly), FindBlock(k, LfOnly);
    assert k[0..] == k && f[0..] == f;
    BaresLength(k, f);
    BaresDelimiter(k, f, 0);
    var y := DelimiterLength(f, LfOnly);
    if y > 0 {
      BaresSearch(k, f, y);
      if bf.Some? {
        BlockEnds(k, f, bf.value);
        if !BareEnd(k, bf.value) {
          BaresDelimiter(k, f, bf.value.close);
          FoundHere(k, bf.value.close, LfOnly);
        } else if bk.Some? {
          LaterClose(k, f, bf.value, bk.value);
        }
      }
    }
  }

  lemma BaresLength(k: string, f: string)
    requires Bares(k, f)
    ensures |k| == |f|
  {
  }

  /** In text mode the three lines end in LF, so in the unified text they end in LF or a bare CR. */
  lemma BlockEnds(k: string, f: string, b: Block)
    requires Bares(k, f) && FindBlock(f, LfOnly) == Some(b)
    ensures k[b.yaml - 1] == '\r' || k[b.yaml - 1] == '\n'
    ensures k[b.close - 1] == '\r' || (k[b.close - 1] == '\n' && AtLineStart(k, b.close))
    ensures k[b.body - 1] == '\r' || k[b.body - 1] == '\n'
  {
    hide DelimiterLength, Search;
    DelimiterIsLine(f, LfOnly);
    DelimiterIsLine(f[b.close..], LfOnly);
    assert f[b.close..][b.body - b.close - 1] == f[b.body - 1];
  }

  lemma LaterClose(k: string, f: string, bf: Block, bk: Block)
    requires Bares(k, f) && FindBlock(f, LfOnly) == Some(bf) && FindBlock(k, LfOnly) == Some(bk) && BareEnd(k, bf)
    ensures bk.body > bf.body
  {
    hide DelimiterLength, Search;
    assert k[0..] == k && f[0..] == f;
    BaresDelimiter(k, f, 0);
    BaresSearch(k, f, bf.yaml);
    BaresDelimiter(k, f, bk.close);
    DelimiterChars(k);
    DelimiterChars(k[bk.close..]);
    assert k[bk.close..][bk.body - bk.close - 1] == k[bk.body - 1];
    assert bk.close != bf.close;
    DelimiterChars(f[bf.close..]);
    forall i | bf.close <= i < bf.body - 1
      ensures f[i] != '\n'
    {
      assert f[i] == f[bf.close..][i - bf.close];
    }
  }

  // ----- No CR is left in text mode -----

  lemma NoCrEnding(t: string)
    requires forall i :: 0 <= i < |t| ==> t[i] != '\r'
    ensures DelimiterLength(t, LfOrCrlf) == DelimiterLength(t, LfOnly)
  {
    if Dashes(t) {
      var blanks := Span(t[3..], IsBlank);
      assert t[3..][blanks..] == t[3 + blanks..];
    }
  }

  lemma {:induction false} NoCrSearch(t: string, p: nat)
    requires p <= |t| && forall i :: 0 <= i < |t| ==> t[i] != '\r'
    ensures Search(t, p, LfOrCrlf) == Search(t, p, LfOnly)
    decreases |t| - p
  {
    hide DelimiterLength;
    NoCrEnding(t[p..]);
    if p < |t| {
      NoCrSearch(t, p + 1);
    }
  }

  lemma FoldedBlock(raw: string)
    ensures SplitFrontmatter(Fold(raw)) == FindBlock(Fold(raw), LfOnly)
  {
    hide Fold, Unify, DelimiterLength, Search;
    var t := Fold(raw);
    FoldIsBares(raw);
    assert forall i :: 0 <= i < |t| ==> t[i] != '\r';
    NoCrEnding(t);
    if DelimiterLength(t, LfOnly) > 0 {
      NoCrSearch(t, DelimiterLength(t, LfOnly));
      var close := Search(t, DelimiterLength(t, LfOnly), LfOnly);
      if close.Some? {
        NoCrEnding(t[close.value..]);
      }
    }
  }

  // ----- The agreement -----

  /** The frontmatter the full read finds, in text mode, if it keeps to the bounds of the streaming read. */
  function FullBlock(raw: string): Option<string> {
    var found := SplitFrontmatter(raw);
    if found.None? then None
    else
      var block := Fold(raw[..found.value.body]);
      if |block| <= 65_536 && Newlines(block) <= 1_001 then Some(block) else None
  }

  /** The streaming read returns a block, and one of its three line ends is a bare CR. */
  predicate EndsAtBareCr(raw: string) {
    BlockWithin(Fold(raw)).Some? && BareEnd(Unify(raw), SplitFrontmatter(Fold(raw)).value)
  }

  lemma BlockEndsLines(raw: string, found: Block)
    requires SplitFrontmatter(raw) == Some(found)
    ensures raw[found.yaml - 1] == '\n' && raw[found.close - 1] == '\n' && raw[found.body - 1] == '\n'
  {
    hide DelimiterLength, Search;
    DelimiterIsLine(raw, LfOrCrlf);
    DelimiterIsLine(raw[found.close..], LfOrCrlf);
    assert raw[found.close..][found.body - found.close - 1] == raw[found.body - 1];
  }

  /** The raw block and its YAML text, folded, stand in the folded text at the places that belong to theirs. */
  lemma PlacedSlices(raw: string, found: Block)
    requires SplitFrontmatter(raw) == Some(found)
    ensures var b := Placed(raw, found);
      && b.yaml <= b.close <= b.body <= |Fold(raw)|
      && Fold(raw[..found.body]) == Fold(raw)[..b.body]
      && Fold(raw[found.yaml..found.close]) == Fold(raw)[b.yaml..b.close]
  {
    hide Fold, Unify, SplitFrontmatter;
    BlockEndsLines(raw, found);
    var opener, yaml, close, rest := raw[..found.yaml], raw[found.yaml..found.close], raw[found.close..found.body], raw[found.body..];
    assert raw[..found.close] == opener + yaml;
    assert raw[..found.body] == raw[..found.close] + close;
    assert raw == raw[..found.body] + rest;
    UnifyConcat(opener, yaml);
    UnifyConcat(raw[..found.close], close);
    UnifyConcat(raw[..found.body], rest);
    FourParts(Fold(opener), Fold(yaml), Fold(close), Fold(rest));
  }

  lemma FourParts(a: string, b: string, c: string, d: string)
    ensures ((a + b + c) + d)[..|a| + |b| + |c|] == a + b + c
    ensures ((a + b + c) + d)[|a|..|a| + |b|] == b
  {
  }

  lemma MoreNewlines(t: string, m: nat, n: nat)
    requires m <= n <= |t|
    ensures Newlines(t[..m]) <= Newlines(t[..n])
  {
    assert t[..n] == t[..m] + t[m..n];
    NewlinesConcat(t[..m], t[m..n]);
  }

  /**
   * For every note: the bounded streaming read and the full read find the same frontmatter, or the same none,
   * exactly unless the streaming read returns a block one of whose line ends it has made from a bare CR.
   */
  lemma ReadersAgree(raw: string)
    ensures BlockWithin(Fold(raw)) == FullBlock(raw) <==> !EndsAtBareCr(raw)
  {
    hide Fold, Unify, SplitFrontmatter, FindBlock, Bares, Newlines, BareEnd;
    var k, f := Unify(raw), Fold(raw);
    FoldIsBares(raw);
    FoldedBlock(raw);
    UnifyKeepsBlock(raw);
    BaresBlock(k, f);
    var found, bf := SplitFrontmatter(raw), SplitFrontmatter(f);
    if found.Some? {
      PlacedSlices(raw, found.value);
      var b := Placed(raw, found.value);
      MoreNewlines(f, bf.value.body, b.body);
    }
  }

  /** Cut off behind its frontmatter, a text splits as before. */
  lemma {:induction false} SearchInPrefix(s: string, end: nat, p: nat)
    requires p <= |s| && Search(s, p, LfOrCrlf).Some?
    requires var q := Search(s, p, LfOrCrlf).value; q + DelimiterLength(s[q..], LfOrCrlf) <= end <= |s|
    ensures Search(s[..end], p, LfOrCrlf) == Search(s, p, LfOrCrlf)
    decreases |s| - p
  {
    hide DelimiterLength;
    var t := s[..end];
    assert t[p..] <= s[p..];
    if AtLineStart(s, p) && DelimiterLength(s[p..], LfOrCrlf) > 0 {
      DelimiterInPrefix(t[p..], s[p..]);
    } else {
      SearchInPrefix(s, end, p + 1);
      if DelimiterLength(t[p..], LfOrCrlf) > 0 {
        DelimiterExtends(t[p..], s[p..], LfOrCrlf);
      }
    }
  }

  lemma DelimiterInPrefix(l: string, s: string)
    requires l <= s && 0 < DelimiterLength(s, LfOrCrlf) <= |l|
    ensures DelimiterLength(l, LfOrCrlf) == DelimiterLength(s, LfOrCrlf)
  {
    hide DelimiterLength;
    var n := DelimiterLength(s, LfOrCrlf);
    assert s[..n] == l[..n];
    DelimiterShortens(l[..n], s, LfOrCrlf);
    DelimiterExtends(l[..n], l, LfOrCrlf);
  }

  lemma PrefixSplits(s: string, found: Block)
    requires SplitFrontmatter(s) == Some(found)
    ensures SplitFrontmatter(s[..found.body]) == Some(found)
  {
    hide DelimiterLength, Search;
    var cut := s[..found.body];
    DelimiterInPrefix(cut, s);
    SearchInPrefix(s, found.body, found.yaml);
    assert cut[found.close..] == s[found.close..][..found.body - found.close];
    DelimiterInPrefix(cut[found.close..], s[found.close..]);
  }

  /**
   * Whenever they agree on a block, splitting it hands the parser the YAML text of the full read with its line ends
   * folded, and leaves nothing behind.
   */
  lemma SameYaml(raw: string)
    requires BlockWithin(Fold(raw)).Some? && !EndsAtBareCr(raw)
    ensures SplitFrontmatter(raw).Some?
    ensures var found := SplitFrontmatter(raw).value;
      var block := BlockWithin(Fold(raw)).value;
      var again := SplitFrontmatter(block);
      && again.Some? && again.value.body == |block|
      && block[again.value.yaml..again.value.close] == Fold(raw[found.yaml..found.close])
  {
    hide Fold, Unify, SplitFrontmatter, FindBlock, Bares, Newlines, BareEnd;
    ReadersAgree(raw);
    var f := Fold(raw);
    FoldIsBares(raw);
    FoldedBlock(raw);
    UnifyKeepsBlock(raw);
    BaresBlock(Unify(raw), f);
    var found := SplitFrontmatter(raw).value;
    PlacedSlices(raw, found);
    PrefixSplits(f, Placed(raw, found));
    var b := Placed(raw, found);
    assert f[..b.body][b.yaml..b.close] == f[b.yaml..b.close];
  }

  /** The smallest kind of text they divide on: one reader finds a block and the other none. */
  lemma LoneCrDivides()
    ensures SplitFrontmatter("---\r---\r").None?
    ensures BlockWithin(Fold("---\r---\r")) == Some("---\n---\n")
  {
    hide DelimiterLength, Fold, Search, Newlines;
    FoldedExample();
    FoundInExample();
    var text := "---\n---\n";
    assert text[..8] == text;
    assert Newlines(text) <= 8 by { FewNewlines(text); }
  }

  lemma {:induction false} FewNewlines(s: string)
    ensures Newlines(s) <= |s|
  {
    if s != "" {
      FewNewlines(s[1..]);
    }
  }

  lemma FoundInExample()
    ensures SplitFrontmatter("---\n---\n") == Some(Block(4, 4, 8))
  {
    var line, text := "---\n", "---\n---\n";
    assert line[3..] == "\n" && text[3..][0] == '\n' && text[4..] == line;
    SpanIs(line[3..], IsBlank, 0);
    SpanIs(text[3..], IsBlank, 0);
    assert DelimiterLength(line, LfOrCrlf) == 4 && DelimiterLength(text, LfOrCrlf) == 4;
    FoundHere(text, 4, LfOrCrlf);
  }

  lemma FoldedExample()
    ensures Fold("---\r---\r") == "---\n---\n"
    ensures DelimiterLength("---\r---\r", LfOrCrlf) == 0
  {
    var s := "---\r---\r";
    assert s[3..][0] == '\r' && s[3..][1] == '-';
    SpanIs(s[3..], IsBlank, 0);
    assert Fold(s[7..]) == "\n" + Fold("") && s[7..] == "\r" && s[8..] == "";
    assert Fold(s[6..]) == "-\n" && s[6..][1..] == s[7..];
    assert Fold(s[5..]) == "--\n" && s[5..][1..] == s[6..];
    assert Fold(s[4..]) == "---\n" && s[4..][1..] == s[5..];
    assert Fold(s[3..]) == "\n---\n" && s[3..][1..] == s[4..];
    assert Fold(s[2..]) == "-\n---\n" && s[2..][1..] == s[3..];
    assert Fold(s[1..]) == "--\n---\n" && s[1..][1..] == s[2..];
  }
}
