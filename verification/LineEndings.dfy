/** An append keeps the note's own line endings, and the one case in which it cannot. */
module LineEndings {
  import opened Bytes
  import opened InboxModel

  predicate NoCr(s: Bytes) {
    s == [] || (s[0] != CR && NoCr(s[1..]))
  }

  /** CR and LF come in pairs only. */
  predicate Paired(s: Bytes)
    decreases |s|
  {
    || s == []
    || (|s| >= 2 && s[0] == CR && s[1] == LF && Paired(s[2..]))
    || (s[0] != CR && s[0] != LF && Paired(s[1..]))
  }

  lemma {:induction false} UnifiedHasNoCr(s: Bytes)
    ensures NoCr(UnifyLineEndings(s))
    decreases |s|
  {
    if s != [] {
      UnifiedHasNoCr(if |s| >= 2 && s[0] == CR && s[1] == LF then s[2..] else s[1..]);
    }
  }

  lemma {:induction false} NoCrConcat(a: Bytes, b: Bytes)
    ensures NoCr(a + b) <==> NoCr(a) && NoCr(b)
  {
    if a == [] {
      assert a + b == b;
    } else {
      assert (a + b)[1..] == a[1..] + b;
      NoCrConcat(a[1..], b);
    }
  }

  lemma {:induction false} NoCrNoCrlf(s: Bytes)
    requires NoCr(s)
    ensures !HasCrlf(s)
  {
    if s != [] {
      NoCrNoCrlf(s[1..]);
    }
  }

  /** A pair is in one of the parts, or where they meet. */
  lemma {:induction false} CrlfConcat(a: Bytes, b: Bytes)
    ensures HasCrlf(a + b) <==>
      HasCrlf(a) || HasCrlf(b) || (a != [] && b != [] && a[|a| - 1] == CR && b[0] == LF)
  {
    if a == [] {
      assert a + b == b;
    } else {
      assert (a + b)[1..] == a[1..] + b;
      CrlfConcat(a[1..], b);
    }
  }

  lemma {:induction false} ToCrlfPairs(s: Bytes)
    requires NoCr(s)
    ensures Paired(ToCrlf(s))
    ensures EndsIn(s, [LF]) ==> EndsIn(ToCrlf(s), [CR, LF])
  {
    if s != [] {
      ToCrlfPairs(s[1..]);
      if s[0] == LF {
        assert ToCrlf(s)[2..] == ToCrlf(s[1..]);
      }
      if |s| == 1 {
        assert ToCrlf(s[1..]) == [];
      } else if EndsIn(s, [LF]) {
        assert s[1..][|s[1..]| - 1] == s[|s| - 1] == LF;
        EndsInConcat(if s[0] == LF then [CR, LF] else [s[0]], ToCrlf(s[1..]), [CR, LF]);
      }
    }
  }

  lemma EndsInConcat(a: Bytes, b: Bytes, suffix: Bytes)
    requires EndsIn(b, suffix)
    ensures EndsIn(a + b, suffix)
  {
    assert (a + b)[|a + b| - |suffix|..] == b[|b| - |suffix|..];
  }

  /** The text of an append: unified, with a final line feed. */
  lemma AppendedBody(content: Bytes) returns (body: Bytes)
    ensures body == if EndsIn(UnifyLineEndings(content), [LF]) then UnifyLineEndings(content) else UnifyLineEndings(content) + [LF]
    ensures NoCr(body) && EndsIn(body, [LF])
  {
    var unified := UnifyLineEndings(content);
    UnifiedHasNoCr(content);
    NoCrConcat(unified, [LF]);
    body := if EndsIn(unified, [LF]) then unified else unified + [LF];
  }

  /** In a CRLF note everything appended is paired; in any other note nothing appended holds a CR. Both end in their line ending. */
  lemma AppendedStyle(content: Bytes, existing: Bytes)
    ensures HasCrlf(existing) ==> Paired(AppendBytes(content, existing)) && EndsIn(AppendBytes(content, existing), [CR, LF])
    ensures !HasCrlf(existing) ==> NoCr(AppendBytes(content, existing)) && EndsIn(AppendBytes(content, existing), [LF])
  {
    hide HasCrlf, UnifyLineEndings;
    var body := AppendedBody(content);
    if HasCrlf(existing) {
      ToCrlfPairs(body);
      hide Paired, EndsIn, ToCrlf;
      PairInFront(ToCrlf(body));
      EndsInConcat([CR, LF], ToCrlf(body), [CR, LF]);
    } else {
      NoCrConcat([LF], body);
      EndsInConcat([LF], body, [LF]);
    }
  }

  lemma PairInFront(s: Bytes)
    requires Paired(s)
    ensures Paired([CR, LF] + s)
  {
    assert ([CR, LF] + s)[2..] == s;
  }

  /**
   * The note's style survives every append with one exception, stated exactly: a note without CR LF gets its first
   * one if and only if it ends in a bare CR, which the separating LF then completes.
   */
  lemma StyleIsKept(content: Bytes, existing: Bytes)
    ensures HasCrlf(Extended(existing, content)) <==> HasCrlf(existing) || (existing != [] && existing[|existing| - 1] == CR)
    ensures EndsIn(Extended(existing, content), if HasCrlf(existing) then [CR, LF] else [LF])
  {
    hide HasCrlf;
    var appended := AppendBytes(content, existing);
    AppendedStyle(content, existing);
    CrlfConcat(existing, appended);
    EndsInConcat(existing, appended, if HasCrlf(existing) then [CR, LF] else [LF]);
    if !HasCrlf(existing) {
      NoCrNoCrlf(appended);
      if existing != [] && existing[|existing| - 1] == CR {
        SeparatorFirst(content, existing);
      }
    }
  }

  lemma SeparatorFirst(content: Bytes, existing: Bytes)
    requires !HasCrlf(existing) && existing != [] && existing[|existing| - 1] == CR
    ensures AppendBytes(content, existing) != [] && AppendBytes(content, existing)[0] == LF
  {
    hide HasCrlf, UnifyLineEndings, ToCrlf;
  }

  /** The exception at its smallest. */
  lemma BareCrTurnsIntoCrlf()
    ensures !HasCrlf([CR]) && HasCrlf(Extended([CR], [LF]))
  {
    StyleIsKept([LF], [CR]);
  }
}
