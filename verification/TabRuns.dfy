/**
 * `one_line` promises to collapse every run of spaces and tabs into one space, but the control characters,
 * tab among them, are gone before that step. This is exactly when it makes a difference.
 */
module TabRuns {
  import opened Text
  import opened Escape

  predicate IsTab(c: char) {
    c == '\t'
  }

  /** The text in front of the last two steps, if tabs were left to the step that collapses them. */
  function WithTabs(s: string): string {
    Remove(Collapse(s, IsLineBreak, ' '), IsCodeControl)
  }

  /** `one_line` as it is described. */
  function Described(s: string): string {
    Strip(Collapse(WithTabs(s), IsBlank, ' '))
  }

  /** Every maximal run of blanks holds a space. */
  predicate NoTabRun(s: string)
    decreases |s|
  {
    if s == "" then true
    else if IsBlank(s[0]) then
      var n := 1 + Span(s[1..], IsBlank);
      ' ' in s[..n] && NoTabRun(s[n..])
    else NoTabRun(s[1..])
  }

  /** The code does what is described if and only if no run of blanks inside the text is made of tabs alone. */
  lemma TabRunsVanish(s: string)
    ensures OneLine(s) == Described(s) <==> NoTabRun(Strip(WithTabs(s)))
  {
    hide Collapse, Remove, Strip, NoTabRun;
    TabsGoSeparately(s);
    var t := WithTabs(s);
    CollapseThenStrip(t);
    RemoveThenStrip(t);
    CollapseThenStrip(Remove(t, IsTab));
    RunByRun(Strip(t));
  }

  /** The smallest such text: two words grow together. */
  lemma TabJoinsWords()
    ensures OneLine("a\tb") == "ab" && Described("a\tb") == "a b"
  {
    hide Collapse, Remove, Strip, IsLineBreak, IsControl, IsSpace;
    NoBreaksInside();
    TabGone();
    TabCollapses();
    StripTrims("ab");
    StripTrims("a b");
    WordsAreTrimmed();
  }

  lemma WordsAreTrimmed()
    ensures Trimmed("ab") && Trimmed("a b")
  {
  }

  lemma NoBreaksInside()
    ensures Collapse("a\tb", IsLineBreak, ' ') == "a\tb" && Remove("a\tb", IsCodeControl) == "a\tb"
  {
    CollapseIdle("a\tb", IsLineBreak, ' ');
    RemoveChars("a\tb", IsCodeControl);
  }

  lemma TabGone()
    ensures Remove("a\tb", IsControl) == "ab" && Collapse("ab", IsBlank, ' ') == "ab"
  {
    var s := "a\tb";
    assert s[1..] == "\tb" && s[1..][1..] == "b";
    RemoveChars("b", IsControl);
    assert Remove("\tb", IsControl) == "b";
    CollapseIdle("ab", IsBlank, ' ');
  }

  lemma TabCollapses()
    ensures Collapse("a\tb", IsBlank, ' ') == "a b"
  {
    var s := "a\tb";
    assert s[1..] == "\tb" && s[1..][1..] == "b";
    SpanIs("b", IsBlank, 0);
    CollapseIdle("b", IsBlank, ' ');
    assert Collapse("\tb", IsBlank, ' ') == " b";
  }

  // ----- Removing the tabs last -----

  /** Without line feeds, the control characters are the tabs and the others. */
  lemma {:induction false} RemoveTwice(s: string)
    requires '\n' !in s
    ensures Remove(s, IsControl) == Remove(Remove(s, IsCodeControl), IsTab)
  {
    if s != "" {
      assert s[0] in s;
      RemoveTwice(s[1..]);
      var rest := Remove(s[1..], IsCodeControl);
      assert ([s[0]] + rest)[1..] == rest;
    }
  }

  lemma TabsGoSeparately(s: string)
    ensures OneLine(s) == Strip(Collapse(Remove(WithTabs(s), IsTab), IsBlank, ' '))
  {
    hide Collapse, Remove, Strip;
    CollapseChars(s, IsLineBreak, ' ');
    RemoveTwice(Collapse(s, IsLineBreak, ' '));
  }

  // ----- Both steps on a text in three parts -----

  /** How much of a text its first step of collapsing takes. */
  function FirstPiece(s: string, p: char -> bool): (n: nat)
    requires s != ""
    ensures 0 < n <= |s|
  {
    if p(s[0]) then 1 + Span(s[1..], p) else 1
  }

  lemma CollapseNothing(p: char -> bool, c: char)
    ensures Collapse("", p, c) == ""
  {
  }

  lemma CollapsePiece(s: string, p: char -> bool, c: char)
    requires s != ""
    ensures Collapse(s, p, c) == [if p(s[0]) then c else s[0]] + Collapse(s[FirstPiece(s, p)..], p, c)
  {
  }

  lemma SamePiece(a: string, b: string, p: char -> bool)
    requires a != "" && (b == "" || !p(b[0]) || !p(a[|a| - 1]))
    ensures FirstPiece(a + b, p) == FirstPiece(a, p)
  {
    assert (a + b)[1..] == a[1..] + b;
    if p(a[0]) {
      RunStaysInside(a[1..], b, p);
    }
  }

  /** No run goes across the border. */
  lemma {:induction false} CollapseConcat(a: string, b: string, p: char -> bool, c: char)
    requires b == "" || !p(b[0]) || (a != "" && !p(a[|a| - 1]))
    ensures Collapse(a + b, p, c) == Collapse(a, p, c) + Collapse(b, p, c)
    decreases |a|
  {
    hide FirstPiece, Collapse;
    if a == "" {
      assert a + b == b;
      CollapseNothing(p, c);
    } else {
      var n := FirstPiece(a, p);
      SamePiece(a, b, p);
      CollapsePiece(a, p, c);
      CollapsePiece(a + b, p, c);
      assert (a + b)[n..] == a[n..] + b;
      if n == |a| {
        assert a[n..] == "" && a[n..] + b == b;
        CollapseNothing(p, c);
      } else {
        CollapseConcat(a[n..], b, p, c);
        Regroup([if p(a[0]) then c else a[0]], Collapse(a[n..], p, c), Collapse(b, p, c));
      }
    }
  }

  lemma {:induction false} RunStaysInside(a: string, b: string, p: char -> bool)
    requires b == "" || !p(b[0]) || (a != "" && !p(a[|a| - 1]))
    ensures Span(a + b, p) == Span(a, p)
  {
    var n := Span(a, p);
    forall i | 0 <= i < n
      ensures p((a + b)[i])
    {
      SpanAt(a, p, i);
    }
    if n == |a| && a != "" {
      SpanAt(a, p, n - 1);
    }
    SpanIs(a + b, p, n);
  }

  /** Nothing but whitespace. */
  predicate Spaces(s: string) {
    forall c :: c in s ==> IsSpace(c)
  }

  lemma {:induction false} LeadingSpaces(a: string, b: string)
    requires Spaces(a) && (b != "" ==> !IsSpace(b[0]))
    ensures Span(a + b, IsSpace) == |a|
  {
    assert forall i :: 0 <= i < |a| ==> a[i] in a && (a + b)[i] == a[i];
    SpanIs(a + b, IsSpace, |a|);
  }

  lemma {:induction false} TrailingSpaces(a: string, b: string)
    requires Spaces(b) && (a != "" ==> !IsSpace(a[|a| - 1]))
    ensures StripRight(a + b) == a
  {
    if b == "" {
      assert a + b == a;
    } else {
      var last := |b| - 1;
      assert b[last] in b;
      assert (a + b)[..|a + b| - 1] == a + b[..last];
      TrailingSpaces(a, b[..last]);
    }
  }

  lemma TrimmedEnds(s: string)
    ensures Trimmed(s) <==> s == "" || (!IsSpace(s[0]) && !IsSpace(s[|s| - 1]))
  {
  }

  /** Stripping finds the trimmed middle. */
  lemma StripMiddle(a: string, m: string, b: string)
    requires Spaces(a) && Spaces(b) && Trimmed(m)
    ensures Strip(a + m + b) == m
  {
    hide Trimmed, IsSpace;
    if m == "" {
      assert Spaces(a + m + b);
      LeadingSpaces(a + m + b, "");
      assert a + m + b + "" == a + m + b;
    } else {
      TrimmedEnds(m);
      Regroup(a, m, b);
      LeadingSpaces(a, m + b);
      assert (a + m + b)[|a|..] == m + b;
      TrailingSpaces(m, b);
    }
  }

  /** A text is its stripped middle between whitespace. */
  lemma StripParts(s: string) returns (a: string, b: string)
    ensures Spaces(a) && Spaces(b) && s == a + Strip(s) + b && Trimmed(Strip(s))
  {
    hide IsSpace, StripLeft, StripRight, Span, Spaces, Trimmed;
    var left := StripLeft(s);
    var m := StripRight(left);
    a := s[..|s| - |left|];
    b := left[|m|..];
    StripTrims(s);
    LeadingPart(s);
    TrailingPart(left);
    assert left == m + b;
    assert s == a + left;
    Regroup(a, m, b);
  }

  lemma LeadingPart(s: string)
    ensures Spaces(s[..|s| - |StripLeft(s)|])
  {
    hide IsSpace;
    forall i | 0 <= i < |s| - |StripLeft(s)|
      ensures IsSpace(s[i])
    {
      SpanAt(s, IsSpace, i);
    }
  }

  lemma TrailingPart(s: string)
    ensures Spaces(s[|StripRight(s)|..])
  {
    hide IsSpace;
    var b := s[|StripRight(s)|..];
    assert forall i :: 0 <= i < |b| ==> b[i] == s[|StripRight(s)| + i];
  }

  lemma RemoveTrimmed(m: string)
    requires Trimmed(m)
    ensures Trimmed(Remove(m, IsTab)) && (m != "" ==> Remove(m, IsTab) != "")
  {
    hide IsSpace;
    if m != "" {
      var last := m[|m| - 1];
      BlankIsSpace('\t');
      assert m == m[..|m| - 1] + [last];
      RemoveConcat(m[..|m| - 1], [last], IsTab);
      assert Remove([last], IsTab) == [last];
    }
  }

  lemma CollapseTrimmed(m: string)
    requires Trimmed(m)
    ensures Trimmed(Collapse(m, IsBlank, ' '))
  {
    hide IsSpace;
    if m != "" {
      var last := m[|m| - 1];
      BlankIsSpace(m[0]);
      BlankIsSpace(last);
      assert m == m[..|m| - 1] + [last];
      CollapseConcat(m[..|m| - 1], [last], IsBlank, ' ');
      assert Collapse([last], IsBlank, ' ') == [last];
    }
  }

  lemma BlankIsSpace(c: char)
    ensures IsBlank(c) ==> IsSpace(c)
  {
  }

  lemma RemoveThenStrip(s: string)
    ensures Strip(Remove(s, IsTab)) == Remove(Strip(s), IsTab)
  {
    hide Remove, Strip, IsSpace, Trimmed;
    var a, b := StripParts(s);
    RemoveConcat(a + Strip(s), b, IsTab);
    RemoveConcat(a, Strip(s), IsTab);
    RemoveChars(a, IsTab);
    RemoveChars(b, IsTab);
    RemoveTrimmed(Strip(s));
    StripMiddle(Remove(a, IsTab), Remove(Strip(s), IsTab), Remove(b, IsTab));
  }

  lemma CollapseThenStrip(s: string)
    ensures Strip(Collapse(s, IsBlank, ' ')) == Collapse(Strip(s), IsBlank, ' ')
  {
    hide Collapse, Strip, IsSpace, Trimmed;
    var a, b := StripParts(s);
    var m := Strip(s);
    CollapsedSpaces(a);
    CollapsedSpaces(b);
    CollapsedSpaces(s);
    if m == "" {
      assert s == a + b;
      assert Spaces(s);
      var c := Collapse(s, IsBlank, ' ');
      TrimmedEnds("");
      assert c + "" + "" == c;
      StripMiddle(c, "", "");
      CollapseNothing(IsBlank, ' ');
    } else {
      TrimmedEnds(m);
      BlankIsSpace(m[0]);
      BlankIsSpace(m[|m| - 1]);
      assert (a + m)[|a + m| - 1] == m[|m| - 1];
      CollapseConcat(a + m, b, IsBlank, ' ');
      CollapseConcat(a, m, IsBlank, ' ');
      CollapseTrimmed(m);
      StripMiddle(Collapse(a, IsBlank, ' '), Collapse(m, IsBlank, ' '), Collapse(b, IsBlank, ' '));
    }
  }

  lemma CollapsedSpaces(s: string)
    ensures Spaces(s) ==> Spaces(Collapse(s, IsBlank, ' '))
  {
    hide Collapse;
    CollapseChars(s, IsBlank, ' ');
  }

  // ----- Run by run -----

  /** Removing tabs never lengthens the collapsed text, and keeps it only where every run holds a space. */
  lemma {:induction false} RunByRun(s: string)
    ensures |Collapse(Remove(s, IsTab), IsBlank, ' ')| <= |Collapse(s, IsBlank, ' ')|
    ensures Collapse(Remove(s, IsTab), IsBlank, ' ') == Collapse(s, IsBlank, ' ') <==> NoTabRun(s)
    decreases |s|
  {
    if s == "" {
    } else if IsBlank(s[0]) {
      hide Remove, Collapse;
      var n := 1 + Span(s[1..], IsBlank);
      RunByRun(s[n..]);
      FirstRun(s);
      SameTail(' ', Collapse(Remove(s[n..], IsTab), IsBlank, ' '), Collapse(s[n..], IsBlank, ' '));
    } else {
      RunByRun(s[1..]);
      var rest := Remove(s[1..], IsTab);
      assert ([s[0]] + rest)[1..] == rest;
      SameTail(s[0], Collapse(rest, IsBlank, ' '), Collapse(s[1..], IsBlank, ' '));
    }
  }

  /** What becomes of the run a text starts with. */
  lemma FirstRun(s: string)
    requires s != "" && IsBlank(s[0])
    ensures var n := 1 + Span(s[1..], IsBlank);
      && Collapse(s, IsBlank, ' ') == " " + Collapse(s[n..], IsBlank, ' ')
      && Collapse(Remove(s, IsTab), IsBlank, ' ')
        == (if ' ' in s[..n] then " " else "") + Collapse(Remove(s[n..], IsTab), IsBlank, ' ')
  {
    var n := 1 + Span(s[1..], IsBlank);
    var run, rest := s[..n], s[n..];
    assert s == run + rest;
    BlankRun(s);
    FirstStays(rest);
    assert Collapse(s, IsBlank, ' ') == " " + Collapse(rest, IsBlank, ' ');
    hide Remove, Collapse;
    RemoveConcat(run, rest, IsTab);
    RemovedRun(run);
    CollapseConcat(Remove(run, IsTab), Remove(rest, IsTab), IsBlank, ' ');
  }

  lemma SameTail(c: char, a: string, b: string)
    ensures [c] + a == [c] + b <==> a == b
  {
    assert ([c] + a)[1..] == a && ([c] + b)[1..] == b;
  }

  lemma BlankRun(s: string)
    requires s != "" && IsBlank(s[0])
    ensures var n := 1 + Span(s[1..], IsBlank);
      n <= |s| && (forall i :: 0 <= i < n ==> IsBlank(s[..n][i])) && (n < |s| ==> !IsBlank(s[n..][0]))
  {
    var n := 1 + Span(s[1..], IsBlank);
    forall i | 0 <= i < n
      ensures IsBlank(s[..n][i])
    {
      if i > 0 {
        SpanAt(s[1..], IsBlank, i - 1);
      }
    }
  }

  lemma FirstStays(s: string)
    requires s != "" ==> !IsBlank(s[0])
    ensures Remove(s, IsTab) == "" || !IsBlank(Remove(s, IsTab)[0])
  {
  }

  /** Of a run of blanks its spaces stay; they collapse to one, if there are any. */
  lemma {:induction false} RemovedRun(run: string)
    requires forall i :: 0 <= i < |run| ==> IsBlank(run[i])
    ensures Collapse(Remove(run, IsTab), IsBlank, ' ') == if ' ' in run then " " else ""
    ensures forall i :: 0 <= i < |Remove(run, IsTab)| ==> Remove(run, IsTab)[i] == ' '
  {
    if run != "" {
      RemovedRun(run[1..]);
      var rest := Remove(run[1..], IsTab);
      if run[0] == ' ' {
        assert ([' '] + rest)[1..] == rest;
        SpanIs(rest, IsBlank, |rest|);
        assert rest[|rest|..] == "";
        assert Collapse([' '] + rest, IsBlank, ' ') == " ";
      }
    }
  }
}
