/** What an append means to a reader of lines: the client's lines stand behind the note's, each once and in order. */
module AppendedLines {
  import opened Bytes
  import opened InboxModel
  import opened LineEndings
  import opened InboxHistory
  import opened InboxGrowth

  // ----- A reader of lines -----

  /** CR LF, CR and LF each end a line. */
  function BreakLength(s: Bytes): (n: nat)
    ensures n <= |s|
  {
    if |s| >= 2 && s[0] == 13 && s[1] == 10 then 2
    else if |s| >= 1 && (s[0] == 13 || s[0] == 10) then 1
    else 0
  }

  /** The lines of a note; a line break at the very end starts no further line. */
  function ReadLines(s: Bytes): (r: seq<Bytes>)
    ensures r == [] <==> s == []
    decreases |s|
  {
    if s == [] then []
    else if BreakLength(s) > 0 then [[]] + ReadLines(s[BreakLength(s)..])
    else
      var rest := ReadLines(s[1..]);
      if rest == [] then [[s[0]]] else [[s[0]] + rest[0]] + rest[1..]
  }

  predicate EndsInBreak(s: Bytes) {
    s != [] && (s[|s| - 1] == 13 || s[|s| - 1] == 10)
  }

  predicate EndsInPair(s: Bytes) {
    |s| >= 2 && s[|s| - 2] == 13 && s[|s| - 1] == 10
  }

  /** Somewhere in the note a line ends in CR LF. */
  ghost predicate HoldsPair(s: Bytes) {
    exists k :: 0 <= k < |s| - 1 && PairAt(s, k)
  }

  predicate PairAt(s: Bytes, k: nat)
    requires k + 1 < |s|
  {
    s[k] == 13 && s[k + 1] == 10
  }

  lemma {:induction false} CrlfIsPair(s: Bytes)
    ensures HasCrlf(s) <==> HoldsPair(s)
  {
    if |s| >= 2 {
      CrlfIsPair(s[1..]);
      assert PairAt(s, 0) <==> s[0] == 13 && s[1] == 10;
      if k :| 0 <= k < |s[1..]| - 1 && PairAt(s[1..], k) {
        assert PairAt(s, k + 1);
      }
      if k :| 0 <= k < |s| - 1 && PairAt(s, k) {
        assert k > 0 ==> PairAt(s[1..], k - 1);
      }
    }
  }

  // ----- Lines of two texts, one behind the other -----

  lemma Prepended(c: Byte, x: seq<Bytes>, y: seq<Bytes>)
    requires x != []
    ensures [[c] + (x + y)[0]] + (x + y)[1..] == ([[c] + x[0]] + x[1..]) + y
  {
    assert (x + y)[1..] == x[1..] + y;
  }

  lemma ReadsBreak(s: Bytes)
    requires BreakLength(s) > 0
    ensures ReadLines(s) == [[]] + ReadLines(s[BreakLength(s)..])
  {
  }

  lemma ReadsCharacter(s: Bytes)
    requires s != [] && BreakLength(s) == 0
    ensures var rest := ReadLines(s[1..]);
      ReadLines(s) == if rest == [] then [[s[0]]] else [[s[0]] + rest[0]] + rest[1..]
  {
  }

  /** After a line break, which what follows does not complete to a pair, a new line starts. */
  lemma {:induction false} LinesBehindBreak(a: Bytes, b: Bytes)
    requires EndsInBreak(a) && !(a[|a| - 1] == 13 && b != [] && b[0] == 10)
    ensures ReadLines(a + b) == ReadLines(a) + ReadLines(b)
    decreases |a|
  {
    hide ReadLines;
    var s := a + b;
    var n := BreakLength(a);
    if n > 0 {
      assert BreakLength(s) == n;
      assert s[n..] == a[n..] + b;
      ReadsBreak(a);
      ReadsBreak(s);
      if n < |a| {
        assert a[n..][|a[n..]| - 1] == a[|a| - 1];
        LinesBehindBreak(a[n..], b);
        Regroup3([[]], ReadLines(a[n..]), ReadLines(b));
      } else {
        assert a[n..] == [] && a[n..] + b == b;
        NoLines();
      }
    } else {
      assert |a| > 1;
      assert a[1..][|a[1..]| - 1] == a[|a| - 1];
      assert s[1..] == a[1..] + b && BreakLength(s) == 0;
      LinesBehindBreak(a[1..], b);
      ReadsCharacter(a);
      ReadsCharacter(s);
      Prepended(a[0], ReadLines(a[1..]), ReadLines(b));
    }
  }

  lemma Regroup3(a: seq<Bytes>, b: seq<Bytes>, c: seq<Bytes>)
    ensures a + (b + c) == (a + b) + c
  {
  }

  lemma NoLines()
    ensures ReadLines([]) == []
  {
  }

  /** Closing the last line, or completing its CR to a pair, adds no line. */
  lemma {:induction false} BreakCloses(a: Bytes, t: Bytes)
    requires a != [] && BreakLength(t) == |t| > 0
    requires a[|a| - 1] != 10 && (a[|a| - 1] == 13 ==> t == [10])
    ensures ReadLines(a + t) == ReadLines(a)
    decreases |a|
  {
    hide ReadLines;
    var s := a + t;
    if |a| == 1 {
      OneCharacter(a, t);
    } else if BreakLength(a) > 0 {
      var n := BreakLength(a);
      assert BreakLength(s) == n && n < |a| && s[n..] == a[n..] + t;
      assert a[n..][|a[n..]| - 1] == a[|a| - 1];
      BreakCloses(a[n..], t);
      ReadsBreak(a);
      ReadsBreak(s);
    } else {
      assert BreakLength(s) == 0 && s[1..] == a[1..] + t;
      assert a[1..][|a[1..]| - 1] == a[|a| - 1];
      BreakCloses(a[1..], t);
      ReadsCharacter(a);
      ReadsCharacter(s);
    }
  }

  lemma OneCharacter(a: Bytes, t: Bytes)
    requires |a| == 1 && BreakLength(t) == |t| > 0
    requires a[0] != 10 && (a[0] == 13 ==> t == [10])
    ensures ReadLines(a + t) == ReadLines(a)
  {
    hide ReadLines;
    NoLines();
    var s := a + t;
    if a[0] == 13 {
      assert BreakLength(s) == 2 && s[2..] == [] && BreakLength(a) == 1 && a[1..] == [];
      ReadsBreak(a);
      ReadsBreak(s);
    } else {
      assert s[1..] == t && t[|t|..] == [] && a[1..] == [];
      ReadsCharacter(s);
      ReadsCharacter(a);
      ReadsBreak(t);
      assert ReadLines(t) == [[]] && ReadLines(t)[1..] == [];
      assert [s[0]] + [] == [s[0]];
    }
  }

  // ----- The rewritten line breaks end the same lines -----

  lemma UnifyFirst(s: Bytes)
    requires s != []
    ensures var n := if BreakLength(s) > 0 then BreakLength(s) else 1;
      UnifyLineEndings(s) == [if BreakLength(s) > 0 then 10 else s[0]] + UnifyLineEndings(s[n..])
  {
  }

  lemma {:induction false} UnifiedLines(s: Bytes)
    ensures ReadLines(UnifyLineEndings(s)) == ReadLines(s)
    decreases |s|
  {
    if s != [] {
      hide ReadLines, UnifyLineEndings;
      var n := if BreakLength(s) > 0 then BreakLength(s) else 1;
      UnifyFirst(s);
      UnifiedLines(s[n..]);
      var r := UnifyLineEndings(s);
      assert r[1..] == UnifyLineEndings(s[n..]);
      if BreakLength(s) > 0 {
        assert BreakLength(r) == 1;
        ReadsBreak(s);
        ReadsBreak(r);
      } else {
        ReadsCharacter(s);
        ReadsCharacter(r);
      }
    }
  }

  lemma {:induction false} CrlfLines(s: Bytes)
    requires NoCr(s)
    ensures ReadLines(ToCrlf(s)) == ReadLines(s)
  {
    if s != [] {
      hide ReadLines;
      CrlfLines(s[1..]);
      var r := ToCrlf(s);
      if s[0] == 10 {
        assert r == [13, 10] + ToCrlf(s[1..]) && r[2..] == ToCrlf(s[1..]) && BreakLength(r) == 2;
        ReadsBreak(s);
        ReadsBreak(r);
      } else {
        assert r == [s[0]] + ToCrlf(s[1..]) && r[1..] == ToCrlf(s[1..]);
        ReadsCharacter(s);
        ReadsCharacter(r);
      }
    }
  }

  /** The lines of what a client sends; an empty text is one empty line. */
  function ClientLines(content: Bytes): seq<Bytes> {
    if content == [] then [[]] else ReadLines(content)
  }

  lemma UnifiedEmpty(content: Bytes)
    ensures UnifyLineEndings(content) == [] <==> content == []
  {
  }

  /** The text of an append, in the note's line breaks and closed, has the client's lines. */
  lemma TextLines(content: Bytes, crlf: bool) returns (text: Bytes)
    ensures var unified := UnifyLineEndings(content);
      var body := if EndsIn(unified, [LF]) then unified else unified + [LF];
      text == if crlf then ToCrlf(body) else body
    ensures text != [] && ReadLines(text) == ClientLines(content)
  {
    hide UnifyLineEndings, ReadLines, ToCrlf;
    var unified := UnifyLineEndings(content);
    var body := AppendedBody(content);
    UnifiedLines(content);
    UnifiedEmpty(content);
    UnifiedHasNoCr(content);
    if unified == [] {
      assert body == [10] && BreakLength(body) == 1 && body[1..] == [];
      ReadsBreak(body);
      NoLines();
    } else if !EndsIn(unified, [LF]) {
      LastIsNoCr(unified);
      assert unified[|unified| - 1..] == [unified[|unified| - 1]];
      BreakCloses(unified, [LF]);
    }
    CrlfLines(body);
    text := if crlf then ToCrlf(body) else body;
    if text == [] {
      NoLines();
    }
  }

  lemma {:induction false} LastIsNoCr(s: Bytes)
    requires NoCr(s) && s != []
    ensures s[|s| - 1] != 13
  {
    if |s| > 1 {
      LastIsNoCr(s[1..]);
    }
  }

  // ----- What arrives -----

  /** A note that has pairs, but ends in a line break that is none: the separator makes an empty line there. */
  ghost predicate GetsBlankLine(existing: Bytes) {
    HoldsPair(existing) && EndsInBreak(existing) && !EndsInPair(existing)
  }

  /**
   * For every note and every text: the note stays as it is in front, and its lines are followed by the client's, each
   * once and in order. Between them there is nothing, except for one empty line in a note with CR LF that ends in a
   * bare LF or CR.
   */
  lemma LinesArrive(existing: Bytes, content: Bytes)
    ensures existing <= Extended(existing, content)
    ensures ReadLines(Extended(existing, content))
         == ReadLines(existing) + (if GetsBlankLine(existing) then [[]] else []) + ClientLines(content)
  {
    hide ReadLines, HasCrlf, HoldsPair, ClientLines, AppendBytes, EndsInBreak, EndsInPair, EndsIn, GetsBlankLine;
    CrlfIsPair(existing);
    var text := TextLines(content, HasCrlf(existing));
    var terminator := if HasCrlf(existing) then [CR, LF] else [LF];
    AppendIsText(existing, content, text, terminator);
    if existing == [] {
      NoLines();
      NothingHeld();
      assert existing + text == text;
    } else if EndsIn(existing, terminator) {
      ClosedGetsNothing(existing, terminator);
      LinesBehindBreak(existing, text);
    } else {
      Separated(existing, terminator);
      LinesBehindBreak(existing + terminator, text);
    }
  }

  /** What is appended: the text, behind the separator if the note does not end in it. */
  lemma AppendIsText(existing: Bytes, content: Bytes, text: Bytes, terminator: Bytes)
    requires terminator == if HasCrlf(existing) then [CR, LF] else [LF]
    requires var unified := UnifyLineEndings(content);
      var body := if EndsIn(unified, [LF]) then unified else unified + [LF];
      text == if HasCrlf(existing) then ToCrlf(body) else body
    ensures Extended(existing, content)
         == if existing != [] && !EndsIn(existing, terminator) then existing + terminator + text else existing + text
  {
    hide HasCrlf, UnifyLineEndings, ToCrlf, EndsIn;
    assert existing + (terminator + text) == existing + terminator + text;
  }

  lemma ClosedGetsNothing(existing: Bytes, terminator: Bytes)
    requires existing != [] && EndsIn(existing, terminator) && terminator == if HoldsPair(existing) then [CR, LF] else [LF]
    ensures EndsInBreak(existing) && existing[|existing| - 1] == 10 && !GetsBlankLine(existing)
  {
    hide HoldsPair, EndsIn;
    EndsInOne(existing);
    EndsInTwo(existing);
  }

  lemma NothingHeld()
    ensures !HoldsPair([]) && !GetsBlankLine([])
  {
  }

  lemma EndsInOne(s: Bytes)
    requires s != []
    ensures EndsIn(s, [LF]) <==> s[|s| - 1] == 10
  {
    assert s[|s| - 1..] == [s[|s| - 1]];
  }

  lemma EndsInTwo(s: Bytes)
    ensures EndsIn(s, [CR, LF]) <==> EndsInPair(s)
  {
    if |s| >= 2 {
      assert s[|s| - 2..] == [s[|s| - 2], s[|s| - 1]];
    }
  }

  /** The separator: it closes an open line, and makes an empty one only behind a bare line break in a CR LF note. */
  lemma Separated(existing: Bytes, terminator: Bytes)
    requires existing != [] && !EndsIn(existing, terminator)
    requires terminator == if HoldsPair(existing) then [CR, LF] else [LF]
    ensures ReadLines(existing + terminator) == ReadLines(existing) + (if GetsBlankLine(existing) then [[]] else [])
    ensures EndsInBreak(existing + terminator) && (existing + terminator)[|existing + terminator| - 1] == 10
  {
    hide ReadLines, HoldsPair, EndsIn;
    EndsInOne(existing);
    EndsInTwo(existing);
    if GetsBlankLine(existing) {
      LinesBehindBreak(existing, terminator);
      PairIsEmptyLine();
    } else {
      BreakCloses(existing, terminator);
    }
  }

  lemma PairIsEmptyLine()
    ensures ReadLines([CR, LF]) == [[]]
  {
    var s: Bytes := [CR, LF];
    assert BreakLength(s) == 2 && s[2..] == [];
    ReadsBreak(s);
    NoLines();
  }

  /** The smallest kind of note that gets the empty line. */
  lemma MixedNoteGetsBlankLine()
    ensures ReadLines([13, 10, 10]) == [[], []] && ReadLines(Extended([13, 10, 10], [120])) == [[], [], [], [120]]
  {
    hide ReadLines, HoldsPair, GetsBlankLine;
    MixedReads();
    MixedIsMixed();
    LinesArrive([13, 10, 10], [120]);
  }

  lemma MixedReads()
    ensures ReadLines([13, 10, 10]) == [[], []] && ReadLines([120]) == [[120]]
  {
    hide ReadLines;
    var s: Bytes := [13, 10, 10];
    var t: Bytes := [10];
    var x: Bytes := [120];
    assert s[2..] == t && t[1..] == [] && x[1..] == [];
    ReadsBreak(s);
    ReadsBreak(t);
    NoLines();
    ReadsCharacter(x);
  }

  lemma MixedIsMixed()
    ensures GetsBlankLine([13, 10, 10])
  {
    assert PairAt([13, 10, 10], 0);
  }

  // ----- Notes of one style, through any number of appends -----

  /** All line breaks are LF, or all are CR LF. */
  predicate OneStyle(s: Bytes) {
    NoCr(s) || Paired(s)
  }

  lemma {:induction false} PairedEnds(s: Bytes)
    requires Paired(s)
    ensures EndsInBreak(s) ==> EndsInPair(s)
    decreases |s|
  {
    if |s| >= 2 && s[0] == CR && s[1] == LF {
      if |s| > 2 {
        PairedEnds(s[2..]);
        assert s[2..][|s[2..]| - 1] == s[|s| - 1];
        assert |s| > 3 ==> s[2..][|s[2..]| - 2] == s[|s| - 2];
      }
    } else if |s| > 1 {
      PairedEnds(s[1..]);
      assert s[1..][|s[1..]| - 1] == s[|s| - 1];
      assert |s| > 2 ==> s[1..][|s[1..]| - 2] == s[|s| - 2];
    }
  }

  lemma {:induction false} PairedConcat(a: Bytes, b: Bytes)
    requires Paired(a) && Paired(b)
    ensures Paired(a + b)
    decreases |a|
  {
    if a == [] {
      assert a + b == b;
    } else if |a| >= 2 && a[0] == CR && a[1] == LF {
      assert (a + b)[2..] == a[2..] + b;
      PairedConcat(a[2..], b);
    } else {
      assert (a + b)[1..] == a[1..] + b;
      PairedConcat(a[1..], b);
    }
  }

  lemma {:induction false} PairlessHasNoCr(s: Bytes)
    requires Paired(s) && !HasCrlf(s)
    ensures NoCr(s)
    decreases |s|
  {
    if s != [] {
      PairlessHasNoCr(s[1..]);
    }
  }

  lemma OneStyleStays(existing: Bytes, content: Bytes)
    requires OneStyle(existing)
    ensures OneStyle(Extended(existing, content)) && !GetsBlankLine(existing)
  {
    hide NoCr, Paired, HasCrlf, EndsIn, AppendBytes, HoldsPair;
    var appended := AppendBytes(content, existing);
    CrlfIsPair(existing);
    AppendedStyle(content, existing);
    if HasCrlf(existing) {
      if NoCr(existing) {
        NoCrNoCrlf(existing);
      }
      PairedEnds(existing);
      PairedConcat(existing, appended);
    } else {
      if Paired(existing) {
        PairlessHasNoCr(existing);
      }
      NoCrConcat(existing, appended);
    }
  }

  /** The lines of all appends, one after the other. */
  function LinesOfAll(appends: seq<Bytes>): seq<Bytes> {
    if appends == [] then []
    else LinesOfAll(appends[..|appends| - 1]) + ClientLines(appends[|appends| - 1])
  }

  lemma {:induction false} FoldedLines(content: Bytes, appends: seq<Bytes>)
    requires OneStyle(content)
    ensures OneStyle(Fold(content, appends)) && ReadLines(Fold(content, appends)) == ReadLines(content) + LinesOfAll(appends)
  {
    hide OneStyle, Extended, ReadLines, GetsBlankLine, ClientLines;
    if appends == [] {
      assert ReadLines(content) + [] == ReadLines(content);
    } else {
      var earlier, last := appends[..|appends| - 1], appends[|appends| - 1];
      FoldedLines(content, earlier);
      OneStyleStays(Fold(content, earlier), last);
      LinesArrive(Fold(content, earlier), last);
      Regroup3(ReadLines(content), LinesOfAll(earlier), ClientLines(last));
      assert ReadLines(Fold(content, earlier)) + [] == ReadLines(Fold(content, earlier));
    }
  }

  /**
   * In every run without host writes, a note that began in one style of line breaks reads as its beginning followed by
   * the lines of all appends that landed on it, in the order they landed, with nothing between them.
   */
  lemma NotesReadInOrder(s: State, events: seq<Event>, name: string)
    requires Initial(s) && forall e :: e in events ==> !IsHostEvent(e)
    requires name in Notes(Run(s, events).disk)
    ensures Beginning(Notes(s.disk), name, Run(s, events).history).Some?
    ensures var start := Beginning(Notes(s.disk), name, Run(s, events).history).value.content;
      OneStyle(start) ==>
        ReadLines(Notes(Run(s, events).disk)[name].content) == ReadLines(start) + LinesOfAll(AppendsTo(name, Run(s, events).history))
  {
    hide Initial, Notes, Run, Beginning, Fold, AppendsTo, OneStyle, ReadLines, LinesOfAll;
    FinalContent(s, events, name);
    var start := Beginning(Notes(s.disk), name, Run(s, events).history).value.content;
    if OneStyle(start) {
      FoldedLines(start, AppendsTo(name, Run(s, events).history));
    }
  }
}
