/** A reader that cuts a note at its headings of one level, and what it finds in pieces printed one after the other. */
module SectionReader {
  import opened Text
  import opened FlatLines
  import opened Headings
  import Fence

  /** A heading line, and the lines from it to the next heading of its level. */
  datatype Part = Part(heading: string, lines: seq<string>)

  /** An ATX heading of level `k` (section 4.2 of the CommonMark specification). */
  predicate IsLevel(line: string, k: nat) {
    k > 0 && Span(line, IsHash) == k && (|line| == k || IsBlank(line[k]))
  }

  /** The lines in front of the first heading of level `k` outside any fence, and the parts from there on. */
  function Cut(lines: seq<string>, mode: Mode, k: nat): (seq<string>, seq<Part>) {
    if lines == [] then ([], [])
    else
      var (before, parts) := Cut(lines[1..], AfterLine(lines[0], mode), k);
      if mode.Outside? && IsLevel(lines[0], k) then ([], [Part(lines[0], before)] + parts)
      else ([lines[0]] + before, parts)
  }

  /** The text of a part, without the blank line at either end. */
  function PartText(part: Part): string {
    if |part.lines| < 2 then "" else Join(part.lines[1..|part.lines| - 1], "\n")
  }

  /** There is such a line at either end. */
  predicate IsFramed(part: Part) {
    |part.lines| >= 3 && part.lines[0] == "" && part.lines[|part.lines| - 1] == ""
  }

  // ----- Lines without a heading of the level -----

  predicate NoLevel(headings: seq<string>, k: nat) {
    headings != [] ==> !IsLevel(headings[0], k) && NoLevel(headings[1..], k)
  }

  lemma LevelIsHeading(line: string, k: nat)
    requires 1 <= k <= 6 && IsLevel(line, k)
    ensures HeadingIn(line, Outside) == [line] && AfterLine(line, Outside).Outside?
  {
    SpanAt(line, IsHash, 0);
    InertMarks(line);
  }

  lemma InertMarks(line: string)
    requires line != "" && line[0] == '#'
    ensures Opens(line).Outside?
  {
    SpanIs(line, IsTilde, 0);
    SpanIs(line, Fence.IsTick, 0);
  }

  lemma CutFirst(lines: seq<string>, mode: Mode, k: nat)
    requires lines != []
    ensures var (before, parts) := Cut(lines[1..], AfterLine(lines[0], mode), k);
      Cut(lines, mode, k)
      == if mode.Outside? && IsLevel(lines[0], k) then ([], [Part(lines[0], before)] + parts) else ([lines[0]] + before, parts)
  {
  }

  lemma FirstIsNoLevel(line: string, mode: Mode, k: nat, rest: seq<string>)
    requires 1 <= k <= 6 && NoLevel(HeadingIn(line, mode) + rest, k)
    ensures !(mode.Outside? && IsLevel(line, k)) && NoLevel(rest, k)
  {
    hide HeadingIn, AfterLine, IsLevel;
    var all := HeadingIn(line, mode) + rest;
    HeadingInIs(line, mode);
    if HeadingIn(line, mode) == [] {
      assert all == rest;
    } else {
      assert all[0] == line && all[1..] == rest;
    }
    if mode.Outside? && IsLevel(line, k) {
      LevelIsHeading(line, k);
    }
  }

  lemma HeadingInIs(line: string, mode: Mode)
    ensures HeadingIn(line, mode) == [] || HeadingIn(line, mode) == [line]
  {
  }

  /** Lines among whose headings there is none of the level go in front of whatever follows. */
  lemma {:induction false} CutBehind(a: seq<string>, b: seq<string>, mode: Mode, k: nat)
    requires 1 <= k <= 6 && NoLevel(ScanLines(a, mode).headings, k)
    ensures var (before, parts) := Cut(b, ScanLines(a, mode).mode, k);
      Cut(a + b, mode, k) == (a + before, parts)
  {
    hide Cut, AfterLine, HeadingIn, IsLevel, ScanLines, NoLevel;
    if a == [] {
      NothingScanned(mode);
      var before := Cut(b, mode, k).0;
      assert a + b == b && a + before == before;
    } else {
      var next := AfterLine(a[0], mode);
      ScanFirst(a, mode);
      FirstIsNoLevel(a[0], mode, k, ScanLines(a[1..], next).headings);
      CutBehind(a[1..], b, next, k);
      assert (a + b)[0] == a[0] && (a + b)[1..] == a[1..] + b;
      CutFirst(a + b, mode, k);
      var (before, parts) := Cut(b, ScanLines(a, mode).mode, k);
      assert [a[0]] + (a[1..] + before) == a + before;
    }
  }

  lemma NothingScanned(mode: Mode)
    ensures ScanLines([], mode) == Scan([], mode)
  {
  }

  // ----- Pieces: headings of the level, each with a body in which there is none -----

  /** A heading and a body with its own, deeper headings. */
  datatype Piece = Piece(heading: string, body: string, inner: seq<string>)

  ghost predicate ValidPiece(piece: Piece, k: nat) {
    IsLevel(piece.heading, k) && FlatLine(piece.heading) && Contributes(piece.body, piece.inner) && NoLevel(piece.inner, k)
  }

  ghost predicate ValidPieces(pieces: seq<Piece>, k: nat) {
    pieces != [] ==> ValidPiece(pieces[0], k) && ValidPieces(pieces[1..], k)
  }

  function PieceText(piece: Piece): string {
    piece.heading + "\n\n" + piece.body
  }

  function PieceTexts(pieces: seq<Piece>): seq<string> {
    if pieces == [] then [] else [PieceText(pieces[0])] + PieceTexts(pieces[1..])
  }

  function PartOf(piece: Piece): Part {
    Part(piece.heading, [""] + Lines(piece.body) + [""])
  }

  function PartsOf(pieces: seq<Piece>): seq<Part> {
    if pieces == [] then [] else [PartOf(pieces[0])] + PartsOf(pieces[1..])
  }

  /** All pieces, a blank line behind each. */
  function PieceLines(pieces: seq<Piece>): seq<string> {
    if pieces == [] then []
    else [pieces[0].heading] + ([""] + Lines(pieces[0].body) + [""]) + PieceLines(pieces[1..])
  }

  lemma BlankLineScans(body: string, inner: seq<string>)
    requires Contributes(body, inner)
    ensures ScanLines([""] + Lines(body) + [""], Outside) == Scan(inner, Outside)
  {
    hide ScanLines, Lines;
    EmptyScans();
    ScanConcat([""] + Lines(body), [""], Outside);
    ScanConcat([""], Lines(body), Outside);
    assert [] + inner == inner && inner + [] == inner;
  }

  lemma EmptyScans()
    ensures ScanLines([""], Outside) == Scan([], Outside)
  {
    hide SafeLine;
    PlainStartIsSafe("");
    OneLineYields("");
  }

  lemma OnePiece(piece: Piece, rest: seq<string>, parts: seq<Part>, k: nat)
    requires 1 <= k <= 6 && ValidPiece(piece, k) && Cut(rest, Outside, k) == ([], parts)
    ensures Cut([piece.heading] + ([""] + Lines(piece.body) + [""]) + rest, Outside, k) == ([], [PartOf(piece)] + parts)
  {
    hide Cut, IsLevel, NoLevel, Contributes, Lines;
    var inside := [""] + Lines(piece.body) + [""];
    BlankLineScans(piece.body, piece.inner);
    CutBehind(inside, rest, Outside, k);
    assert inside + [] == inside;
    LevelIsHeading(piece.heading, k);
    var all := [piece.heading] + inside + rest;
    assert all[0] == piece.heading && all[1..] == inside + rest;
    CutFirst(all, Outside, k);
  }

  /** The reader finds exactly the pieces, each with its own body. */
  lemma {:induction false} CutPieces(pieces: seq<Piece>, k: nat)
    requires 1 <= k <= 6 && ValidPieces(pieces, k)
    ensures Cut(PieceLines(pieces), Outside, k) == ([], PartsOf(pieces))
  {
    hide ValidPiece, Lines;
    if pieces != [] {
      CutPieces(pieces[1..], k);
      OnePiece(pieces[0], PieceLines(pieces[1..]), PartsOf(pieces[1..]), k);
    }
  }

  lemma LinesApart(a: string, b: string)
    ensures Lines(a + "\n\n" + b) == Lines(a) + [""] + Lines(b)
  {
    hide Split;
    assert a + "\n\n" + b == a + "\n" + "" + "\n" + b;
    SplitConcat(a + "\n" + "", '\n', b);
    SplitConcat(a, '\n', "");
    SplitWhole("", '\n');
  }

  lemma LinesEnded(a: string)
    ensures Lines(a + "\n") == Lines(a) + [""]
  {
    hide Split;
    SplitConcat(a, '\n', "");
    SplitWhole("", '\n');
    assert a + "\n" + "" == a + "\n";
  }

  lemma PieceTextLines(piece: Piece)
    requires FlatLine(piece.heading)
    ensures Lines(PieceText(piece)) + [""] == [piece.heading] + ([""] + Lines(piece.body) + [""])
  {
    hide Split;
    LinesApart(piece.heading, piece.body);
    SplitWhole(piece.heading, '\n');
  }

  /** The lines of pieces printed one blank line apart. */
  lemma {:induction false} PiecesPrinted(pieces: seq<Piece>, k: nat)
    requires pieces != [] && ValidPieces(pieces, k)
    ensures Lines(Join(PieceTexts(pieces), "\n\n") + "\n") == PieceLines(pieces)
  {
    hide Split, PieceText, IsLevel, Contributes, NoLevel;
    var first := PieceText(pieces[0]);
    PieceTextLines(pieces[0]);
    if |pieces| == 1 {
      LinesEnded(first);
      NoPieces();
    } else {
      PiecesPrinted(pieces[1..], k);
      var rest := Join(PieceTexts(pieces[1..]), "\n\n");
      MorePieces(pieces);
      LinesApart(first, rest + "\n");
      Regroup(first + "\n\n", rest, "\n");
    }
  }

  lemma NoPieces()
    ensures PieceLines([]) == [] && PieceTexts([]) == []
  {
  }

  lemma MorePieces(pieces: seq<Piece>)
    requires |pieces| > 1
    ensures Join(PieceTexts(pieces), "\n\n") == PieceText(pieces[0]) + "\n\n" + Join(PieceTexts(pieces[1..]), "\n\n")
  {
    hide PieceText;
    assert PieceTexts(pieces)[1..] == PieceTexts(pieces[1..]);
  }

  lemma PartIsPiece(piece: Piece)
    ensures IsFramed(PartOf(piece)) && PartText(PartOf(piece)) == piece.body
  {
    hide Split, Join;
    JoinSplit(piece.body, '\n');
    var lines := PartOf(piece).lines;
    assert lines[1..|lines| - 1] == Lines(piece.body);
  }
}
