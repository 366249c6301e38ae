/** Tables: what the normaliser accepts, how they print, and a reader of the printed rows (section 4.10 of the GFM spec). */
module Tables {
  import opened Text
  import opened Escape
  import opened Blocks
  import Fence

  // ----- _normalise_table -----

  function OneLines(values: seq<string>): (r: seq<string>)
    ensures |r| == |values|
  {
    if values == [] then [] else [OneLine(values[0])] + OneLines(values[1..])
  }

  function OneLineRows(rows: seq<seq<string>>): (r: seq<seq<string>>)
    ensures |r| == |rows|
  {
    if rows == [] then [] else [OneLines(rows[0])] + OneLineRows(rows[1..])
  }

  /** `one_line(x) or None` for an optional string. */
  function OptionalLine(value: Option<string>): (r: Option<string>)
    ensures r.Some? ==> r.value != ""
  {
    if value.Some? && OneLine(value.value) != "" then Some(OneLine(value.value)) else None
  }

  /** The position of the first empty header, counting from `i`. */
  function EmptyHeaderFrom(headers: seq<string>, i: nat): Option<nat> {
    if headers == [] then None
    else if headers[0] == "" then Some(i)
    else EmptyHeaderFrom(headers[1..], i + 1)
  }

  function UnevenRowFrom(rows: seq<seq<string>>, width: nat, i: nat): Option<nat> {
    if rows == [] then None
    else if |rows[0]| != width then Some(i)
    else UnevenRowFrom(rows[1..], width, i + 1)
  }

  function NormalTable(table: TableBlock): Result<Table, BlockError> {
    var headers := OneLines(table.headers);
    match EmptyHeaderFrom(headers, 0)
    case Some(column) => Err(EmptyHeader(column))
    case None =>
      if table.alignments.Some? && |table.alignments.value| != |headers| then Err(AlignmentCount)
      else
        match UnevenRowFrom(table.rows, |headers|, 0)
        case Some(row) => Err(RowCells(row))
        case None =>
          Ok(Table(OptionalLine(table.caption), headers, table.alignments, OneLineRows(table.rows)))
  }

  method NormaliseTable(table: TableBlock) returns (result: Result<Table, BlockError>)
    ensures result == NormalTable(table)
  {
    hide OneLine;
    var headers := OneLines(table.headers);
    for column := 0 to |headers|
      invariant EmptyHeaderFrom(headers[column..], column) == EmptyHeaderFrom(headers, 0)
    {
      assert headers[column..][1..] == headers[column + 1..];
      if headers[column] == "" {
        return Err(EmptyHeader(column));
      }
    }
    if table.alignments.Some? && |table.alignments.value| != |headers| {
      return Err(AlignmentCount);
    }
    var rows: seq<seq<string>> := [];
    for i := 0 to |table.rows|
      invariant UnevenRowFrom(table.rows[i..], |headers|, i) == UnevenRowFrom(table.rows, |headers|, 0)
      invariant rows + OneLineRows(table.rows[i..]) == OneLineRows(table.rows)
    {
      var row := table.rows[i];
      assert table.rows[i..][0] == row && table.rows[i..][1..] == table.rows[i + 1..];
      if |row| != |headers| {
        return Err(RowCells(i));
      }
      rows := rows + [OneLines(row)];
    }
    assert rows == OneLineRows(table.rows);
    result := Ok(Table(OptionalLine(table.caption), headers, table.alignments, rows));
  }

  predicate AllHeaded(headers: seq<string>) {
    headers != [] ==> headers[0] != "" && AllHeaded(headers[1..])
  }

  predicate AllWide(rows: seq<seq<string>>, width: nat) {
    rows != [] ==> |rows[0]| == width && AllWide(rows[1..], width)
  }

  predicate AllLines(values: seq<string>) {
    values != [] ==> IsLine(values[0]) && AllLines(values[1..])
  }

  predicate AllRowLines(rows: seq<seq<string>>) {
    rows != [] ==> AllLines(rows[0]) && AllRowLines(rows[1..])
  }

  /** A table whose printed form a GFM reader keeps whole. */
  predicate WellFormed(table: Table) {
    && AllHeaded(table.headers) && AllLines(table.headers)
    && (table.alignments.Some? ==> |table.alignments.value| == |table.headers|)
    && AllWide(table.rows, |table.headers|) && AllRowLines(table.rows)
    && (table.caption.Some? ==> table.caption.value != "" && IsLine(table.caption.value))
  }

  lemma {:induction false} OneLinesAreLines(values: seq<string>)
    ensures AllLines(OneLines(values))
  {
    hide OneLine, IsLine;
    if values != [] {
      OneLineIsLine(values[0]);
      OneLinesAreLines(values[1..]);
    }
  }

  lemma {:induction false} HeadersFacts(headers: seq<string>, i: nat)
    ensures EmptyHeaderFrom(headers, i).None? <==> AllHeaded(headers)
    ensures var found := EmptyHeaderFrom(headers, i);
      found.Some? ==>
        && i <= found.value < i + |headers| && headers[found.value - i] == "" && AllHeaded(headers[..found.value - i])
  {
    if headers != [] && headers[0] != "" {
      HeadersFacts(headers[1..], i + 1);
      var found := EmptyHeaderFrom(headers, i);
      if found.Some? {
        assert headers[..found.value - i][1..] == headers[1..][..found.value - i - 1];
      }
    }
  }

  lemma {:induction false} LineRowsFacts(rows: seq<seq<string>>, width: nat)
    ensures AllWide(OneLineRows(rows), width) <==> AllWide(rows, width)
    ensures AllRowLines(OneLineRows(rows))
  {
    hide OneLine, OneLines, AllLines;
    if rows != [] {
      OneLinesAreLines(rows[0]);
      LineRowsFacts(rows[1..], width);
    }
  }

  lemma {:induction false} RowsFacts(rows: seq<seq<string>>, width: nat, i: nat)
    ensures UnevenRowFrom(rows, width, i).None? <==> AllWide(rows, width)
    ensures var found := UnevenRowFrom(rows, width, i);
      found.Some? ==>
        && i <= found.value < i + |rows| && |rows[found.value - i]| != width && AllWide(rows[..found.value - i], width)
  {
    if rows != [] {
      RowsFacts(rows[1..], width, i + 1);
      var found := UnevenRowFrom(rows, width, i);
      if found.Some? && found.value > i {
        assert rows[..found.value - i][1..] == rows[1..][..found.value - i - 1];
      }
    }
  }

  /**
   * A table is accepted exactly when every header has text, the alignments (if any) match the headers and every
   * row is as wide as the headers; a rejection names the first offence, in that order of checks.
   */
  lemma TableAcceptance(table: TableBlock)
    ensures var r := NormalTable(table);
      && (r.Ok? <==>
          && AllHeaded(OneLines(table.headers))
          && (table.alignments.Some? ==> |table.alignments.value| == |table.headers|)
          && AllWide(table.rows, |table.headers|))
      && (r.Ok? ==> WellFormed(r.value))
      && (r.Err? ==>
          match r.error
          case EmptyHeader(k) =>
            k < |table.headers| && OneLines(table.headers)[k] == "" && AllHeaded(OneLines(table.headers)[..k])
          case RowCells(k) => k < |table.rows| && |table.rows[k]| != |table.headers| && AllWide(table.rows[..k], |table.headers|)
          case other => other == AlignmentCount && AllHeaded(OneLines(table.headers)))
  {
    hide OneLine, IsLine;
    HeadersFacts(OneLines(table.headers), 0);
    RowsFacts(table.rows, |table.headers|, 0);
    LineRowsFacts(table.rows, |table.headers|);
    OneLinesAreLines(table.headers);
    if table.caption.Some? {
      OneLineIsLine(table.caption.value);
    }
  }

  // ----- _render_table -----

  function EscapeTableCell(value: string): string {
    Replace(Replace(value, c => c == '\\', c => "\\\\"), c => c == '|', c => "\\|")
  }

  function EscapeCells(cells: seq<string>): (r: seq<string>)
    ensures |r| == |cells|
  {
    if cells == [] then [] else [EscapeTableCell(cells[0])] + EscapeCells(cells[1..])
  }

  function PipeRow(cells: seq<string>): string {
    "| " + Join(cells, " | ") + " |"
  }

  function TableRow(cells: seq<string>): string {
    PipeRow(EscapeCells(cells))
  }

  function DelimiterCell(alignment: Alignment): string {
    match alignment
    case Left => ":---"
    case Center => ":---:"
    case Right => "---:"
  }

  function DelimiterCells(alignments: seq<Alignment>): seq<string> {
    if alignments == [] then [] else [DelimiterCell(alignments[0])] + DelimiterCells(alignments[1..])
  }

  function PlainDelimiters(n: nat): seq<string> {
    if n == 0 then [] else ["---"] + PlainDelimiters(n - 1)
  }

  function TableDelimiterRow(alignments: Option<seq<Alignment>>, columns: nat): string {
    PipeRow(if alignments.None? then PlainDelimiters(columns) else DelimiterCells(alignments.value))
  }

  function TableRows(rows: seq<seq<string>>): (r: seq<string>)
    ensures |r| == |rows|
  {
    if rows == [] then [] else [TableRow(rows[0])] + TableRows(rows[1..])
  }

  /** The lines of a table, without its caption. */
  function TableGrid(table: Table): seq<string> {
    [TableRow(table.headers), TableDelimiterRow(table.alignments, |table.headers|)] + TableRows(table.rows)
  }

  function TableLines(table: Table): seq<string> {
    Fence.CaptionLines(table.caption) + TableGrid(table)
  }

  function TableText(table: Table): string {
    Join(TableLines(table), "\n")
  }

  // ----- The reader -----

  /** Cells between unescaped pipes: a backslash takes the next character with it. */
  function RawCells(s: string): (r: seq<string>)
    ensures |r| >= 1
    decreases |s|
  {
    if s == "" then [""]
    else if s[0] == '|' then [""] + RawCells(s[1..])
    else
      var n := if s[0] == '\\' && |s| > 1 then 2 else 1;
      var rest := RawCells(s[n..]);
      [s[..n] + rest[0]] + rest[1..]
  }

  function TrimBlankRight(s: string): string {
    if s != "" && IsBlank(s[|s| - 1]) then TrimBlankRight(s[..|s| - 1]) else s
  }

  function TrimBlanks(s: string): string {
    TrimBlankRight(s[Span(s, IsBlank)..])
  }

  function Unescape(s: string): string
    decreases |s|
  {
    if s == "" then ""
    else if s[0] == '\\' && |s| > 1 && (s[1] == '\\' || s[1] == '|') then [s[1]] + Unescape(s[2..])
    else [s[0]] + Unescape(s[1..])
  }

  function CellTexts(cells: seq<string>): (r: seq<string>)
    ensures |r| == |cells|
  {
    if cells == [] then [] else [Unescape(TrimBlanks(cells[0]))] + CellTexts(cells[1..])
  }

  /** The cells inside the optional outer pipes. */
  function Inner(cells: seq<string>): seq<string> {
    var c := if |cells| > 1 && TrimBlanks(cells[0]) == "" then cells[1..] else cells;
    if |c| > 1 && TrimBlanks(c[|c| - 1]) == "" then c[..|c| - 1] else c
  }

  function ReadRow(line: string): seq<string> {
    CellTexts(Inner(RawCells(line)))
  }

  /** A delimiter cell is `:?-+:?`. */
  function ReadAlignment(cell: string): Option<Option<Alignment>> {
    var l := cell != "" && cell[0] == ':';
    var body := if l then cell[1..] else cell;
    var r := body != "" && body[|body| - 1] == ':';
    var dashes := if r then body[..|body| - 1] else body;
    if dashes == "" || !Only(dashes, c => c == '-') then None
    else Some(if l && r then Some(Center) else if l then Some(Left) else if r then Some(Right) else None)
  }

  function ReadAlignments(cells: seq<string>): Option<seq<Option<Alignment>>> {
    if cells == [] then Some([])
    else
      match (ReadAlignment(cells[0]), ReadAlignments(cells[1..]))
      case (Some(a), Some(rest)) => Some([a] + rest)
      case _ => None
  }

  function ReadRows(lines: seq<string>): (r: seq<seq<string>>)
    ensures |r| == |lines|
  {
    if lines == [] then [] else [ReadRow(lines[0])] + ReadRows(lines[1..])
  }

  datatype ReadResult = ReadResult(headers: seq<string>, alignments: seq<Option<Alignment>>, rows: seq<seq<string>>)

  /** A header row, a delimiter row of the same width, and data rows. */
  function ReadTable(lines: seq<string>): Option<ReadResult> {
    if |lines| < 2 then None
    else
      var headers := ReadRow(lines[0]);
      match ReadAlignments(ReadRow(lines[1]))
      case None => None
      case Some(alignments) =>
        if |alignments| != |headers| then None else Some(ReadResult(headers, alignments, ReadRows(lines[2..])))
  }

  // ----- The round trip -----

  lemma {:induction false} ReplaceConcat(a: string, b: string, p: char -> bool, with: char -> string)
    ensures Replace(a + b, p, with) == Replace(a, p, with) + Replace(b, p, with)
  {
    if a == "" {
      assert a + b == b;
    } else {
      ReplaceConcat(a[1..], b, p, with);
      assert (a + b)[1..] == a[1..] + b;
      Regroup(if p(a[0]) then with(a[0]) else [a[0]], Replace(a[1..], p, with), Replace(b, p, with));
    }
  }

  /** The two replacements in one pass. */
  function EscapedChar(c: char): string {
    if c == '\\' then "\\\\" else if c == '|' then "\\|" else [c]
  }

  lemma EscapeStep(c: char, rest: string)
    ensures EscapeTableCell([c] + rest) == EscapedChar(c) + EscapeTableCell(rest)
  {
    var first: char -> bool := x => x == '\\';
    var firstWith: char -> string := x => "\\\\";
    var second: char -> bool := x => x == '|';
    var secondWith: char -> string := x => "\\|";
    ReplaceConcat([c], rest, first, firstWith);
    var one := Replace([c], first, firstWith);
    ReplaceConcat(one, Replace(rest, first, firstWith), second, secondWith);
    assert Replace(one, second, secondWith) == EscapedChar(c) by {
      if c == '\\' {
        assert one == "\\\\" && one[1..] == "\\";
      }
    }
  }

  lemma EscapeEmpty()
    ensures EscapeTableCell("") == ""
  {
  }

  lemma {:induction false} EscapeEnds(v: string)
    requires v != ""
    ensures var e := EscapeTableCell(v);
      e != "" && e[|e| - 1] == v[|v| - 1] && (e[0] == v[0] || e[0] == '\\')
  {
    hide EscapeTableCell;
    EscapeStep(v[0], v[1..]);
    assert [v[0]] + v[1..] == v;
    if |v| == 1 {
      EscapeEmpty();
    } else {
      EscapeEnds(v[1..]);
    }
  }

  lemma {:induction false} UnescapeEscape(v: string)
    ensures Unescape(EscapeTableCell(v)) == v
  {
    hide EscapeTableCell;
    if v == "" {
      EscapeEmpty();
    } else {
      EscapeStep(v[0], v[1..]);
      assert [v[0]] + v[1..] == v;
      UnescapeEscape(v[1..]);
      var e := EscapeTableCell(v);
      assert e[|EscapedChar(v[0])|..] == EscapeTableCell(v[1..]);
    }
  }

  /** `s`, put in front of the first of `cells`. */
  function Grow(s: string, cells: seq<string>): seq<string>
    requires cells != []
  {
    [s + cells[0]] + cells[1..]
  }

  lemma GrowTwice(a: string, b: string, cells: seq<string>)
    requires cells != []
    ensures Grow(a, Grow(b, cells)) == Grow(a + b, cells)
  {
    assert a + (b + cells[0]) == a + b + cells[0];
  }

  /** An escaped cell holds no live separator: it only extends the first cell of what follows. */
  lemma {:induction false} EscapedStaysInOneCell(v: string, rest: string)
    ensures RawCells(EscapeTableCell(v) + rest) == Grow(EscapeTableCell(v), RawCells(rest))
  {
    hide EscapeTableCell;
    if v == "" {
      EscapeEmpty();
      assert "" + rest == rest && "" + RawCells(rest)[0] == RawCells(rest)[0];
    } else {
      hide RawCells, Grow, EscapedChar;
      EscapeStep(v[0], v[1..]);
      assert [v[0]] + v[1..] == v;
      EscapedStaysInOneCell(v[1..], rest);
      var c := EscapedChar(v[0]);
      Regroup(c, EscapeTableCell(v[1..]), rest);
      CharStaysInCell(v[0], EscapeTableCell(v[1..]) + rest);
      GrowTwice(c, EscapeTableCell(v[1..]), RawCells(rest));
    }
  }

  lemma CharStaysInCell(c: char, tail: string)
    ensures RawCells(EscapedChar(c) + tail) == Grow(EscapedChar(c), RawCells(tail))
  {
    var s := EscapedChar(c) + tail;
    assert s[..|EscapedChar(c)|] == EscapedChar(c) && s[|EscapedChar(c)|..] == tail;
  }

  lemma CellStep(v: string, more: string)
    ensures RawCells(" " + EscapeTableCell(v) + " |" + more) == [" " + EscapeTableCell(v) + " "] + RawCells(more)
  {
    hide EscapeTableCell;
    var e := EscapeTableCell(v);
    var tail := " |" + more;
    assert tail[1..] == "|" + more && ("|" + more)[1..] == more;
    assert RawCells("|" + more) == [""] + RawCells(more);
    assert tail[..1] == " " && RawCells(tail) == Grow(" ", [""] + RawCells(more));
    EscapedStaysInOneCell(v, tail);
    var s := " " + e + " |" + more;
    assert s[..1] == " " && s[1..] == e + tail;
    assert RawCells(s) == Grow(" ", RawCells(e + tail));
    assert RawCells(e + tail) == Grow(e, RawCells(tail));
    GrowTwice(" ", e, RawCells(tail));
    assert RawCells(s) == Grow(" " + e, RawCells(tail));
    assert RawCells(tail)[0] == " " && RawCells(tail)[1..] == RawCells(more);
  }

  function Padded(cells: seq<string>): seq<string> {
    if cells == [] then [] else [" " + EscapeTableCell(cells[0]) + " "] + Padded(cells[1..])
  }

  lemma {:induction false} RowSplits(cells: seq<string>)
    requires cells != []
    ensures RawCells(" " + Join(EscapeCells(cells), " | ") + " |") == Padded(cells) + [""]
  {
    hide EscapeTableCell;
    var e := EscapeCells(cells);
    if |cells| == 1 {
      CellStep(cells[0], "");
      assert " " + e[0] + " |" + "" == " " + e[0] + " |";
    } else {
      RowSplits(cells[1..]);
      var more := " " + Join(e[1..], " | ") + " |";
      CellStep(cells[0], more);
      assert " " + Join(e, " | ") + " |" == " " + e[0] + " |" + more;
    }
  }

  predicate AllTrimmed(cells: seq<string>) {
    cells != [] ==> Trimmed(cells[0]) && AllTrimmed(cells[1..])
  }

  lemma PaddingTrims(e: string)
    requires e != "" ==> !IsBlank(e[0]) && !IsBlank(e[|e| - 1])
    ensures TrimBlanks(" " + e + " ") == e
  {
    var s := " " + e + " ";
    if e == "" {
      SpanIs(s, IsBlank, 2);
    } else {
      SpanIs(s, IsBlank, 1);
      var t := e + " ";
      assert s[1..] == t;
      assert t[..|e|] == e && t[|e|] == ' ';
      assert TrimBlankRight(t) == TrimBlankRight(e) == e;
    }
  }

  lemma {:induction false} PaddedCellTexts(cells: seq<string>)
    requires AllTrimmed(cells)
    ensures CellTexts(Padded(cells)) == cells
  {
    hide EscapeTableCell;
    if cells != [] {
      var e := EscapeTableCell(cells[0]);
      if cells[0] == "" {
        EscapeEmpty();
      } else {
        EscapeEnds(cells[0]);
      }
      PaddingTrims(e);
      UnescapeEscape(cells[0]);
      PaddedCellTexts(cells[1..]);
      assert Padded(cells)[1..] == Padded(cells[1..]);
    }
  }

  /** Whatever pipes and backslashes the cells hold, the reader gets exactly the cells back. */
  lemma RowRoundTrip(cells: seq<string>)
    requires cells != [] && AllTrimmed(cells)
    ensures ReadRow(TableRow(cells)) == cells
  {
    hide EscapeTableCell, CellTexts;
    var row := TableRow(cells);
    var tail := " " + Join(EscapeCells(cells), " | ") + " |";
    assert row[1..] == tail;
    RowSplits(cells);
    var raw := [""] + (Padded(cells) + [""]);
    assert RawCells(row) == raw;
    assert raw[1..] == Padded(cells) + [""];
    assert Padded(cells) != [];
    assert (Padded(cells) + [""])[..|Padded(cells)|] == Padded(cells);
    PaddedCellTexts(cells);
  }

  lemma {:induction false} ReplaceIdle(s: string, p: char -> bool, with: char -> string)
    requires forall c :: c in s ==> !p(c)
    ensures Replace(s, p, with) == s
  {
    if s != "" {
      assert s[0] in s;
      ReplaceIdle(s[1..], p, with);
    }
  }

  lemma {:induction false} EscapeIdle(cells: seq<string>)
    requires forall k :: 0 <= k < |cells| ==> '\\' !in cells[k] && '|' !in cells[k]
    ensures EscapeCells(cells) == cells
  {
    if cells != [] {
      ReplaceIdle(cells[0], c => c == '\\', c => "\\\\");
      ReplaceIdle(cells[0], c => c == '|', c => "\\|");
      EscapeIdle(cells[1..]);
    }
  }

  function AlignmentList(alignments: Option<seq<Alignment>>, columns: nat): seq<Option<Alignment>> {
    if alignments.None? then Nones(columns) else Somes(alignments.value)
  }

  function Nones(n: nat): seq<Option<Alignment>> {
    if n == 0 then [] else [None] + Nones(n - 1)
  }

  function Somes(alignments: seq<Alignment>): seq<Option<Alignment>> {
    if alignments == [] then [] else [Some(alignments[0])] + Somes(alignments[1..])
  }

  lemma ReadDelimiterCell(a: Alignment)
    ensures ReadAlignment(DelimiterCell(a)) == Some(Some(a))
    ensures ReadAlignment("---") == Some(None)
    ensures Trimmed(DelimiterCell(a)) && Trimmed("---")
  {
    SpanIs("---", c => c == '-', 3);
  }

  lemma {:induction false} ReadDelimiters(alignments: seq<Alignment>)
    ensures ReadAlignments(DelimiterCells(alignments)) == Some(Somes(alignments))
    ensures |DelimiterCells(alignments)| == |Somes(alignments)| == |alignments|
    ensures AllTrimmed(DelimiterCells(alignments))
    ensures forall k :: 0 <= k < |alignments| ==>
      var cell := DelimiterCells(alignments)[k]; '\\' !in cell && '|' !in cell && '\n' !in cell
  {
    if alignments != [] {
      ReadDelimiterCell(alignments[0]);
      ReadDelimiters(alignments[1..]);
    }
  }

  lemma {:induction false} ReadPlainDelimiters(n: nat)
    ensures ReadAlignments(PlainDelimiters(n)) == Some(Nones(n))
    ensures |PlainDelimiters(n)| == |Nones(n)| == n
    ensures AllTrimmed(PlainDelimiters(n))
    ensures forall k :: 0 <= k < n ==> PlainDelimiters(n)[k] == "---"
  {
    if n > 0 {
      ReadDelimiterCell(Left);
      ReadPlainDelimiters(n - 1);
    }
  }

  lemma DelimiterRowReads(table: Table)
    requires WellFormed(table) && table.headers != []
    ensures ReadAlignments(ReadRow(TableDelimiterRow(table.alignments, |table.headers|)))
         == Some(AlignmentList(table.alignments, |table.headers|))
    ensures |AlignmentList(table.alignments, |table.headers|)| == |table.headers|
  {
    hide ReadRow, WellFormed;
    var n := |table.headers|;
    var cells := if table.alignments.None? then PlainDelimiters(n) else DelimiterCells(table.alignments.value);
    if table.alignments.None? {
      ReadPlainDelimiters(n);
    } else {
      assert |table.alignments.value| == n by { AlignmentsFit(table); }
      ReadDelimiters(table.alignments.value);
    }
    EscapeIdle(cells);
    RowRoundTrip(cells);
  }

  lemma AlignmentsFit(table: Table)
    requires WellFormed(table)
    ensures table.alignments.Some? ==> |table.alignments.value| == |table.headers|
    ensures AllTrimmed(table.headers)
  {
    LinesAreTrimmed(table.headers);
  }

  lemma {:induction false} LinesAreTrimmed(values: seq<string>)
    requires AllLines(values)
    ensures AllTrimmed(values)
  {
    if values != [] {
      LinesAreTrimmed(values[1..]);
    }
  }

  lemma {:induction false} RowsRead(rows: seq<seq<string>>, width: nat)
    requires width > 0 && AllWide(rows, width) && AllRowLines(rows)
    ensures ReadRows(TableRows(rows)) == rows
  {
    hide ReadRow, TableRow;
    if rows != [] {
      LinesAreTrimmed(rows[0]);
      RowRoundTrip(rows[0]);
      RowsRead(rows[1..], width);
    }
  }

  /** The table round trip: header, delimiter row and every data row read back to the normalised table. */
  lemma TableRoundTrip(table: Table)
    requires WellFormed(table) && table.headers != []
    ensures ReadTable(TableGrid(table))
         == Some(ReadResult(table.headers, AlignmentList(table.alignments, |table.headers|), table.rows))
  {
    hide ReadRow, TableRow, TableDelimiterRow, AlignmentList;
    AlignmentsFit(table);
    RowRoundTrip(table.headers);
    DelimiterRowReads(table);
    RowsRead(table.rows, |table.headers|);
    assert TableGrid(table)[2..] == TableRows(table.rows);
  }
}
