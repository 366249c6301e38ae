/** Bullet runs: the forest a run describes, how it prints, and a reader of list indentation (section 5.2 of the CommonMark spec). */
module BulletLists {
  import opened Text
  import opened Escape
  import opened Blocks
  import BodyItems

  /** An ordered forest: a first tree (its root and the forest below it) and the trees after it. */
  datatype Forest<T> = Empty | Tree(root: T, children: Forest<T>, siblings: Forest<T>)

  /** Roots and descendants in reading order, each with its column; every level is `width` further right. */
  function Preorder<T>(f: Forest<T>, column: nat, width: nat): seq<(nat, T)> {
    match f
    case Empty => []
    case Tree(root, children, siblings) =>
      [(column, root)] + Preorder(children, column + width, width) + Preorder(siblings, column, width)
  }

  /**
   * The list items at `column` or deeper at the head of `items`, and the items behind them. An item belongs below
   * the item before it exactly when it starts at or behind that item's own column plus its marker width.
   */
  function ReadForest<T>(items: seq<(nat, T)>, column: nat, width: nat): (r: (Forest<T>, seq<(nat, T)>))
    ensures |r.1| <= |items|
    decreases |items|
  {
    if items == [] || items[0].0 < column then (Empty, items)
    else
      var below := ReadForest(items[1..], items[0].0 + width, width);
      var beside := ReadForest(below.1, column, width);
      (Tree(items[0].1, below.0, beside.0), beside.1)
  }

  /** Each item is at most one level deeper than the item before it. */
  predicate Climbs<T>(items: seq<(nat, T)>) {
    |items| > 1 ==> items[1].0 <= items[0].0 + 1 && Climbs(items[1..])
  }

  lemma Reassemble<T>(items: seq<T>, a: seq<T>, b: seq<T>, last: seq<T>)
    requires items != [] && items[1..] == a + (b + last)
    ensures [items[0]] + a + b + last == items
  {
    assert items == [items[0]] + items[1..];
  }

  /** Reading stops in front of an item further left, and what is left still climbs. */
  lemma {:induction false} ReadingStops<T>(items: seq<(nat, T)>, depth: nat)
    requires Climbs(items) && (items != [] ==> items[0].0 <= depth)
    ensures var rest := ReadForest(items, depth, 1).1;
      Climbs(rest) && (rest != [] ==> rest[0].0 < depth)
    decreases |items|
  {
    if items != [] && items[0].0 >= depth {
      ReadingStops(items[1..], depth + 1);
      ReadingStops(ReadForest(items[1..], depth + 1, 1).1, depth);
    }
  }

  lemma {:induction false} ReadThenWrite<T>(items: seq<(nat, T)>, depth: nat)
    requires Climbs(items) && (items != [] ==> items[0].0 <= depth)
    ensures Preorder(ReadForest(items, depth, 1).0, depth, 1) + ReadForest(items, depth, 1).1 == items
    decreases |items|
  {
    if items != [] && items[0].0 >= depth {
      var below := ReadForest(items[1..], depth + 1, 1);
      var beside := ReadForest(below.1, depth, 1);
      ReadThenWrite(items[1..], depth + 1);
      ReadingStops(items[1..], depth + 1);
      ReadThenWrite(below.1, depth);
      Reassemble(items, Preorder(below.0, depth + 1, 1), Preorder(beside.0, depth, 1), beside.1);
      assert items[0] == (depth, items[0].1);
    }
  }

  lemma {:induction false} WriteThenRead<T>(f: Forest<T>, column: nat, width: nat, rest: seq<(nat, T)>)
    requires width > 0 && (rest != [] ==> rest[0].0 < column)
    ensures ReadForest(Preorder(f, column, width) + rest, column, width) == (f, rest)
  {
    match f
    case Empty =>
      assert Preorder(f, column, width) + rest == rest;
    case Tree(root, children, siblings) =>
      var after := Preorder(siblings, column, width) + rest;
      SiblingsStart(siblings, column, width, rest);
      WriteThenRead(children, column + width, width, after);
      WriteThenRead(siblings, column, width, rest);
      hide Preorder;
      PreorderOfTree(f, column, width, rest);
      ReadTree(root, Preorder(children, column + width, width) + after, column, width);
  }

  /** What follows a tree on its level starts no deeper. */
  lemma SiblingsStart<T>(siblings: Forest<T>, column: nat, width: nat, rest: seq<(nat, T)>)
    requires rest != [] ==> rest[0].0 < column
    ensures var after := Preorder(siblings, column, width) + rest; after != [] ==> after[0].0 <= column
  {
    if siblings.Empty? {
      assert Preorder(siblings, column, width) + rest == rest;
    }
  }

  lemma PreorderOfTree<T>(f: Forest<T>, column: nat, width: nat, rest: seq<(nat, T)>)
    requires f.Tree?
    ensures Preorder(f, column, width) + rest
         == [(column, f.root)] + (Preorder(f.children, column + width, width) + (Preorder(f.siblings, column, width) + rest))
  {
  }

  lemma ReadTree<T>(root: T, behind: seq<(nat, T)>, column: nat, width: nat)
    ensures var below := ReadForest(behind, column + width, width);
      var beside := ReadForest(below.1, column, width);
      ReadForest([(column, root)] + behind, column, width) == (Tree(root, below.0, beside.0), beside.1)
  {
    assert ([(column, root)] + behind)[1..] == behind;
  }

  // ----- _render_bullet -----

  function Indentation(depth: nat): (r: string)
    ensures |r| == 2 * depth
  {
    if depth == 0 then "" else "  " + Indentation(depth - 1)
  }

  function Marker(checked: Option<bool>): string {
    match checked
    case None => "- "
    case Some(true) => "- [x] "
    case Some(false) => "- [ ] "
  }

  function BulletLine(bullet: BodyItem): string
    requires bullet.Bullet?
  {
    Indentation(bullet.depth) + Marker(bullet.checked) + EscapeBlockStart(bullet.content)
  }

  predicate AllBullets(run: seq<BodyItem>) {
    run != [] ==> run[0].Bullet? && AllBullets(run[1..])
  }

  function BulletLines(run: seq<BodyItem>): (r: seq<string>)
    requires AllBullets(run)
    ensures |r| == |run|
  {
    if run == [] then [] else [BulletLine(run[0])] + BulletLines(run[1..])
  }

  /** What a reader sees of a bullet: its checkbox and its text. */
  type Entry = (Option<bool>, string)

  function EntryOf(bullet: BodyItem): Entry
    requires bullet.Bullet?
  {
    (bullet.checked, EscapeBlockStart(bullet.content))
  }

  function Entries(run: seq<BodyItem>): seq<(nat, Entry)>
    requires AllBullets(run)
  {
    if run == [] then [] else [(run[0].depth, EntryOf(run[0]))] + Entries(run[1..])
  }

  // ----- The reader -----

  /** A bullet's column, checkbox and text. */
  function ReadBullet(line: string): Option<(nat, Entry)> {
    var n := Span(line, c => c == ' ');
    var item := line[n..];
    if !("- " <= item) then None
    else if "- [x] " <= item then Some((n, (Some(true), item[6..])))
    else if "- [ ] " <= item then Some((n, (Some(false), item[6..])))
    else Some((n, (None, item[2..])))
  }

  function ReadBullets(lines: seq<string>): Option<seq<(nat, Entry)>> {
    if lines == [] then Some([])
    else
      match (ReadBullet(lines[0]), ReadBullets(lines[1..]))
      case (Some(b), Some(rest)) => Some([b] + rest)
      case _ => None
  }

  /** The bullet list a reader finds in the lines, if every line is a list item. */
  function ReadList(lines: seq<string>): Option<Forest<Entry>> {
    match ReadBullets(lines)
    case None => None
    case Some(items) =>
      var (f, rest) := ReadForest(items, 0, 2);
      if rest == [] then Some(f) else None
  }

  lemma {:induction false} IndentationIsSpaces(depth: nat, i: nat)
    requires i < 2 * depth
    ensures Indentation(depth)[i] == ' '
  {
    if i >= 2 {
      IndentationIsSpaces(depth - 1, i - 2);
    }
  }

  lemma NoBracket(content: string)
    ensures EscapeBlockStart(content) != "" ==> EscapeBlockStart(content)[0] != '['
  {
    hide EscapeBlockStart;
    EscapeOpensNoBlock(content);
  }

  lemma MarkerReads(checked: Option<bool>, text: string)
    requires text != "" ==> text[0] != '['
    ensures var item := Marker(checked) + text;
      && "- " <= item
      && ("- [x] " <= item <==> checked == Some(true))
      && ("- [ ] " <= item <==> checked == Some(false))
  {
    var marker := Marker(checked);
    var item := marker + text;
    if checked.None? {
      assert |item| > 2 ==> item[2] == text[0];
    } else {
      assert item[3] == marker[3];
    }
  }

  /** The reader gets depth, checkbox and text back: no bullet text can pass for a checkbox or an indentation. */
  lemma BulletReads(bullet: BodyItem)
    requires bullet.Bullet?
    ensures ReadBullet(BulletLine(bullet)) == Some((2 * bullet.depth, EntryOf(bullet)))
  {
    hide EscapeBlockStart, OpensNoBlock;
    var line := BulletLine(bullet);
    var text := EscapeBlockStart(bullet.content);
    var n := 2 * bullet.depth;
    var marker := Marker(bullet.checked);
    NoBracket(bullet.content);
    forall i | 0 <= i < n
      ensures line[i] == ' '
    {
      IndentationIsSpaces(bullet.depth, i);
    }
    SpanIs(line, c => c == ' ', n);
    assert line[n..] == marker + text;
    MarkerReads(bullet.checked, text);
    assert (marker + text)[|marker|..] == text;
  }

  /** The same entries, two columns per level. */
  function Doubled<T>(items: seq<(nat, T)>): seq<(nat, T)> {
    if items == [] then [] else [(2 * items[0].0, items[0].1)] + Doubled(items[1..])
  }

  lemma {:induction false} DoubledConcat<T>(a: seq<(nat, T)>, b: seq<(nat, T)>)
    ensures Doubled(a + b) == Doubled(a) + Doubled(b)
  {
    if a == [] {
      assert a + b == b;
    } else {
      DoubledConcat(a[1..], b);
      assert (a + b)[1..] == a[1..] + b;
      Regroup([(2 * a[0].0, a[0].1)], Doubled(a[1..]), Doubled(b));
    }
  }

  lemma {:induction false} PreorderDoubles<T>(f: Forest<T>, depth: nat)
    ensures Preorder(f, 2 * depth, 2) == Doubled(Preorder(f, depth, 1))
  {
    match f
    case Empty =>
    case Tree(root, children, siblings) =>
      PreorderDoubles(children, depth + 1);
      PreorderDoubles(siblings, depth);
      var a, b := Preorder(children, depth + 1, 1), Preorder(siblings, depth, 1);
      DoubledConcat([(depth, root)] + a, b);
      DoubledConcat([(depth, root)], a);
  }

  lemma {:induction false} BulletLinesRead(run: seq<BodyItem>)
    requires AllBullets(run)
    ensures ReadBullets(BulletLines(run)) == Some(Doubled(Entries(run)))
  {
    hide EscapeBlockStart, BulletLine, ReadBullet, EntryOf;
    if run != [] {
      BulletReads(run[0]);
      BulletLinesRead(run[1..]);
      var e := Entries(run);
      assert e[0] == (run[0].depth, EntryOf(run[0])) && e[1..] == Entries(run[1..]);
      assert BulletLines(run)[1..] == BulletLines(run[1..]);
    }
  }

  lemma {:induction false} NestedRunClimbs(run: seq<BodyItem>, previous: Option<nat>)
    requires AllBullets(run) && BodyItems.NestsFrom(run, previous)
    ensures Climbs(Entries(run))
    ensures run != [] && previous.None? ==> run[0].depth == 0
  {
    hide EntryOf;
    if run != [] {
      NestedRunClimbs(run[1..], BodyItems.DepthAfter(run[0]));
      assert Entries(run)[1..] == Entries(run[1..]);
      if |run| > 1 {
        assert Entries(run)[1].0 == run[1].depth;
        assert run[1..][0] == run[1];
      }
    }
  }

  /** The forest a run of bullets describes. */
  function RunForest(run: seq<BodyItem>): Forest<Entry>
    requires AllBullets(run)
  {
    ReadForest(Entries(run), 0, 1).0
  }

  /** A climbing sequence from depth 0 is the preorder of one forest, whose columns read back to it. */
  lemma ClimbingIsPreorder<T>(items: seq<(nat, T)>)
    requires Climbs(items) && (items != [] ==> items[0].0 == 0)
    ensures Preorder(ReadForest(items, 0, 1).0, 0, 1) == items
    ensures ReadForest(Doubled(items), 0, 2) == (ReadForest(items, 0, 1).0, [])
  {
    ReadThenWrite(items, 0);
    ReadingStops(items, 0);
    var f := ReadForest(items, 0, 1).0;
    assert Preorder(f, 0, 1) + [] == Preorder(f, 0, 1);
    PreorderDoubles(f, 0);
    WriteThenRead(f, 0, 2, []);
    assert Doubled(items) + [] == Doubled(items);
  }

  lemma PreorderDetermines<T>(f: Forest<T>, items: seq<(nat, T)>)
    requires Preorder(f, 0, 1) == items
    ensures f == ReadForest(items, 0, 1).0
  {
    WriteThenRead(f, 0, 1, []);
    assert items + [] == items;
  }

  /**
   * Every accepted run is the preorder of its forest and of no other, and the reader of the printed lines, which
   * sees only columns and markers, rebuilds that forest.
   */
  lemma BulletRoundTrip(run: seq<BodyItem>)
    requires AllBullets(run) && BodyItems.NestsFrom(run, None)
    ensures Preorder(RunForest(run), 0, 1) == Entries(run)
    ensures forall f: Forest<Entry> :: Preorder(f, 0, 1) == Entries(run) ==> f == RunForest(run)
    ensures ReadList(BulletLines(run)) == Some(RunForest(run))
  {
    hide EntryOf, BulletLines, Preorder, ReadForest, Climbs, Doubled, ReadBullets;
    NestedRunClimbs(run, None);
    ClimbingIsPreorder(Entries(run));
    forall f: Forest<Entry> | Preorder(f, 0, 1) == Entries(run)
      ensures f == RunForest(run)
    {
      PreorderDetermines(f, Entries(run));
    }
    BulletLinesRead(run);
  }
}
