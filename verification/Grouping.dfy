/** Printing a body field: maximal bullet runs and single blocks, one blank line apart. */
module Grouping {
  import opened Text
  import opened Escape
  import opened Blocks
  import P = Paragraph
  import Fence
  import Tables
  import BulletLists

  // ----- _render_quote and the other section-level blocks -----

  function EscapedQuoteLines(lines: seq<string>): seq<string> {
    if lines == [] then [] else ["> " + EscapeBlockStart(lines[0])] + EscapedQuoteLines(lines[1..])
  }

  function QuoteHeader(quote: Quote): seq<string> {
    if quote.callout.None? || quote.callout.value == "" then []
    else
      ["> [!" + quote.callout.value + "]"
       + (if quote.title.Some? && quote.title.value != "" then " " + quote.title.value else "")]
  }

  function QuoteLines(quote: Quote): seq<string> {
    QuoteHeader(quote) + EscapedQuoteLines(quote.lines)
  }

  function QuoteText(quote: Quote): string {
    Join(QuoteLines(quote), "\n")
  }

  function TopLevelCode(code: Code): string {
    Join(Fence.CodeLines(code, ""), "\n")
  }

  function BlockText(item: BodyItem): string
    requires !item.Bullet?
  {
    match item
    case Paragraph(lines) => P.ParagraphText(lines)
    case CodeItem(code) => TopLevelCode(code)
    case TableItem(table) => Tables.TableText(table)
    case QuoteItem(quote) => QuoteText(quote)
  }

  // ----- The grouping -----

  function BulletSpan(items: seq<BodyItem>): (n: nat)
    ensures n <= |items|
    ensures n < |items| ==> !items[n].Bullet?
    ensures BulletLists.AllBullets(items[..n])
  {
    if items == [] || !items[0].Bullet? then 0
    else
      var n := 1 + BulletSpan(items[1..]);
      assert items[..n][1..] == items[1..][..n - 1];
      n
  }

  /** One group per maximal bullet run and one per other item. */
  function Groups(items: seq<BodyItem>): seq<seq<BodyItem>>
    decreases |items|
  {
    if items == [] then []
    else
      var n := if items[0].Bullet? then BulletSpan(items) else 1;
      [items[..n]] + Groups(items[n..])
  }

  predicate IsGroup(group: seq<BodyItem>) {
    group != [] && (BulletLists.AllBullets(group) || (|group| == 1 && !group[0].Bullet?))
  }

  function GroupText(group: seq<BodyItem>): string
    requires IsGroup(group)
  {
    if group[0].Bullet? then Join(BulletLists.BulletLines(group), "\n") else BlockText(group[0])
  }

  /** Groups, none of them empty, and no two neighbouring bullet runs. */
  predicate Grouped(groups: seq<seq<BodyItem>>) {
    groups != [] ==>
      && IsGroup(groups[0])
      && (|groups| > 1 && groups[1] != [] ==> !(groups[0][0].Bullet? && groups[1][0].Bullet?))
      && Grouped(groups[1..])
  }

  function Flatten(groups: seq<seq<BodyItem>>): seq<BodyItem> {
    if groups == [] then [] else groups[0] + Flatten(groups[1..])
  }

  function GroupTexts(groups: seq<seq<BodyItem>>): seq<string>
    requires Grouped(groups)
  {
    if groups == [] then [] else [GroupText(groups[0])] + GroupTexts(groups[1..])
  }

  lemma {:induction false} GroupsAreGrouped(items: seq<BodyItem>)
    ensures Grouped(Groups(items))
    ensures Flatten(Groups(items)) == items
    ensures items != [] ==> Groups(items) != [] && Groups(items)[0] != [] && Groups(items)[0][0] == items[0]
    decreases |items|
  {
    if items != [] {
      var n := if items[0].Bullet? then BulletSpan(items) else 1;
      assert n > 0;
      GroupsAreGrouped(items[n..]);
      assert Groups(items)[1..] == Groups(items[n..]);
      assert items[..n] + items[n..] == items;
    }
  }

  /** The bullet span of a run that ends in front of something else. */
  lemma {:induction false} SpanOfRun(run: seq<BodyItem>, rest: seq<BodyItem>)
    requires BulletLists.AllBullets(run) && (rest != [] ==> !rest[0].Bullet?)
    ensures BulletSpan(run + rest) == |run|
  {
    if run == [] {
      assert run + rest == rest;
    } else {
      SpanOfRun(run[1..], rest);
      assert (run + rest)[1..] == run[1..] + rest;
    }
  }

  /**
   * Nothing lost, repeated or merged: the groups are the only division of the items, in their order, into maximal
   * bullet runs and single other items.
   */
  lemma {:induction false} GroupingIsUnique(groups: seq<seq<BodyItem>>)
    requires Grouped(groups)
    ensures Groups(Flatten(groups)) == groups
  {
    if groups != [] {
      var rest := Flatten(groups[1..]);
      GroupingIsUnique(groups[1..]);
      var items := Flatten(groups);
      assert items == groups[0] + rest;
      if groups[0][0].Bullet? {
        assert rest != [] ==> !rest[0].Bullet?;
        SpanOfRun(groups[0], rest);
      }
      var n := |groups[0]|;
      assert items[..n] == groups[0] && items[n..] == rest;
    }
  }

  // ----- _render_body_items -----

  /** The texts of the groups of `items`. */
  function Texts(items: seq<BodyItem>): seq<string> {
    GroupsAreGrouped(items);
    GroupTexts(Groups(items))
  }

  function BodyText(items: seq<BodyItem>): string {
    Join(Texts(items), "\n\n")
  }

  /** The buffer flushes in front of any other block, and nowhere else. */
  lemma TextsStep(run: seq<BodyItem>, item: BodyItem, rest: seq<BodyItem>)
    requires BulletLists.AllBullets(run) && !item.Bullet?
    ensures Texts(run + [item] + rest)
         == (if run == [] then [] else [Join(BulletLists.BulletLines(run), "\n")]) + [BlockText(item)] + Texts(rest)
  {
    hide BlockText;
    var tail := [item] + rest;
    GroupsAreGrouped(tail);
    GroupsAreGrouped(rest);
    assert tail[..1] == [item] && tail[1..] == rest;
    assert Groups(tail) == [[item]] + Groups(rest);
    assert Groups(tail)[1..] == Groups(rest);
    assert Texts(tail) == [BlockText(item)] + Texts(rest);
    hide Groups, Texts, GroupTexts;
    var items := run + [item] + rest;
    assert items == run + tail;
    if run != [] {
      TextsOfRun(run, tail);
      Regroup([Join(BulletLists.BulletLines(run), "\n")], [BlockText(item)], Texts(rest));
    } else {
      assert items == tail;
    }
  }

  lemma TextsOfRun(run: seq<BodyItem>, tail: seq<BodyItem>)
    requires run != [] && BulletLists.AllBullets(run) && (tail != [] ==> !tail[0].Bullet?)
    ensures Texts(run + tail) == [Join(BulletLists.BulletLines(run), "\n")] + Texts(tail)
  {
    hide BlockText;
    var items := run + tail;
    SpanOfRun(run, tail);
    GroupsAreGrouped(items);
    GroupsAreGrouped(tail);
    assert items[..|run|] == run && items[|run|..] == tail;
    assert Groups(items) == [run] + Groups(tail);
    assert Groups(items)[1..] == Groups(tail);
  }

  lemma {:induction false} BulletLinesAppend(run: seq<BodyItem>, item: BodyItem)
    requires BulletLists.AllBullets(run) && item.Bullet?
    ensures BulletLists.AllBullets(run + [item])
    ensures BulletLists.BulletLines(run + [item]) == BulletLists.BulletLines(run) + [BulletLists.BulletLine(item)]
  {
    hide BulletLists.BulletLine;
    if run != [] {
      BulletLinesAppend(run[1..], item);
      assert (run + [item])[1..] == run[1..] + [item];
    } else {
      assert run + [item] == [item];
    }
  }

  method RenderBodyItems(items: seq<BodyItem>) returns (text: string)
    ensures text == BodyText(items)
  {
    hide BlockText, BulletLists.BulletLine, Groups, Texts;
    var blocks: seq<string> := [];
    var bulletRun: seq<string> := [];
    ghost var run: seq<BodyItem> := [];
    assert run + items[0..] == items;
    for i := 0 to |items|
      invariant BulletLists.AllBullets(run) && bulletRun == BulletLists.BulletLines(run)
      invariant blocks + Texts(run + items[i..]) == Texts(items)
    {
      var item := items[i];
      assert items[i..] == [item] + items[i + 1..];
      if item.Bullet? {
        BulletLinesAppend(run, item);
        assert run + items[i..] == run + [item] + items[i + 1..];
        bulletRun := bulletRun + [BulletLists.BulletLine(item)];
        run := run + [item];
      } else {
        TextsStep(run, item, items[i + 1..]);
        assert run + items[i..] == run + [item] + items[i + 1..];
        if bulletRun != [] {
          blocks := blocks + [Join(bulletRun, "\n")];
          bulletRun := [];
        }
        var block := RenderBlock(item);
        blocks := blocks + [block];
        run := [];
        assert [] + items[i + 1..] == items[i + 1..];
      }
    }
    NoTexts();
    assert run + items[|items|..] == run && run + [] == run;
    if bulletRun != [] {
      TextsOfRun(run, []);
      blocks := blocks + [Join(bulletRun, "\n")];
    }
    assert blocks == Texts(items);
    text := Join(blocks, "\n\n");
  }

  lemma NoTexts()
    ensures Texts([]) == []
  {
  }

  method RenderBlock(item: BodyItem) returns (text: string)
    requires !item.Bullet?
    ensures text == BlockText(item)
  {
    match item
    case Paragraph(lines) =>
      text := P.RenderParagraph(lines);
    case CodeItem(code) =>
      var lines := Fence.RenderFencedCode(code, "");
      text := Join(lines, "\n");
    case TableItem(table) =>
      text := Tables.TableText(table);
    case QuoteItem(quote) =>
      text := QuoteText(quote);
  }
}
