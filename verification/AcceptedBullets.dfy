/** The bullet runs of an accepted body field, as they are printed and read back. */
module AcceptedBullets {
  import opened Text
  import opened Escape
  import opened Blocks
  import opened FlatLines
  import opened BulletLists
  import B = BodyItems
  import G = Grouping
  import Neutral

  /** Every bullet holds one line of text. */
  predicate BulletsHoldText(items: seq<BodyItem>) {
    items != [] ==> (items[0].Bullet? ==> ValidText(items[0].content)) && BulletsHoldText(items[1..])
  }

  lemma NormalBulletHoldsText(block: BodyBlock, index: nat)
    ensures var r := B.NormalItem(block, index);
      r.Ok? && r.value.Some? && r.value.value.Bullet? ==> ValidText(r.value.value.content)
  {
    hide OneLine, IsLine, B.NormalCode, B.NormalQuote;
    if block.BulletBlock? {
      OneLineIsLine(block.content);
    }
  }

  lemma {:induction false} AcceptedHoldText(blocks: seq<BodyBlock>, index: nat, previous: Option<nat>)
    ensures var r := B.NormalItems(blocks, index, previous); r.Ok? ==> BulletsHoldText(r.value)
  {
    hide B.NormalItem, ValidText;
    if blocks != [] {
      NormalBulletHoldsText(blocks[0], index);
      var item := B.NormalItem(blocks[0], index);
      var next := if item.Ok? && item.value.Some? then B.DepthAfter(item.value.value) else previous;
      AcceptedHoldText(blocks[1..], index + 1, next);
      var r := B.NormalItems(blocks, index, previous);
      if r.Ok? && item.value.Some? {
        assert r.value[1..] == B.NormalItems(blocks[1..], index + 1, next).value;
      }
    }
  }

  /** A run in front of something that is no bullet nests on its own, and what follows starts afresh. */
  lemma {:induction false} RunNests(items: seq<BodyItem>, n: nat, previous: Option<nat>)
    requires n <= |items| && B.NestsFrom(items, previous) && BulletsHoldText(items)
    ensures B.NestsFrom(items[..n], previous) && BulletsHoldText(items[..n]) && BulletsHoldText(items[n..])
    ensures n < |items| && !items[n].Bullet? ==> B.NestsFrom(items[n..], None)
  {
    hide ValidText;
    if n == 0 {
      assert items[..0] == [] && items[0..] == items;
    } else {
      RunNests(items[1..], n - 1, B.DepthAfter(items[0]));
      assert items[..n][1..] == items[1..][..n - 1] && items[n..] == items[1..][n - 1..];
    }
  }

  /** A bullet run prints as text a list reader takes for exactly its forest, and for no other. */
  ghost predicate ReadsBack(group: seq<BodyItem>) {
    AllBullets(group) ==>
      && Preorder(RunForest(group), 0, 1) == Entries(group)
      && (forall f: Forest<Entry> :: Preorder(f, 0, 1) == Entries(group) ==> f == RunForest(group))
      && (group != [] ==> ReadList(Lines(Join(BulletLines(group), "\n"))) == Some(RunForest(group)))
  }

  ghost predicate AllReadBack(groups: seq<seq<BodyItem>>) {
    groups != [] ==> ReadsBack(groups[0]) && AllReadBack(groups[1..])
  }

  lemma {:induction false} RunIsFlat(run: seq<BodyItem>)
    requires AllBullets(run) && BulletsHoldText(run)
    ensures Flat(BulletLines(run))
  {
    hide BulletLine, FlatLine, ValidText;
    if run != [] {
      Neutral.BulletLineIsSafe(run[0]);
      RunIsFlat(run[1..]);
      assert BulletLines(run)[1..] == BulletLines(run[1..]);
    }
  }

  lemma NestedReadsBack(run: seq<BodyItem>)
    requires AllBullets(run) && B.NestsFrom(run, None) && BulletsHoldText(run)
    ensures ReadsBack(run)
  {
    hide Entries, RunForest, Preorder, ReadList, BulletLines, B.NestsFrom, AllBullets, BulletsHoldText;
    BulletRoundTrip(run);
    if run != [] {
      RunIsFlat(run);
      FlatSplit(BulletLines(run));
    }
  }

  lemma OtherReadsBack(item: BodyItem)
    requires !item.Bullet?
    ensures ReadsBack([item])
  {
    hide Entries, RunForest, Preorder, ReadList, BulletLines;
    assert !AllBullets([item]);
  }

  lemma {:induction false} GroupsReadBack(items: seq<BodyItem>)
    requires B.NestsFrom(items, None) && BulletsHoldText(items)
    ensures AllReadBack(G.Groups(items))
    decreases |items|
  {
    hide ReadsBack, B.DepthError, ValidText, AllBullets;
    if items != [] {
      var n := if items[0].Bullet? then G.BulletSpan(items) else 1;
      RunNests(items, n, None);
      if items[0].Bullet? {
        NestedReadsBack(items[..n]);
        if n == |items| {
          assert items[n..] == [];
        }
      } else {
        assert items[..1] == [items[0]];
        OtherReadsBack(items[0]);
      }
      GroupsReadBack(items[n..]);
      assert G.Groups(items)[1..] == G.Groups(items[n..]);
    }
  }

  /** Of every body field the normaliser accepts, each bullet list is read back as the forest the client sent. */
  lemma AcceptedBulletsReadBack(blocks: seq<BodyBlock>)
    requires B.NormalItems(blocks, 0, None).Ok?
    ensures AllReadBack(G.Groups(B.NormalItems(blocks, 0, None).value))
  {
    hide B.NormalItem, ReadsBack, BulletsHoldText, G.Groups;
    B.AcceptedFrom(blocks, 0, None);
    AcceptedHoldText(blocks, 0, None);
    GroupsReadBack(B.NormalItems(blocks, 0, None).value);
  }
}
