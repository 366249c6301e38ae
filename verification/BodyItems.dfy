/** Body fields: which block sequences are accepted, and how the survivors are grouped into Markdown blocks. */
module BodyItems {
  import opened Text
  import opened Escape
  import opened Blocks
  import P = Paragraph
  import Fence
  import Tables

  // ----- _normalise_quote, _normalise_code_block -----

  /** Every value as one line, without those that become empty. */
  function NonEmptyLines(values: seq<string>): seq<string> {
    if values == [] then []
    else (if OneLine(values[0]) == "" then [] else [OneLine(values[0])]) + NonEmptyLines(values[1..])
  }

  function NormalQuote(quote: QuoteBlock): Result<Option<Quote>, BlockError> {
    if quote.title.Some? && quote.callout.None? then Err(TitleWithoutCallout)
    else
      var lines := NonEmptyLines(quote.lines);
      Ok(if lines == [] then None else Some(Quote(quote.callout, Tables.OptionalLine(quote.title), lines)))
  }

  function NormalCode(code: CodeBlock): Option<Code> {
    var content := Fence.CanonicaliseCode(code.content);
    if Strip(content) == "" then None
    else Some(Code(code.language, Tables.OptionalLine(code.caption), content))
  }

  // ----- _normalise_body_items -----

  datatype ItemError = ItemError(index: nat, error: BlockError)

  /** One block on its own: dropped, kept, or rejected for its own shape. */
  function NormalItem(item: BodyBlock, index: nat): Result<Option<BodyItem>, BlockError> {
    match item
    case ParagraphBlock(content) =>
      var lines := P.CanonicalLines(content);
      Ok(if lines == [] then None else Some(Paragraph(lines)))
    case BulletBlock(content, depth, checked) =>
      Ok(if OneLine(content) == "" then None else Some(Bullet(OneLine(content), depth, checked, index)))
    case BodyCode(code) =>
      (match NormalCode(code)
       case None => Ok(None)
       case Some(c) => Ok(Some(CodeItem(c))))
    case BodyTable(table) =>
      (match Tables.NormalTable(table)
       case Err(e) => Err(e)
       case Ok(t) => Ok(Some(TableItem(t))))
    case BodyQuote(quote) =>
      match NormalQuote(quote)
      case Err(e) => Err(e)
      case Ok(None) => Ok(None)
      case Ok(Some(q)) => Ok(Some(QuoteItem(q)))
  }

  /** `_check_bullet_depth`; `previous` is the depth of the bullet right before, if a bullet is right before. */
  function DepthError(depth: nat, previous: Option<nat>): Option<BlockError> {
    match previous
    case None => if depth != 0 then Some(DepthStart(depth)) else None
    case Some(p) => if depth > p + 1 then Some(DepthJump(p, depth)) else None
  }

  function DepthAfter(item: BodyItem): Option<nat> {
    if item.Bullet? then Some(item.depth) else None
  }

  function NormalItems(items: seq<BodyBlock>, index: nat, previous: Option<nat>): Result<seq<BodyItem>, ItemError> {
    if items == [] then Ok([])
    else
      match NormalItem(items[0], index)
      case Err(e) => Err(ItemError(index, e))
      case Ok(None) => NormalItems(items[1..], index + 1, previous)
      case Ok(Some(item)) =>
        if item.Bullet? && DepthError(item.depth, previous).Some? then
          Err(ItemError(index, DepthError(item.depth, previous).value))
        else
          match NormalItems(items[1..], index + 1, DepthAfter(item))
          case Err(e) => Err(e)
          case Ok(rest) => Ok([item] + rest)
  }

  method CheckBulletDepth(depth: nat, previous: Option<nat>) returns (error: Option<BlockError>)
    ensures error.None? <==> match previous case None => depth == 0 case Some(p) => depth <= p + 1
    ensures error == DepthError(depth, previous)
  {
    if previous.None? {
      if depth != 0 {
        return Some(DepthStart(depth));
      }
      return None;
    }
    if depth > previous.value + 1 {
      return Some(DepthJump(previous.value, depth));
    }
    error := None;
  }

  /** What is left to do, seen from inside the loop. */
  function Continue(done: seq<BodyItem>, rest: Result<seq<BodyItem>, ItemError>): Result<seq<BodyItem>, ItemError> {
    match rest
    case Err(e) => Err(e)
    case Ok(items) => Ok(done + items)
  }

  lemma ContinueWith(done: seq<BodyItem>, item: BodyItem, rest: Result<seq<BodyItem>, ItemError>)
    ensures Continue(done + [item], rest)
         == Continue(done, match rest case Err(e) => Err(e) case Ok(items) => Ok([item] + items))
  {
    if rest.Ok? {
      assert done + [item] + rest.value == done + ([item] + rest.value);
    }
  }

  method NormaliseBodyItems(items: seq<BodyBlock>) returns (r: Result<seq<BodyItem>, ItemError>)
    ensures r == NormalItems(items, 0, None)
  {
    hide OneLine, Fence.CanonicaliseCode, P.CanonicalLines, NormalCode, NormalQuote, Tables.NormalTable;
    var result: seq<BodyItem> := [];
    var previousDepth: Option<nat> := None;
    assert items[0..] == items && Continue([], NormalItems(items, 0, None)) == NormalItems(items, 0, None) by {
      if NormalItems(items, 0, None).Ok? {
        assert [] + NormalItems(items, 0, None).value == NormalItems(items, 0, None).value;
      }
    }
    for index := 0 to |items|
      invariant Continue(result, NormalItems(items[index..], index, previousDepth)) == NormalItems(items, 0, None)
    {
      var item := items[index];
      ghost var before := result;
      assert items[index..][0] == item && items[index..][1..] == items[index + 1..];
      match item {
        case ParagraphBlock(content) =>
          var lines := P.CanonicaliseParagraph(content);
          if lines != [] {
            result := result + [Paragraph(lines)];
            previousDepth := None;
          }
        case BulletBlock(raw, depth, checked) =>
          var content := OneLine(raw);
          if content != "" {
            var error := CheckBulletDepth(depth, previousDepth);
            if error.Some? {
              return Err(ItemError(index, error.value));
            }
            result := result + [Bullet(content, depth, checked, index)];
            previousDepth := Some(depth);
          }
        case BodyCode(raw) =>
          var code := NormalCode(raw);
          if code.Some? {
            result := result + [CodeItem(code.value)];
            previousDepth := None;
          }
        case BodyTable(raw) =>
          var table := Tables.NormaliseTable(raw);
          if table.Err? {
            return Err(ItemError(index, table.error));
          }
          result := result + [TableItem(table.value)];
          previousDepth := None;
        case BodyQuote(raw) =>
          var quote := NormalQuote(raw);
          if quote.Err? {
            return Err(ItemError(index, quote.error));
          }
          if quote.value.Some? {
            result := result + [QuoteItem(quote.value.value)];
            previousDepth := None;
          }
      }
      if result != before {
        ContinueWith(before, result[|before|], NormalItems(items[index + 1..], index + 1, previousDepth));
      }
    }
    assert result + [] == result;
    r := Ok(result);
  }

  // ----- Which sequences are accepted -----

  /** Everything that survives on its own, the bullets' depths not yet looked at. */
  function Survivors(items: seq<BodyBlock>, index: nat): Result<seq<BodyItem>, ItemError> {
    if items == [] then Ok([])
    else
      match (NormalItem(items[0], index), Survivors(items[1..], index + 1))
      case (Err(e), _) => Err(ItemError(index, e))
      case (Ok(_), Err(e)) => Err(e)
      case (Ok(None), Ok(rest)) => Ok(rest)
      case (Ok(Some(item)), Ok(rest)) => Ok([item] + rest)
  }

  /** Item `k` may stand where it stands: only a bullet can be out of place. */
  predicate WellPlaced(items: seq<BodyItem>, k: nat)
    requires k < |items|
  {
    items[k].Bullet? ==>
      if k == 0 || !items[k - 1].Bullet? then items[k].depth == 0
      else items[k].depth <= items[k - 1].depth + 1
  }

  /** Every maximal run of bullets starts at depth 0 and never rises by more than one. */
  predicate RunsNest(items: seq<BodyItem>) {
    forall k :: 0 <= k < |items| ==> WellPlaced(items, k)
  }

  /** The same, item by item, with the previous depth carried along. */
  predicate NestsFrom(items: seq<BodyItem>, previous: Option<nat>) {
    items == [] || (
      && (items[0].Bullet? ==> DepthError(items[0].depth, previous).None?)
      && NestsFrom(items[1..], DepthAfter(items[0])))
  }

  lemma {:induction false} NestsFromAt(items: seq<BodyItem>, previous: Option<nat>)
    ensures NestsFrom(items, previous) <==> (
      && (items != [] && items[0].Bullet? ==> DepthError(items[0].depth, previous).None?)
      && forall k :: 1 <= k < |items| ==> WellPlaced(items, k))
  {
    if items != [] {
      var rest := items[1..];
      NestsFromAt(rest, DepthAfter(items[0]));
      assert forall k :: 1 <= k < |rest| ==> (WellPlaced(rest, k) <==> WellPlaced(items, k + 1));
      if rest != [] {
        assert WellPlaced(items, 1) <==> (rest[0].Bullet? ==> DepthError(rest[0].depth, DepthAfter(items[0])).None?);
      }
      if NestsFrom(rest, DepthAfter(items[0])) {
        forall k | 1 <= k < |items|
          ensures WellPlaced(items, k)
        {
          assert k > 1 ==> WellPlaced(rest, k - 1);
        }
      }
    }
  }

  lemma {:induction false} AcceptedFrom(items: seq<BodyBlock>, index: nat, previous: Option<nat>)
    ensures var r, s := NormalItems(items, index, previous), Survivors(items, index);
      && (r.Ok? <==> s.Ok? && NestsFrom(s.value, previous))
      && (r.Ok? ==> r == s)
  {
    hide NormalItem;
    if items != [] {
      var item := NormalItem(items[0], index);
      if item.Ok? && item.value.Some? {
        AcceptedFrom(items[1..], index + 1, DepthAfter(item.value.value));
        var s := Survivors(items[1..], index + 1);
        if s.Ok? {
          assert ([item.value.value] + s.value)[1..] == s.value;
        }
      } else {
        AcceptedFrom(items[1..], index + 1, previous);
      }
    }
  }

  /**
   * A sequence is accepted exactly when every block is well formed and, among the survivors (so across dropped
   * blocks), the bullet runs nest; the result is then the survivors in order.
   */
  lemma Acceptance(items: seq<BodyBlock>)
    ensures var r, s := NormalItems(items, 0, None), Survivors(items, 0);
      && (r.Ok? <==> s.Ok? && RunsNest(s.value))
      && (r.Ok? ==> r == s)
  {
    hide NormalItem;
    AcceptedFrom(items, 0, None);
    var s := Survivors(items, 0);
    if s.Ok? {
      NestsFromAt(s.value, None);
      assert s.value != [] ==> (WellPlaced(s.value, 0) <==> (s.value[0].Bullet? ==> DepthError(s.value[0].depth, None).None?));
    }
  }

  /** A rejection names the first block that cannot be accepted behind the blocks before it. */
  lemma {:induction false} RejectionIsFirst(items: seq<BodyBlock>, index: nat, previous: Option<nat>)
    requires NormalItems(items, index, previous).Err?
    ensures var k := NormalItems(items, index, previous).error.index - index;
      && 0 <= k < |items|
      && NormalItems(items[..k], index, previous).Ok?
      && NormalItems(items[..k + 1], index, previous) == NormalItems(items, index, previous)
  {
    hide NormalItem;
    var item := NormalItem(items[0], index);
    var next := if item.Ok? && item.value.Some? then DepthAfter(item.value.value) else previous;
    var k := NormalItems(items, index, previous).error.index - index;
    if item.Ok? && NormalItems(items[1..], index + 1, next).Err?
       && !(item.value.Some? && item.value.value.Bullet? && DepthError(item.value.value.depth, previous).Some?) {
      RejectionIsFirst(items[1..], index + 1, next);
      assert items[..k][1..] == items[1..][..k - 1];
      assert items[..k + 1][1..] == items[1..][..k];
    } else {
      assert items[..1][1..] == [];
    }
  }
}
