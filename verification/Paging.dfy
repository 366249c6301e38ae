/** Following `next_cursor` from page to page, for searches and tree listings alike. */
module Paging {
  import opened Text
  import opened Cursor
  import opened Search

  const MAX_SEARCH_LIMIT := 200
  const MAX_TREE_LIMIT := 500

  datatype RequestError = LimitOutOfRange | InvalidCursor(why: Rejection)

  datatype Response<T> = Response(results: seq<T>, next: Option<string>)

  /** `_cursor_offset`: an absent or empty cursor starts at 0. */
  function CursorOffset(g: Libraries, operation: string, fingerprint: string, cursor: Option<string>): Result<nat, Rejection> {
    if cursor.None? || cursor.value == "" then Ok(0) else DecodeCursor(g, cursor.value, operation, fingerprint)
  }

  /** One page of an order that is the same for every call. */
  function OnePage<T>(g: Libraries, operation: string, fingerprint: string, items: seq<T>, limit: nat, cursor: Option<string>)
    : Result<Response<T>, RequestError>
    requires Plain(operation, fingerprint)
  {
    var start := CursorOffset(g, operation, fingerprint, cursor);
    if start.Err? then Err(InvalidCursor(start.error))
    else
      var page := PageAt(items, start.value, limit);
      if !page.hasMore then Ok(Response(page.hits, None))
      else
        var next := EncodeCursor(g, operation, start.value + |page.hits|, fingerprint);
        if next.Err? then Err(InvalidCursor(next.error)) else Ok(Response(page.hits, Some(next.value)))
  }

  /** `GatewayApplication.search_notes`, over an order already searched. */
  function SearchPage(g: Libraries, fingerprint: string, order: seq<Hit>, maxResults: nat, limit: int, cursor: Option<string>)
    : Result<Response<Hit>, RequestError>
    requires Plain("search", fingerprint)
  {
    if !(1 <= limit <= MAX_SEARCH_LIMIT) then Err(LimitOutOfRange)
    else OnePage(g, "search", fingerprint, order, if limit < maxResults then limit else maxResults, cursor)
  }

  /** `GatewayApplication.get_vault_tree`, over a folder already listed and sorted. */
  function TreePage<T>(g: Libraries, fingerprint: string, children: seq<T>, limit: int, cursor: Option<string>)
    : Result<Response<T>, RequestError>
    requires Plain("tree", fingerprint)
  {
    if !(1 <= limit <= MAX_TREE_LIMIT) then Err(LimitOutOfRange)
    else OnePage(g, "tree", fingerprint, children, limit, cursor)
  }

  /** What the Gateway mints cursors for. */
  ghost predicate Minted(g: Libraries, operation: string, fingerprint: string) {
    && Sound(g) && Plain(operation, fingerprint) && (operation == "search" || operation == "tree")
    && |fingerprint| == 32 && NeedsNoEscape(fingerprint)
  }

  /** A cursor that stands for `offset`. */
  ghost predicate StandsFor(g: Libraries, operation: string, fingerprint: string, cursor: Option<string>, offset: nat) {
    CursorOffset(g, operation, fingerprint, cursor) == Ok(offset)
  }

  lemma MintedStandsFor(g: Libraries, operation: string, fingerprint: string, offset: nat)
    requires Minted(g, operation, fingerprint) && offset <= MAX_OFFSET
    ensures EncodeCursor(g, operation, offset, fingerprint).Ok?
    ensures StandsFor(g, operation, fingerprint, Some(EncodeCursor(g, operation, offset, fingerprint).value), offset)
  {
    hide EncodeCursor, DecodeCursor, Sound;
    EmptyIsNoCursor(g, operation, fingerprint);
    CursorsFit(g, operation, offset, fingerprint);
    CursorRoundTrip(g, operation, offset, fingerprint, operation, fingerprint);
  }

  lemma EmptyIsNoCursor(g: Libraries, operation: string, fingerprint: string)
    ensures DecodeCursor(g, "", operation, fingerprint).Err?
  {
  }

  lemma MintedIsPlain(g: Libraries, operation: string, fingerprint: string)
    requires Minted(g, operation, fingerprint)
    ensures Plain(operation, fingerprint)
  {
  }

  lemma WindowIs<T>(items: seq<T>, offset: nat, limit: nat)
    requires offset <= |items|
    ensures var end := if offset + limit < |items| then offset + limit else |items|;
      PageAt(items, offset, limit) == Page(items[offset..end], end < |items|)
  {
  }

  lemma BeyondTheLimit(g: Libraries, operation: string, fingerprint: string, offset: nat)
    requires Plain(operation, fingerprint) && offset > MAX_OFFSET
    ensures EncodeCursor(g, operation, offset, fingerprint) == Err(OffsetOutOfRange)
  {
  }

  /** The page itself, and the exact condition under which it can be given. */
  lemma PageStep<T>(g: Libraries, operation: string, fingerprint: string, items: seq<T>, limit: nat, cursor: Option<string>, offset: nat)
    requires Minted(g, operation, fingerprint) && StandsFor(g, operation, fingerprint, cursor, offset) && limit >= 1
    requires offset <= |items|
    ensures var end := if offset + limit < |items| then offset + limit else |items|;
      var r := OnePage(g, operation, fingerprint, items, limit, cursor);
      && (r.Ok? <==> end == |items| || end <= MAX_OFFSET)
      && (r.Ok? ==> r.value.results == items[offset..end] && (r.value.next.None? <==> end == |items|))
      && (r.Ok? && end < |items| ==> StandsFor(g, operation, fingerprint, r.value.next, end))
      && (r.Err? ==> r.error == InvalidCursor(OffsetOutOfRange))
  {
    hide DecodeCursor, EncodeCursor, CursorOffset, Minted, StandsFor, PageAt, Plain;
    MintedIsPlain(g, operation, fingerprint);
    var end := if offset + limit < |items| then offset + limit else |items|;
    assert CursorOffset(g, operation, fingerprint, cursor) == Ok(offset) by { StandsForMeans(g, operation, fingerprint, cursor, offset); }
    WindowIs(items, offset, limit);
    if end < |items| && end <= MAX_OFFSET {
      MintedStandsFor(g, operation, fingerprint, end);
    } else if end < |items| {
      BeyondTheLimit(g, operation, fingerprint, end);
    }
  }

  lemma StandsForMeans(g: Libraries, operation: string, fingerprint: string, cursor: Option<string>, offset: nat)
    requires StandsFor(g, operation, fingerprint, cursor, offset)
    ensures CursorOffset(g, operation, fingerprint, cursor) == Ok(offset)
  {
  }

  /** Follow the cursors, one limit per page, until there is none or the limits run out. */
  function Follow<T>(g: Libraries, operation: string, fingerprint: string, items: seq<T>, limits: seq<nat>, cursor: Option<string>)
    : Result<Response<T>, RequestError>
    requires Plain(operation, fingerprint) && limits != []
  {
    var page := OnePage(g, operation, fingerprint, items, limits[0], cursor);
    if page.Err? || page.value.next.None? || |limits| == 1 then page
    else
      var rest := Follow(g, operation, fingerprint, items, limits[1..], page.value.next);
      if rest.Err? then rest else Ok(Response(page.value.results + rest.value.results, rest.value.next))
  }

  function Sum(limits: seq<nat>): nat {
    if limits == [] then 0 else limits[0] + Sum(limits[1..])
  }

  /** Every page asked for, up to the one that reaches the end, ends there or at an offset a cursor can hold. */
  predicate PagesGiven(limits: seq<nat>, offset: nat, total: nat) {
    limits == [] || offset + limits[0] >= total
    || (offset + limits[0] <= MAX_OFFSET && PagesGiven(limits[1..], offset + limits[0], total))
  }

  /**
   * Any pages, of any sizes, from any offset of any order: exactly when each of them can be given, they are the
   * items from there on, without gap or repeat.
   */
  lemma {:induction false} FollowFrom<T>(g: Libraries, operation: string, fingerprint: string, items: seq<T>, limits: seq<nat>,
                                         cursor: Option<string>, offset: nat)
    requires Minted(g, operation, fingerprint) && StandsFor(g, operation, fingerprint, cursor, offset)
    requires offset <= |items|
    requires limits != [] && forall i :: 0 <= i < |limits| ==> limits[i] >= 1
    ensures var end := if offset + Sum(limits) < |items| then offset + Sum(limits) else |items|;
      var r := Follow(g, operation, fingerprint, items, limits, cursor);
      && (r.Ok? <==> PagesGiven(limits, offset, |items|))
      && (r.Err? ==> r.error == InvalidCursor(OffsetOutOfRange))
      && (r.Ok? ==> r.value.results == items[offset..end] && (r.value.next.None? <==> end == |items|))
      && (r.Ok? && end < |items| ==> StandsFor(g, operation, fingerprint, r.value.next, end))
  {
    hide OnePage, StandsFor, Minted, PagesGiven, Follow, Sum;
    MintedIsPlain(g, operation, fingerprint);
    PageStep(g, operation, fingerprint, items, limits[0], cursor, offset);
    FollowStep(g, operation, fingerprint, items, limits, cursor);
    GivenStep(limits, offset, |items|);
    var page := OnePage(g, operation, fingerprint, items, limits[0], cursor);
    var end := offset + limits[0];
    if |limits| > 1 && end < |items| && page.Ok? {
      FollowFrom(g, operation, fingerprint, items, limits[1..], page.value.next, end);
    }
  }

  lemma FollowStep<T>(g: Libraries, operation: string, fingerprint: string, items: seq<T>, limits: seq<nat>, cursor: Option<string>)
    requires Plain(operation, fingerprint) && limits != []
    ensures var page := OnePage(g, operation, fingerprint, items, limits[0], cursor);
      var r := Follow(g, operation, fingerprint, items, limits, cursor);
      if page.Err? || page.value.next.None? || |limits| == 1 then r == page
      else
        var rest := Follow(g, operation, fingerprint, items, limits[1..], page.value.next);
        if rest.Err? then r == rest else r == Ok(Response(page.value.results + rest.value.results, rest.value.next))
  {
    hide OnePage;
  }

  lemma GivenStep(limits: seq<nat>, offset: nat, total: nat)
    requires limits != []
    ensures Sum(limits) == limits[0] + Sum(limits[1..]) && (|limits| == 1 ==> Sum(limits[1..]) == 0)
    ensures PagesGiven(limits, offset, total) <==> (
      || offset + limits[0] >= total
      || (offset + limits[0] <= MAX_OFFSET && PagesGiven(limits[1..], offset + limits[0], total)))
    ensures |limits| == 1 ==> PagesGiven(limits[1..], offset + limits[0], total)
  {
  }

  lemma {:induction false} SumAtLeast(limits: seq<nat>)
    requires forall i :: 0 <= i < |limits| ==> limits[i] >= 1
    ensures Sum(limits) >= |limits|
  {
    if limits != [] {
      SumAtLeast(limits[1..]);
    }
  }

  /** Some page, not yet the last, ends at an offset no cursor can hold. */
  predicate GetsStuck(limits: seq<nat>, offset: nat, total: nat) {
    exists k :: 1 <= k <= |limits| && MAX_OFFSET < offset + Sum(limits[..k]) < total
  }

  lemma {:induction false} SumOfMore(limits: seq<nat>, k: nat)
    requires k < |limits|
    ensures Sum(limits[..k + 1]) == limits[0] + Sum(limits[1..][..k])
  {
    assert limits[..k + 1][1..] == limits[1..][..k];
  }

  lemma {:induction false} GivenOrStuck(limits: seq<nat>, offset: nat, total: nat)
    ensures PagesGiven(limits, offset, total) <==> !GetsStuck(limits, offset, total)
  {
    if limits != [] {
      var end := offset + limits[0];
      GivenOrStuck(limits[1..], end, total);
      forall k | 0 <= k < |limits|
        ensures Sum(limits[..k + 1]) == limits[0] + Sum(limits[1..][..k])
      {
        SumOfMore(limits, k);
      }
      assert Sum(limits[..0 + 1]) == limits[0] + Sum(limits[1..][..0]) == limits[0];
      if GetsStuck(limits[1..], end, total) {
        var k :| 1 <= k <= |limits[1..]| && MAX_OFFSET < end + Sum(limits[1..][..k]) < total;
        assert MAX_OFFSET < offset + Sum(limits[..k + 1]) < total;
      }
      if GetsStuck(limits, offset, total) {
        var k :| 1 <= k <= |limits| && MAX_OFFSET < offset + Sum(limits[..k]) < total;
        assert k > 1 ==> offset + Sum(limits[..k - 1 + 1]) == end + Sum(limits[1..][..k - 1]);
      }
    }
  }

  /**
   * Following the cursors of any order with any page sizes, even changing from call to call, fails if and only if
   * some page ends behind offset 100,000 and short of the end. Otherwise the pages visit the order from its
   * start on exactly once, and the cursor is null exactly when they have reached its end; after as many pages as
   * there are items (one if there are none) they have.
   */
  lemma PagingVisitsAll<T>(g: Libraries, operation: string, fingerprint: string, items: seq<T>, limits: seq<nat>)
    requires Minted(g, operation, fingerprint)
    requires limits != [] && forall i :: 0 <= i < |limits| ==> limits[i] >= 1
    ensures var r := Follow(g, operation, fingerprint, items, limits, None);
      && (r.Ok? <==> !GetsStuck(limits, 0, |items|))
      && (r.Err? ==> r.error == InvalidCursor(OffsetOutOfRange))
      && (|items| <= 100_001 ==> r.Ok?)
      && (r.Ok? ==>
        && r.value.results <= items
        && (r.value.next.None? <==> r.value.results == items)
        && (|limits| >= |items| ==> r.value.next.None?))
  {
    hide Follow, Minted, PagesGiven;
    FollowFrom(g, operation, fingerprint, items, limits, None, 0);
    GivenOrStuck(limits, 0, |items|);
    SumAtLeast(limits);
  }

  /** That many pages of one item. */
  function Singles(n: nat): (r: seq<nat>)
    ensures |r| == n && forall i :: 0 <= i < n ==> r[i] == 1
  {
    if n == 0 then [] else [1] + Singles(n - 1)
  }

  lemma {:induction false} SinglesSum(n: nat)
    ensures Sum(Singles(n)) == n
  {
    if n > 0 {
      SinglesSum(n - 1);
      assert Singles(n)[1..] == Singles(n - 1);
    }
  }

  /** Following these pages comes to its end or runs out of pages, but no page is refused. */
  ghost predicate AllGiven<T>(g: Libraries, operation: string, fingerprint: string, items: seq<T>, limits: seq<nat>)
    requires Plain(operation, fingerprint)
  {
    if limits != [] && forall i :: 0 <= i < |limits| ==> limits[i] >= 1 then
      Follow(g, operation, fingerprint, items, limits, None).Ok?
    else true
  }

  /** 100,001 is the exact bound: with one item more, pages of one item come to a page that cannot be given. */
  lemma PagingBound<T>(g: Libraries, operation: string, fingerprint: string, items: seq<T>)
    requires Minted(g, operation, fingerprint) && Plain(operation, fingerprint)
    ensures (forall limits: seq<nat> :: AllGiven(g, operation, fingerprint, items, limits)) <==> |items| <= 100_001
    ensures |items| > 100_001 ==> !AllGiven(g, operation, fingerprint, items, Singles(100_001))
  {
    hide Follow, Minted, Plain, GetsStuck, Singles;
    if |items| <= MAX_OFFSET + 1 {
      forall limits: seq<nat>
        ensures AllGiven(g, operation, fingerprint, items, limits)
      {
        if limits != [] && forall i :: 0 <= i < |limits| ==> limits[i] >= 1 {
          PagingVisitsAll(g, operation, fingerprint, items, limits);
        }
      }
    } else {
      SinglesGetStuck(|items|);
      var limits: seq<nat> := Singles(MAX_OFFSET + 1);
      PagingVisitsAll(g, operation, fingerprint, items, limits);
      assert !AllGiven(g, operation, fingerprint, items, limits);
    }
  }

  lemma SinglesGetStuck(total: nat)
    requires total > MAX_OFFSET + 1
    ensures GetsStuck(Singles(MAX_OFFSET + 1), 0, total)
  {
    hide Singles, Sum;
    var n := MAX_OFFSET + 1;
    SinglesSum(n);
    assert Singles(n)[..n] == Singles(n);
    assert MAX_OFFSET < 0 + Sum(Singles(n)[..n]) < total;
  }

  // ----- The two endpoints -----

  predicate LimitsOk(limits: seq<int>, top: int) {
    limits != [] && forall i :: 0 <= i < |limits| ==> 1 <= limits[i] <= top
  }

  /** Search page after search page, over one fixed order. */
  function FollowSearch(g: Libraries, fingerprint: string, order: seq<Hit>, maxResults: nat, limits: seq<int>, cursor: Option<string>)
    : Result<Response<Hit>, RequestError>
    requires Plain("search", fingerprint) && limits != []
  {
    var page := SearchPage(g, fingerprint, order, maxResults, limits[0], cursor);
    if page.Err? || page.value.next.None? || |limits| == 1 then page
    else
      var rest := FollowSearch(g, fingerprint, order, maxResults, limits[1..], page.value.next);
      if rest.Err? then rest else Ok(Response(page.value.results + rest.value.results, rest.value.next))
  }

  /** Tree page after tree page, over one fixed listing. */
  function FollowTree<T>(g: Libraries, fingerprint: string, children: seq<T>, limits: seq<int>, cursor: Option<string>)
    : Result<Response<T>, RequestError>
    requires Plain("tree", fingerprint) && limits != []
  {
    var page := TreePage(g, fingerprint, children, limits[0], cursor);
    if page.Err? || page.value.next.None? || |limits| == 1 then page
    else
      var rest := FollowTree(g, fingerprint, children, limits[1..], page.value.next);
      if rest.Err? then rest else Ok(Response(page.value.results + rest.value.results, rest.value.next))
  }

  /** The limits after clamping to `top`. */
  function Clamped(limits: seq<int>, top: nat): (r: seq<nat>)
    requires forall i :: 0 <= i < |limits| ==> limits[i] >= 1
    ensures |r| == |limits| && (top >= 1 ==> forall i :: 0 <= i < |r| ==> r[i] >= 1)
  {
    if limits == [] then [] else [if limits[0] < top then limits[0] else top] + Clamped(limits[1..], top)
  }

  lemma {:induction false} SearchFollows(g: Libraries, fingerprint: string, order: seq<Hit>, maxResults: nat, limits: seq<int>,
                                         cursor: Option<string>)
    requires Plain("search", fingerprint) && LimitsOk(limits, MAX_SEARCH_LIMIT)
    ensures FollowSearch(g, fingerprint, order, maxResults, limits, cursor)
         == Follow(g, "search", fingerprint, order, Clamped(limits, maxResults), cursor)
    decreases |limits|
  {
    hide OnePage, Plain;
    var page := SearchPage(g, fingerprint, order, maxResults, limits[0], cursor);
    assert Clamped(limits, maxResults)[1..] == Clamped(limits[1..], maxResults);
    if |limits| > 1 && page.Ok? {
      SearchFollows(g, fingerprint, order, maxResults, limits[1..], page.value.next);
    }
  }

  lemma {:induction false} TreeFollows<T>(g: Libraries, fingerprint: string, children: seq<T>, limits: seq<int>, cursor: Option<string>)
    requires Plain("tree", fingerprint) && LimitsOk(limits, MAX_TREE_LIMIT)
    ensures FollowTree(g, fingerprint, children, limits, cursor)
         == Follow(g, "tree", fingerprint, children, Clamped(limits, MAX_TREE_LIMIT), cursor)
    decreases |limits|
  {
    hide OnePage, Plain;
    var page := TreePage(g, fingerprint, children, limits[0], cursor);
    assert Clamped(limits, MAX_TREE_LIMIT)[1..] == Clamped(limits[1..], MAX_TREE_LIMIT);
    if |limits| > 1 && page.Ok? {
      TreeFollows(g, fingerprint, children, limits[1..], page.value.next);
    }
  }

  /** A search takes limits from 1 to 200, a listing limits from 1 to 500. */
  lemma LimitsAreChecked<T>(g: Libraries, fingerprint: string, order: seq<Hit>, maxResults: nat, children: seq<T>, limit: int, cursor: Option<string>)
    requires Plain("search", fingerprint) && Plain("tree", fingerprint)
    ensures SearchPage(g, fingerprint, order, maxResults, limit, cursor) == Err(LimitOutOfRange) <==> limit < 1 || limit > 200
    ensures TreePage(g, fingerprint, children, limit, cursor) == Err(LimitOutOfRange) <==> limit < 1 || limit > 500
  {
    hide CursorOffset, EncodeCursor, PageAt, Plain;
  }

  /** A client that follows a search to its end has seen the one order of all hits, whatever limits it asked for. */
  lemma SearchVisitsAll(g: Libraries, fingerprint: string, query: Query, notes: seq<Scanned>, maxResults: nat, limits: seq<int>)
    requires Minted(g, "search", fingerprint) && LimitsOk(limits, 200) && maxResults >= 1
    ensures var r := FollowSearch(g, fingerprint, Order(query, notes), maxResults, limits, None);
      && (r.Ok? <==> !GetsStuck(Clamped(limits, maxResults), 0, |Order(query, notes)|))
      && (|Order(query, notes)| <= 100_001 ==> r.Ok?)
      && (r.Ok? ==>
        && r.value.results <= Order(query, notes)
        && (r.value.next.None? <==> r.value.results == Order(query, notes))
        && (|limits| >= |Order(query, notes)| ==> r.value.next.None?))
  {
    hide Minted, Follow, FollowSearch, Order, GetsStuck;
    MintedIsPlain(g, "search", fingerprint);
    SearchFollows(g, fingerprint, Order(query, notes), maxResults, limits, None);
    PagingVisitsAll(g, "search", fingerprint, Order(query, notes), Clamped(limits, maxResults));
  }

  /** The same for a folder's children. */
  lemma TreeVisitsAll<T>(g: Libraries, fingerprint: string, children: seq<T>, limits: seq<int>)
    requires Minted(g, "tree", fingerprint) && LimitsOk(limits, 500)
    ensures var r := FollowTree(g, fingerprint, children, limits, None);
      && (r.Ok? <==> !GetsStuck(Clamped(limits, 500), 0, |children|))
      && (|children| <= 100_001 ==> r.Ok?)
      && (r.Ok? ==>
        && r.value.results <= children
        && (r.value.next.None? <==> r.value.results == children)
        && (|limits| >= |children| ==> r.value.next.None?))
  {
    hide Minted, Follow, FollowTree, GetsStuck;
    MintedIsPlain(g, "tree", fingerprint);
    TreeFollows(g, fingerprint, children, limits, None);
    PagingVisitsAll(g, "tree", fingerprint, children, Clamped(limits, MAX_TREE_LIMIT));
  }
}
