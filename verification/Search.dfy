/** Search: filter, score and sort the notes of one walk, then cut a window out of the order. */
module Search {
  import opened Text
  import opened Ordering

  // ----- What a walk found; all text is already folded (NFKC and casefold) -----

  datatype Scanned =
    | Unreadable
    | Readable(path: string, mtime: int, title: string, stem: string, headings: seq<string>, tags: seq<string>, body: string)

  /** An empty text selects by tags alone. */
  datatype Query = Query(text: string, tags: seq<string>)

  datatype Hit = Hit(score: nat, mtime: int, path: string)

  const SCORE_TITLE := 400
  const SCORE_FILENAME := 300
  const SCORE_HEADING := 200
  const SCORE_TAG := 100
  const SCORE_BODY := 10

  predicate AnyContains(texts: seq<string>, part: string) {
    texts != [] && (Contains(texts[0], part) || AnyContains(texts[1..], part))
  }

  predicate AllIn(required: seq<string>, tags: seq<string>) {
    required == [] || (required[0] in tags && AllIn(required[1..], tags))
  }

  function Score(text: string, note: Scanned): nat
    requires note.Readable?
  {
    (if Contains(note.title, text) then SCORE_TITLE else 0)
    + (if Contains(note.stem, text) then SCORE_FILENAME else 0)
    + (if AnyContains(note.headings, text) then SCORE_HEADING else 0)
    + (if AnyContains(note.tags, text) then SCORE_TAG else 0)
    + (if Contains(note.body, text) then SCORE_BODY else 0)
  }

  /** A note is a hit if it could be read, has every required tag, and has the text, if there is one, in some field. */
  predicate IsHit(query: Query, note: Scanned) {
    && note.Readable? && AllIn(query.tags, note.tags)
    && (query.text == "" || Contains(note.title, query.text) || Contains(note.stem, query.text)
        || AnyContains(note.headings, query.text) || AnyContains(note.tags, query.text) || Contains(note.body, query.text))
  }

  function HitOf(query: Query, note: Scanned): Hit
    requires note.Readable?
  {
    Hit(if query.text == "" then 0 else Score(query.text, note), note.mtime, note.path)
  }

  function HitsOf(query: Query, notes: seq<Scanned>): seq<Hit> {
    if notes == [] then []
    else
      var last := notes[|notes| - 1];
      HitsOf(query, notes[..|notes| - 1]) + (if IsHit(query, last) then [HitOf(query, last)] else [])
  }

  function Unread(notes: seq<Scanned>): nat {
    if notes == [] then 0
    else Unread(notes[..|notes| - 1]) + (if notes[|notes| - 1].Unreadable? then 1 else 0)
  }

  /** By (-score, -mtime, path). */
  predicate HitLess(a: Hit, b: Hit) {
    a.score > b.score || (a.score == b.score && (a.mtime > b.mtime || (a.mtime == b.mtime && TextLess(a.path, b.path))))
  }

  lemma HitLessIsStrict()
    ensures Strict(HitLess)
  {
    forall x: Hit
      ensures !HitLess(x, x)
    {
      TextNotLessItself(x.path);
    }
    forall x: Hit, y: Hit, z: Hit | HitLess(x, y) && HitLess(y, z)
      ensures HitLess(x, z)
    {
      if TextLess(x.path, y.path) && TextLess(y.path, z.path) {
        TextLessTransitive(x.path, y.path, z.path);
      }
    }
  }

  /** No two notes of one walk have the same path. */
  ghost predicate DistinctPaths(notes: seq<Scanned>) {
    forall i, j :: 0 <= i < j < |notes| && notes[i].Readable? && notes[j].Readable? ==> notes[i].path != notes[j].path
  }

  /** The note a hit comes from. */
  lemma {:induction false} HitHasNote(query: Query, notes: seq<Scanned>, k: nat) returns (i: nat)
    requires k < |HitsOf(query, notes)|
    ensures i < |notes| && IsHit(query, notes[i]) && HitsOf(query, notes)[k] == HitOf(query, notes[i])
  {
    hide IsHit, HitOf;
    var rest := notes[..|notes| - 1];
    if k < |HitsOf(query, rest)| {
      i := HitHasNote(query, rest, k);
      assert HitsOf(query, notes)[k] == HitsOf(query, rest)[k];
    } else {
      i := |notes| - 1;
    }
  }

  /** Distinct paths make the order total on the hits. */
  lemma {:induction false} HitsCompare(query: Query, notes: seq<Scanned>)
    requires DistinctPaths(notes)
    ensures Comparable(HitLess, HitsOf(query, notes))
  {
    if notes != [] {
      var rest := notes[..|notes| - 1];
      HitsCompare(query, rest);
      var hits := HitsOf(query, notes);
      forall i, j | 0 <= i < j < |hits|
        ensures HitLess(hits[i], hits[j]) || HitLess(hits[j], hits[i])
      {
        if j == |HitsOf(query, rest)| {
          var m := HitHasNote(query, rest, i);
          assert notes[m].path != notes[|notes| - 1].path;
          TextLessTotal(hits[i].path, hits[j].path);
        }
      }
    }
  }

  /** The one order every page of a search is cut from. */
  function Order(query: Query, notes: seq<Scanned>): seq<Hit> {
    Sort(HitLess, HitsOf(query, notes))
  }

  /** The order is the unique arrangement of the hits by score, then time, then path. */
  lemma OrderIsTheOrder(query: Query, notes: seq<Scanned>, arranged: seq<Hit>)
    requires DistinctPaths(notes)
    ensures arranged == Order(query, notes) <==> Sorted(HitLess, arranged) && multiset(arranged) == multiset(HitsOf(query, notes))
  {
    HitLessIsStrict();
    HitsCompare(query, notes);
    SortSorts(HitLess, HitsOf(query, notes));
    SortKeeps(HitLess, HitsOf(query, notes));
    if Sorted(HitLess, arranged) && multiset(arranged) == multiset(HitsOf(query, notes)) {
      SortedIsUnique(HitLess, arranged, Order(query, notes));
    }
  }

  /** `items[offset:offset + limit]` */
  function Window<T>(items: seq<T>, offset: nat, limit: nat): seq<T> {
    if offset >= |items| then []
    else if offset + limit >= |items| then items[offset..]
    else items[offset..offset + limit]
  }

  datatype Page<T> = Page(hits: seq<T>, hasMore: bool)

  function PageAt<T>(items: seq<T>, offset: nat, limit: nat): Page<T> {
    var window := Window(items, offset, limit);
    Page(window, |items| > offset + |window|)
  }

  /** `search_notes`, over what the walk of the vault yields. */
  method SearchNotes(query: Query, notes: seq<Scanned>, skippedByWalk: nat, limit: nat, offset: nat)
    returns (page: Page<Hit>, skipped: nat)
    ensures page == PageAt(Order(query, notes), offset, limit)
    ensures skipped == skippedByWalk + Unread(notes)
  {
    var hits := [];
    skipped := skippedByWalk;
    for i := 0 to |notes|
      invariant hits == HitsOf(query, notes[..i]) && skipped == skippedByWalk + Unread(notes[..i])
    {
      assert notes[..i + 1][..i] == notes[..i];
      var note := notes[i];
      if note.Unreadable? {
        skipped := skipped + 1;
        continue;
      }
      if !AllIn(query.tags, note.tags) {
        continue;
      }
      var score := 0;
      if query.text != "" {
        score := Score(query.text, note);
        if score == 0 {
          continue;
        }
      }
      hits := hits + [Hit(score, note.mtime, note.path)];
    }
    assert notes[..|notes|] == notes;
    var sorted := Sort(HitLess, hits);
    var window := Window(sorted, offset, limit);
    page := Page(window, |sorted| > offset + |window|);
  }
}
