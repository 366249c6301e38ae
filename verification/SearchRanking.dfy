/** What makes a note a search result, and which of two comes first, said field by field. */
module SearchRanking {
  import opened Text
  import opened Ordering
  import opened Search

  // ----- Occurring in a text -----

  /** The part stands somewhere in the text. */
  ghost predicate Occurs(s: string, part: string) {
    exists k :: 0 <= k <= |s| - |part| && StandsAt(s, part, k)
  }

  predicate StandsAt(s: string, part: string, k: nat)
    requires k <= |s| - |part|
  {
    s[k..k + |part|] == part
  }

  lemma SliceBehind(s: string, a: nat, b: nat)
    requires s != "" && a <= b < |s|
    ensures s[1..][a..b] == s[a + 1..b + 1]
  {
  }

  lemma {:induction false} ContainsIsOccurs(s: string, part: string)
    ensures Contains(s, part) <==> Occurs(s, part)
  {
    if |part| <= |s| {
      assert StandsAt(s, part, 0) <==> s[..|part|] == part;
      if s != "" {
        ContainsIsOccurs(s[1..], part);
        if Occurs(s[1..], part) {
          var k :| 0 <= k <= |s[1..]| - |part| && StandsAt(s[1..], part, k);
          SliceBehind(s, k, k + |part|);
          assert StandsAt(s, part, k + 1);
        }
        if Occurs(s, part) {
          var k :| 0 <= k <= |s| - |part| && StandsAt(s, part, k);
          if k > 0 {
            SliceBehind(s, k - 1, k - 1 + |part|);
            assert StandsAt(s[1..], part, k - 1);
          }
        }
      }
    }
  }

  // ----- The fields -----

  /** The searched fields, the weightiest first. */
  datatype Field = InTitle | InName | InHeading | InTag | InBody

  ghost predicate OccursInSome(texts: seq<string>, part: string) {
    exists i :: 0 <= i < |texts| && Occurs(texts[i], part)
  }

  ghost predicate FoundIn(note: Scanned, field: Field, text: string)
    requires note.Readable?
  {
    match field
    case InTitle => Occurs(note.title, text)
    case InName => Occurs(note.stem, text)
    case InHeading => OccursInSome(note.headings, text)
    case InTag => OccursInSome(note.tags, text)
    case InBody => Occurs(note.body, text)
  }

  predicate Weightier(f: Field, g: Field) {
    match f
    case InTitle => !g.InTitle?
    case InName => g.InHeading? || g.InTag? || g.InBody?
    case InHeading => g.InTag? || g.InBody?
    case InTag => g.InBody?
    case InBody => false
  }

  lemma {:induction false} AnyContainsIsOccurs(texts: seq<string>, part: string)
    ensures AnyContains(texts, part) <==> OccursInSome(texts, part)
  {
    hide Contains, Occurs;
    if texts != [] {
      ContainsIsOccurs(texts[0], part);
      AnyContainsIsOccurs(texts[1..], part);
      if OccursInSome(texts[1..], part) {
        var i :| 0 <= i < |texts[1..]| && Occurs(texts[1..][i], part);
        assert Occurs(texts[i + 1], part);
      }
      if OccursInSome(texts, part) {
        var i :| 0 <= i < |texts| && Occurs(texts[i], part);
        assert i > 0 ==> Occurs(texts[1..][i - 1], part);
      }
    }
  }

  /** Every test of a field is whether the text occurs in it. */
  lemma FieldsOccur(note: Scanned, text: string)
    requires note.Readable?
    ensures FoundIn(note, InTitle, text) <==> Contains(note.title, text)
    ensures FoundIn(note, InName, text) <==> Contains(note.stem, text)
    ensures FoundIn(note, InHeading, text) <==> AnyContains(note.headings, text)
    ensures FoundIn(note, InTag, text) <==> AnyContains(note.tags, text)
    ensures FoundIn(note, InBody, text) <==> Contains(note.body, text)
  {
    hide Contains, AnyContains, Occurs, OccursInSome;
    ContainsIsOccurs(note.title, text);
    ContainsIsOccurs(note.stem, text);
    ContainsIsOccurs(note.body, text);
    AnyContainsIsOccurs(note.headings, text);
    AnyContainsIsOccurs(note.tags, text);
  }

  ghost predicate FoundSomewhere(note: Scanned, text: string)
    requires note.Readable?
  {
    exists f: Field :: FoundIn(note, f, text)
  }

  // ----- What is found -----

  lemma {:induction false} AllInIsAll(required: seq<string>, tags: seq<string>)
    ensures AllIn(required, tags) <==> forall i :: 0 <= i < |required| ==> required[i] in tags
  {
    if required != [] {
      AllInIsAll(required[1..], tags);
      assert forall i :: 0 < i < |required| ==> required[i] == required[1..][i - 1];
    }
  }

  /** A note is a result exactly if it could be read, has all required tags, and has the text, if any, in some field. */
  lemma ResultsMatch(query: Query, note: Scanned)
    ensures IsHit(query, note) <==>
      && note.Readable? && (forall i :: 0 <= i < |query.tags| ==> query.tags[i] in note.tags)
      && (query.text == "" || FoundSomewhere(note, query.text))
  {
    hide AllIn, Contains, AnyContains, FoundIn;
    AllInIsAll(query.tags, if note.Readable? then note.tags else []);
    if note.Readable? {
      FieldsOccur(note, query.text);
      if FoundSomewhere(note, query.text) {
        var f: Field :| FoundIn(note, f, query.text);
        match f {
          case InTitle =>
          case InName =>
          case InHeading =>
          case InTag =>
          case InBody =>
        }
      }
    }
  }

  /** The score is positive exactly if the text occurs in some field. */
  lemma ScoreIsPositive(note: Scanned, text: string)
    requires note.Readable?
    ensures Score(text, note) > 0 <==> FoundSomewhere(note, text)
  {
    hide Contains, AnyContains, FoundIn;
    FieldsOccur(note, text);
    if FoundSomewhere(note, text) {
      var f: Field :| FoundIn(note, f, text);
      match f {
        case InTitle =>
        case InName =>
        case InHeading =>
        case InTag =>
        case InBody =>
      }
    }
  }

  // ----- What comes first -----

  function Tell(b: bool): nat {
    if b then 1 else 0
  }

  /** Four for the title, three for the file name, two for headings, one for tags. */
  ghost function Points(note: Scanned, text: string): nat
    requires note.Readable?
  {
    4 * Tell(FoundIn(note, InTitle, text)) + 3 * Tell(FoundIn(note, InName, text))
    + 2 * Tell(FoundIn(note, InHeading, text)) + Tell(FoundIn(note, InTag, text))
  }

  /** The four weighty fields decide; only between equals does it count whether the body holds the text too. */
  lemma PointsDecide(text: string, a: Scanned, b: Scanned)
    requires a.Readable? && b.Readable?
    ensures Score(text, a) > Score(text, b) <==>
      || Points(a, text) > Points(b, text)
      || (Points(a, text) == Points(b, text) && FoundIn(a, InBody, text) && !FoundIn(b, InBody, text))
    ensures Score(text, a) == Score(text, b) <==>
      Points(a, text) == Points(b, text) && FoundIn(a, InBody, text) == FoundIn(b, InBody, text)
  {
    hide Contains, AnyContains, FoundIn;
    FieldsOccur(a, text);
    FieldsOccur(b, text);
    ScoreByPoints(text, a);
    ScoreByPoints(text, b);
  }

  lemma ScoreByPoints(text: string, note: Scanned)
    requires note.Readable?
    ensures Score(text, note) == 100 * Points(note, text) + 10 * Tell(FoundIn(note, InBody, text))
  {
    hide Contains, AnyContains, FoundIn;
    FieldsOccur(note, text);
  }

  ghost predicate OnlyIn(note: Scanned, field: Field, text: string)
    requires note.Readable?
  {
    forall f: Field :: FoundIn(note, f, text) <==> f == field
  }

  /** Matching in one field each, the note with the weightier field comes first, whatever time and path are. */
  lemma WeightierFieldFirst(query: Query, a: Scanned, b: Scanned, f: Field, g: Field)
    requires a.Readable? && b.Readable? && query.text != "" && Weightier(f, g)
    requires OnlyIn(a, f, query.text) && OnlyIn(b, g, query.text)
    ensures HitLess(HitOf(query, a), HitOf(query, b))
  {
    hide FoundIn, Score;
    PointsDecide(query.text, a, b);
  }

  /** A further matching field moves a note up, whatever time and path are. */
  lemma MoreFieldsFirst(query: Query, a: Scanned, b: Scanned, more: Field)
    requires a.Readable? && b.Readable? && query.text != ""
    requires forall f: Field :: FoundIn(b, f, query.text) ==> FoundIn(a, f, query.text)
    requires FoundIn(a, more, query.text) && !FoundIn(b, more, query.text)
    ensures HitLess(HitOf(query, a), HitOf(query, b))
  {
    hide FoundIn, Score;
    PointsDecide(query.text, a, b);
    match more
    case InTitle =>
    case InName =>
    case InHeading =>
    case InTag =>
    case InBody =>
  }

  /** One text is in front of another by code points: a beginning of it, or smaller where they first differ. */
  ghost predicate InFront(s: string, t: string) {
    s < t || exists k :: 0 <= k < |s| && k < |t| && FirstDiffer(s, t, k) && s[k] < t[k]
  }

  predicate FirstDiffer(s: string, t: string, k: nat)
    requires k < |s| && k < |t|
  {
    s[..k] == t[..k] && s[k] != t[k]
  }

  lemma {:induction false} TextLessIsInFront(s: string, t: string)
    ensures TextLess(s, t) <==> InFront(s, t)
  {
    if s != "" && t != "" {
      if s[0] != t[0] {
        assert FirstDiffer(s, t, 0);
        if k :| 0 <= k < |s| && k < |t| && FirstDiffer(s, t, k) && s[k] < t[k] {
          SameBefore(s, t, k);
        }
      } else {
        TextLessIsInFront(s[1..], t[1..]);
        InFrontBehind(s, t);
      }
    }
  }

  lemma SameBefore(s: string, t: string, k: nat)
    requires k < |s| && k < |t| && FirstDiffer(s, t, k)
    ensures forall i :: 0 <= i < k ==> s[i] == t[i]
  {
    forall i | 0 <= i < k
      ensures s[i] == t[i]
    {
      assert s[..k][i] == t[..k][i];
    }
  }

  lemma InFrontBehind(s: string, t: string)
    requires s != "" && t != "" && s[0] == t[0]
    ensures InFront(s, t) <==> InFront(s[1..], t[1..])
  {
    var u, v := s[1..], t[1..];
    assert s == [s[0]] + u && t == [t[0]] + v;
    if s < t {
      assert u == v[..|u|];
    }
    if u < v {
      assert s == t[..|s|];
    }
    if k :| 0 <= k < |s| && k < |t| && FirstDiffer(s, t, k) && s[k] < t[k] {
      assert u[..k - 1] == s[..k][1..] && v[..k - 1] == t[..k][1..];
      assert FirstDiffer(u, v, k - 1);
    }
    if k :| 0 <= k < |u| && k < |v| && FirstDiffer(u, v, k) && u[k] < v[k] {
      assert s[..k + 1] == [s[0]] + u[..k] && t[..k + 1] == [t[0]] + v[..k];
      assert FirstDiffer(s, t, k + 1);
    }
  }

  /** Between notes that match alike the newer comes first, and of one time the one whose path is in front. */
  lemma AlikeByTimeAndPath(query: Query, a: Scanned, b: Scanned)
    requires a.Readable? && b.Readable?
    requires query.text != "" ==> forall f: Field :: FoundIn(a, f, query.text) <==> FoundIn(b, f, query.text)
    ensures HitLess(HitOf(query, a), HitOf(query, b)) <==>
      a.mtime > b.mtime || (a.mtime == b.mtime && InFront(a.path, b.path))
  {
    hide FoundIn, Score, TextLess, InFront;
    TextLessIsInFront(a.path, b.path);
    if query.text != "" {
      PointsDecide(query.text, a, b);
    }
  }

  /** What is better stands earlier in the order every page is cut from. */
  lemma BetterIsEarlier(query: Query, notes: seq<Scanned>, i: nat, j: nat)
    requires DistinctPaths(notes) && i < |Order(query, notes)| && j < |Order(query, notes)|
    ensures HitLess(Order(query, notes)[i], Order(query, notes)[j]) <==> i < j
  {
    hide HitLess, HitsOf, Sort;
    OrderIsTheOrder(query, notes, Order(query, notes));
    HitLessIsStrict();
    var order := Order(query, notes);
    if j < i {
      assert HitLess(order[j], order[i]);
    }
  }
}
