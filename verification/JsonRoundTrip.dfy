/** What conversion makes of a value, said without the conversion: JSON values come back as they are, all else as its text. */
module JsonRoundTrip {
  import opened Text
  import opened JsonSafe

  // ----- JSON values as trees -----

  /** A JSON value as what the loader gives for it, nothing shared. */
  function Embed(j: Json): Tree
    decreases j
  {
    match j
    case JNull => Leaf(Null)
    case JStr(text) => Leaf(Str(text))
    case JBool(flag) => Leaf(Bool(flag))
    case JInt(number) => Leaf(Int(number))
    case JReal(amount) => Leaf(Finite(amount))
    case JList(items) => ListTree(EmbedItems(items))
    case JDict(entries) => DictTree(EmbedEntries(entries))
  }

  function EmbedItems(items: seq<Json>): Kids
    decreases items
  {
    if items == [] then Nil else Cons("", Embed(items[0]), EmbedItems(items[1..]))
  }

  function EmbedEntries(entries: seq<(string, Json)>): Kids
    decreases entries
  {
    if entries == [] then Nil
    else
      match entries[0]
      case (key, item) =>
        assert item < entries[0];
        Cons(key, Embed(item), EmbedEntries(entries[1..]))
  }

  ghost predicate HasKey(entries: seq<(string, Json)>, key: string) {
    exists i :: 0 <= i < |entries| && entries[i].0 == key
  }

  /** In no dictionary inside two entries have the same key. */
  ghost predicate DistinctKeys(j: Json)
    decreases j
  {
    match j
    case JList(items) => AllDistinctKeys(items)
    case JDict(entries) => DistinctEntries(entries)
    case _ => true
  }

  ghost predicate AllDistinctKeys(items: seq<Json>)
    decreases items
  {
    items != [] ==> DistinctKeys(items[0]) && AllDistinctKeys(items[1..])
  }

  ghost predicate DistinctEntries(entries: seq<(string, Json)>)
    decreases entries
  {
    entries != [] ==>
      match entries[0]
      case (key, item) =>
        assert item < entries[0];
        !HasKey(entries[1..], key) && DistinctKeys(item) && DistinctEntries(entries[1..])
  }

  // ----- Entries, put one after the other -----

  lemma {:induction false} PutNew(entries: seq<(string, Json)>, key: string, item: Json)
    requires !HasKey(entries, key)
    ensures Put(entries, key, item) == entries + [(key, item)]
  {
    if entries != [] {
      assert entries[0].0 != key;
      assert forall i :: 0 <= i < |entries[1..]| ==> entries[1..][i] == entries[i + 1];
      PutNew(entries[1..], key, item);
      assert entries == [entries[0]] + entries[1..];
    }
  }

  /** An entry whose key is there already keeps the place and takes the new value. */
  lemma {:induction false} PutOld(entries: seq<(string, Json)>, key: string, item: Json, k: nat)
    requires k < |entries| && entries[k].0 == key && forall i :: 0 <= i < k ==> entries[i].0 != key
    ensures Put(entries, key, item) == entries[k := (key, item)]
  {
    if k == 0 {
      assert entries[0 := (key, item)] == [(key, item)] + entries[1..];
    } else {
      PutOld(entries[1..], key, item, k - 1);
      assert entries[k := (key, item)] == [entries[0]] + entries[1..][k - 1 := (key, item)];
    }
  }

  lemma {:induction false} EmbeddedEntries(entries: seq<(string, Json)>, done: seq<(string, Json)>)
    requires DistinctEntries(entries) && forall i :: 0 <= i < |entries| ==> !HasKey(done, entries[i].0)
    ensures EntriesOf(EmbedEntries(entries), done) == done + entries
    decreases entries
  {
    if entries == [] {
      assert done + [] == done;
    } else {
      hide DistinctKeys;
      var (key, item) := entries[0];
      assert item < entries[0];
      EmbedReads(item);
      PutNew(done, key, item);
      var more := done + [(key, item)];
      forall i | 0 <= i < |entries[1..]|
        ensures !HasKey(more, entries[1..][i].0)
      {
        assert !HasKey(done, entries[i + 1].0);
        assert entries[1..][i].0 != key;
        NotAmongMore(done, key, item, entries[1..][i].0);
      }
      EmbeddedEntries(entries[1..], more);
      assert entries == [(key, item)] + entries[1..];
      Regroup(done, [(key, item)], entries[1..]);
    }
  }

  lemma NotAmongMore(done: seq<(string, Json)>, key: string, item: Json, other: string)
    requires !HasKey(done, other) && other != key
    ensures !HasKey(done + [(key, item)], other)
  {
    var more := done + [(key, item)];
    forall i | 0 <= i < |more|
      ensures more[i].0 != other
    {
      assert i < |done| ==> more[i] == done[i];
    }
  }

  lemma {:induction false} EmbeddedItems(items: seq<Json>)
    requires AllDistinctKeys(items)
    ensures ItemsOf(EmbedItems(items)) == items
    decreases items
  {
    if items != [] {
      EmbedReads(items[0]);
      EmbeddedItems(items[1..]);
      assert items == [items[0]] + items[1..];
    }
  }

  /** Reading an embedded value as JSON gives it back. */
  lemma {:induction false} EmbedReads(j: Json)
    requires DistinctKeys(j)
    ensures JsonOf(Embed(j)) == j
    decreases j
  {
    match j
    case JList(items) => EmbeddedItems(items);
    case JDict(entries) =>
      EmbeddedEntries(entries, []);
      assert [] + entries == entries;
    case _ =>
  }

  /** A value the loader gives for a JSON value, shared or not, is converted to that value if it fits the limits. */
  lemma JsonComesBack(heap: Heap, v: Value, j: Json)
    requires Closed(heap) && InHeap(heap, v) && Unfolds(heap, v, Embed(j)) && DistinctKeys(j) && WithinLimits(Embed(j))
    ensures ToJsonSafe(heap, v) == Ok(j)
  {
    hide ToJsonSafe, Unfolds, WithinLimits, Embed, DistinctKeys;
    EmbedReads(j);
    ConvertsExactly(heap, v);
  }

  /** What JSON has no word for becomes its own text, a number that is not finite at no charge. */
  lemma OthersBecomeText(heap: Heap, text: string)
    requires Closed(heap)
    ensures ToJsonSafe(heap, NonFinite(text)) == Ok(JStr(text))
    ensures |text| <= 1_000_000 ==> ToJsonSafe(heap, Temporal(text)) == Ok(JStr(text)) && ToJsonSafe(heap, Other(text)) == Ok(JStr(text))
    ensures |text| > 1_000_000 ==>
      ToJsonSafe(heap, Temporal(text)) == ToJsonSafe(heap, Other(text)) == ToJsonSafe(heap, Str(text)) == Err(BudgetExceeded)
  {
  }

  // ----- Dictionaries whose keys read alike -----

  /** The entries of a dictionary in the loader's order. */
  function Pairs(kids: Kids): seq<(string, Json)>
    decreases kids
  {
    match kids
    case Nil => []
    case Cons(key, head, tail) => [(key, JsonOf(head))] + Pairs(tail)
  }

  predicate FirstAt(pairs: seq<(string, Json)>, key: string, k: int) {
    0 <= k < |pairs| && pairs[k].0 == key && forall i :: 0 <= i < k ==> pairs[i].0 != key
  }

  predicate LastAt(pairs: seq<(string, Json)>, key: string, k: int) {
    0 <= k < |pairs| && pairs[k].0 == key && forall i :: k < i < |pairs| ==> pairs[i].0 != key
  }

  /** Entry `i` stands for the pairs with its key: it has the value of the last of them. */
  ghost predicate HasLast(pairs: seq<(string, Json)>, entry: (string, Json)) {
    exists k :: LastAt(pairs, entry.0, k) && pairs[k].1 == entry.1
  }

  /** The key of entry `i` first occurs before that of entry `j`. */
  ghost predicate Precedes(pairs: seq<(string, Json)>, a: string, b: string) {
    exists k, m :: FirstAt(pairs, a, k) && FirstAt(pairs, b, m) && k < m
  }

  /** The distinct keys in the order of their first occurrence, each with the value of its last. */
  ghost predicate Merges(pairs: seq<(string, Json)>, entries: seq<(string, Json)>) {
    && (forall i :: 0 <= i < |entries| ==> HasLast(pairs, entries[i]))
    && (forall i, j :: 0 <= i < j < |entries| ==> Precedes(pairs, entries[i].0, entries[j].0))
    && (forall k :: 0 <= k < |pairs| ==> HasKey(entries, pairs[k].0))
  }

  lemma FirstStays(pairs: seq<(string, Json)>, last: (string, Json), key: string, k: int)
    requires FirstAt(pairs, key, k)
    ensures FirstAt(pairs + [last], key, k)
  {
    var more := pairs + [last];
    assert forall i :: 0 <= i < |pairs| ==> more[i] == pairs[i];
  }

  lemma PrecedesStays(pairs: seq<(string, Json)>, last: (string, Json), a: string, b: string)
    requires Precedes(pairs, a, b)
    ensures Precedes(pairs + [last], a, b)
  {
    var k, m :| FirstAt(pairs, a, k) && FirstAt(pairs, b, m) && k < m;
    FirstStays(pairs, last, a, k);
    FirstStays(pairs, last, b, m);
  }

  lemma LastStays(pairs: seq<(string, Json)>, last: (string, Json), entry: (string, Json))
    requires HasLast(pairs, entry) && last.0 != entry.0
    ensures HasLast(pairs + [last], entry)
  {
    var more := pairs + [last];
    var k :| LastAt(pairs, entry.0, k) && pairs[k].1 == entry.1;
    assert forall i :: 0 <= i < |pairs| ==> more[i] == pairs[i];
    assert LastAt(more, entry.0, k);
  }

  lemma NewestIsLast(pairs: seq<(string, Json)>, last: (string, Json))
    ensures HasLast(pairs + [last], last)
  {
    assert LastAt(pairs + [last], last.0, |pairs|);
  }

  /** Every key has a first occurrence. */
  lemma {:induction false} SomeFirst(pairs: seq<(string, Json)>, key: string, k: nat) returns (m: nat)
    requires k < |pairs| && pairs[k].0 == key
    ensures m <= k && FirstAt(pairs, key, m)
  {
    m := k;
    if i :| 0 <= i < k && pairs[i].0 == key {
      m := SomeFirst(pairs, key, i);
    }
  }

  lemma KeysArePairs(pairs: seq<(string, Json)>, entries: seq<(string, Json)>, i: nat)
    requires Merges(pairs, entries) && i < |entries|
    ensures HasKey(pairs, entries[i].0)
  {
    assert HasLast(pairs, entries[i]);
    var k :| LastAt(pairs, entries[i].0, k) && pairs[k].1 == entries[i].1;
  }

  /** One more pair: a new key goes to the end, an old one takes the value. */
  lemma MergesOneMore(pairs: seq<(string, Json)>, entries: seq<(string, Json)>, last: (string, Json))
    requires Merges(pairs, entries)
    ensures Merges(pairs + [last], Put(entries, last.0, last.1))
  {
    hide Put;
    if HasKey(entries, last.0) {
      var k :| 0 <= k < |entries| && entries[k].0 == last.0;
      OnlyThere(pairs, entries, k);
      PutOld(entries, last.0, last.1, k);
      MergesOld(pairs, entries, last, k);
    } else {
      PutNew(entries, last.0, last.1);
      MergesNew(pairs, entries, last);
    }
  }

  lemma OnlyThere(pairs: seq<(string, Json)>, entries: seq<(string, Json)>, k: nat)
    requires Merges(pairs, entries) && k < |entries|
    ensures forall i :: 0 <= i < |entries| && i != k ==> entries[i].0 != entries[k].0
  {
    forall i | 0 <= i < |entries| && i != k
      ensures entries[i].0 != entries[k].0
    {
      PrecedesNotItself(pairs, entries[k].0);
      if i < k {
        assert Precedes(pairs, entries[i].0, entries[k].0);
      } else {
        assert Precedes(pairs, entries[k].0, entries[i].0);
      }
    }
  }

  lemma PrecedesNotItself(pairs: seq<(string, Json)>, key: string)
    ensures !Precedes(pairs, key, key)
  {
  }

  lemma MergesOld(pairs: seq<(string, Json)>, entries: seq<(string, Json)>, last: (string, Json), k: nat)
    requires Merges(pairs, entries) && k < |entries| && entries[k].0 == last.0
    requires forall i :: 0 <= i < |entries| && i != k ==> entries[i].0 != last.0
    ensures Merges(pairs + [last], entries[k := last])
  {
    hide HasLast, Precedes, HasKey;
    var more, changed := pairs + [last], entries[k := last];
    assert forall i :: 0 <= i < |entries| ==> changed[i].0 == entries[i].0;
    forall i | 0 <= i < |changed|
      ensures HasLast(more, changed[i])
    {
      if i == k {
        NewestIsLast(pairs, last);
      } else {
        LastStays(pairs, last, entries[i]);
      }
    }
    forall i, j | 0 <= i < j < |changed|
      ensures Precedes(more, changed[i].0, changed[j].0)
    {
      PrecedesStays(pairs, last, entries[i].0, entries[j].0);
    }
    forall m | 0 <= m < |more|
      ensures HasKey(changed, more[m].0)
    {
      if m < |pairs| {
        assert more[m] == pairs[m];
        SameKeys(entries, changed, pairs[m].0);
      } else {
        IsKey(changed, k);
      }
    }
  }

  lemma IsKey(entries: seq<(string, Json)>, k: nat)
    requires k < |entries|
    ensures HasKey(entries, entries[k].0)
  {
  }

  lemma SameKeys(a: seq<(string, Json)>, b: seq<(string, Json)>, key: string)
    requires HasKey(a, key) && |a| <= |b| && forall i :: 0 <= i < |a| ==> a[i].0 == b[i].0
    ensures HasKey(b, key)
  {
  }

  lemma MergesNew(pairs: seq<(string, Json)>, entries: seq<(string, Json)>, last: (string, Json))
    requires Merges(pairs, entries) && !HasKey(entries, last.0)
    ensures Merges(pairs + [last], entries + [last])
  {
    hide HasLast, Precedes;
    var more, longer := pairs + [last], entries + [last];
    assert forall i :: 0 <= i < |entries| ==> longer[i] == entries[i] && entries[i].0 != last.0;
    forall i | 0 <= i < |longer|
      ensures HasLast(more, longer[i])
    {
      if i == |entries| {
        NewestIsLast(pairs, last);
      } else {
        LastStays(pairs, last, entries[i]);
      }
    }
    forall i, j | 0 <= i < j < |longer|
      ensures Precedes(more, longer[i].0, longer[j].0)
    {
      if j < |entries| {
        PrecedesStays(pairs, last, entries[i].0, entries[j].0);
      } else {
        KeysArePairs(pairs, entries, i);
        NewIsBehind(pairs, entries, last, entries[i].0);
      }
    }
    forall m | 0 <= m < |more|
      ensures HasKey(longer, more[m].0)
    {
      if m < |pairs| {
        assert more[m] == pairs[m];
        SameKeys(entries, longer, pairs[m].0);
      } else {
        IsKey(longer, |entries|);
      }
    }
  }

  lemma NewIsBehind(pairs: seq<(string, Json)>, entries: seq<(string, Json)>, last: (string, Json), key: string)
    requires (forall k :: 0 <= k < |pairs| ==> HasKey(entries, pairs[k].0)) && !HasKey(entries, last.0)
    requires HasKey(pairs, key)
    ensures Precedes(pairs + [last], key, last.0)
  {
    var more := pairs + [last];
    var k :| 0 <= k < |pairs| && pairs[k].0 == key;
    var m := SomeFirst(pairs, key, k);
    FirstStays(pairs, last, key, m);
    forall i | 0 <= i < |pairs|
      ensures more[i].0 != last.0
    {
      assert more[i] == pairs[i] && HasKey(entries, pairs[i].0);
    }
    assert FirstAt(more, last.0, |pairs|);
  }

  lemma {:induction false} EntriesMerge(kids: Kids, before: seq<(string, Json)>, done: seq<(string, Json)>)
    requires Merges(before, done)
    ensures Merges(before + Pairs(kids), EntriesOf(kids, done))
    decreases kids
  {
    hide Merges, Put;
    match kids
    case Nil =>
      assert before + [] == before;
    case Cons(key, head, tail) =>
      var pair := (key, JsonOf(head));
      MergesOneMore(before, done, pair);
      EntriesMerge(tail, before + [pair], Put(done, key, JsonOf(head)));
      Regroup(before, [pair], Pairs(tail));
  }

  /**
   * A dictionary that fits the limits becomes one with its distinct keys in the order of their first occurrence, each
   * with the converted value of its last.
   */
  lemma DictionaryMerges(heap: Heap, id: nat, kids: Kids)
    requires Closed(heap) && InHeap(heap, Ref(id)) && Unfolds(heap, Ref(id), DictTree(kids)) && WithinLimits(DictTree(kids))
    ensures var r := ToJsonSafe(heap, Ref(id));
      r.Ok? && r.value.JDict? && Merges(Pairs(kids), r.value.entries)
  {
    hide ToJsonSafe, Unfolds, WithinLimits, Merges;
    ConvertsExactly(heap, Ref(id));
    NothingMerges();
    EntriesMerge(kids, [], []);
    assert [] + Pairs(kids) == Pairs(kids);
  }

  lemma NothingMerges()
    ensures Merges([], [])
  {
  }
}
