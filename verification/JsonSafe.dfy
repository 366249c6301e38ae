/** `to_json_safe`: parsed YAML, with sharing and cycles, to a bounded JSON tree. */
module JsonSafe {
  import opened Text

  // ----- What the YAML loader returns: scalars, and references to containers that may be shared or cyclic -----

  datatype Value =
    | Null
    | Str(text: string)
    | Bool(flag: bool)
    | Int(number: int)
    | Finite(amount: real)
    | NonFinite(shown: string)    // inf, -inf, nan
    | Temporal(iso: string)       // datetime, date, time
    | Other(shownAs: string)      // anything else, by its `str`
    | Ref(id: nat)

  /** Keys are given by their `str`; a list stands for tuples and sets too. */
  datatype Container =
    | Dict(entries: seq<(string, Value)>)
    | List(items: seq<Value>)

  type Heap = map<nat, Container>

  predicate InHeap(heap: Heap, v: Value) {
    v.Ref? ==> v.id in heap
  }

  /** Every reference leads to a container. */
  predicate Closed(heap: Heap) {
    forall id :: id in heap ==>
      match heap[id]
      case Dict(entries) => forall i :: 0 <= i < |entries| ==> InHeap(heap, entries[i].1)
      case List(items) => forall i :: 0 <= i < |items| ==> InHeap(heap, items[i])
  }

  datatype Json =
    | JNull
    | JStr(text: string)
    | JBool(flag: bool)
    | JInt(number: int)
    | JReal(amount: real)
    | JList(items: seq<Json>)
    | JDict(entries: seq<(string, Json)>)

  /** `result[key] = item` on an insertion-ordered dictionary. */
  function Put(entries: seq<(string, Json)>, key: string, item: Json): seq<(string, Json)> {
    if entries == [] then [(key, item)]
    else if entries[0].0 == key then [(key, item)] + entries[1..]
    else [entries[0]] + Put(entries[1..], key, item)
  }

  datatype Error = BudgetExceeded | Cycle

  const MAX_DEPTH := 64
  const MAX_NODES := 10_000
  const MAX_CHARS := 1_000_000

  // ----- The walk -----

  /** A result together with the two running totals. */
  datatype Counted<T> = Counted(result: Result<T, Error>, nodes: nat, chars: nat)

  function Scalar(v: Value): Json
    requires !v.Ref?
  {
    match v
    case Null => JNull
    case Str(text) => JStr(text)
    case Bool(flag) => JBool(flag)
    case Int(number) => JInt(number)
    case Finite(amount) => JReal(amount)
    case NonFinite(shown) => JStr(shown)
    case Temporal(iso) => JStr(iso)
    case Other(shownAs) => JStr(shownAs)
  }

  /** `charge_chars` is called for text only; a non-finite float becomes text without it. */
  predicate IsCharged(v: Value) {
    v.Str? || v.Temporal? || v.Other?
  }

  /** The characters a scalar is charged. */
  function ScalarChars(v: Value): nat
    requires !v.Ref?
  {
    match v
    case Str(text) => |text|
    case Temporal(iso) => |iso|
    case Other(shownAs) => |shownAs|
    case _ => 0
  }

  function Convert(heap: Heap, v: Value, nodes: nat, chars: nat, depth: nat, active: set<nat>): Counted<Json>
    requires Closed(heap) && InHeap(heap, v)
    decreases MAX_DEPTH + 2 - depth, 0
  {
    if nodes + 1 > MAX_NODES || depth > MAX_DEPTH then Counted(Err(BudgetExceeded), nodes + 1, chars)
    else if !v.Ref? then
      var total := chars + ScalarChars(v);
      Counted(if IsCharged(v) && total > MAX_CHARS then Err(BudgetExceeded) else Ok(Scalar(v)), nodes + 1, total)
    else if v.id in active then Counted(Err(Cycle), nodes + 1, chars)
    else
      match heap[v.id]
      case Dict(entries) =>
        var walked := ConvertEntries(heap, entries, [], nodes + 1, chars, depth + 1, active + {v.id});
        Counted(if walked.result.Ok? then Ok(JDict(walked.result.value)) else Err(walked.result.error), walked.nodes, walked.chars)
      case List(items) =>
        var walked := ConvertItems(heap, items, [], nodes + 1, chars, depth + 1, active + {v.id});
        Counted(if walked.result.Ok? then Ok(JList(walked.result.value)) else Err(walked.result.error), walked.nodes, walked.chars)
  }

  function ConvertItems(heap: Heap, items: seq<Value>, done: seq<Json>, nodes: nat, chars: nat, depth: nat, active: set<nat>)
    : Counted<seq<Json>>
    requires Closed(heap) && forall i :: 0 <= i < |items| ==> InHeap(heap, items[i])
    decreases MAX_DEPTH + 2 - depth, 1, |items|
  {
    if items == [] then Counted(Ok(done), nodes, chars)
    else
      var head := Convert(heap, items[0], nodes, chars, depth, active);
      if head.result.Err? then Counted(Err(head.result.error), head.nodes, head.chars)
      else ConvertItems(heap, items[1..], done + [head.result.value], head.nodes, head.chars, depth, active)
  }

  function ConvertEntries(heap: Heap, entries: seq<(string, Value)>, done: seq<(string, Json)>, nodes: nat, chars: nat,
                          depth: nat, active: set<nat>): Counted<seq<(string, Json)>>
    requires Closed(heap) && forall i :: 0 <= i < |entries| ==> InHeap(heap, entries[i].1)
    decreases MAX_DEPTH + 2 - depth, 1, |entries|
  {
    if entries == [] then Counted(Ok(done), nodes, chars)
    else if nodes + 1 > MAX_NODES then Counted(Err(BudgetExceeded), nodes + 1, chars)
    else
      var (key, item) := entries[0];
      if chars + |key| > MAX_CHARS then Counted(Err(BudgetExceeded), nodes + 1, chars + |key|)
      else
        var head := Convert(heap, item, nodes + 1, chars + |key|, depth, active);
        if head.result.Err? then Counted(Err(head.result.error), head.nodes, head.chars)
        else
          ConvertEntries(heap, entries[1..], Put(done, key, head.result.value), head.nodes, head.chars, depth, active)
  }

  // ----- The finite trees a value may unfold to -----

  datatype Tree = Leaf(v: Value) | ListTree(kids: Kids) | DictTree(kids: Kids)

  /** A dictionary's children carry their key; a list's carry "". */
  datatype Kids = Nil | Cons(key: string, head: Tree, tail: Kids)

  /** `t` is `v` with every reference followed, with no sharing left. */
  ghost predicate Unfolds(heap: Heap, v: Value, t: Tree)
    decreases t
  {
    match t
    case Leaf(w) => !v.Ref? && w == v
    case ListTree(kids) => v.Ref? && v.id in heap && heap[v.id].List? && ItemsUnfold(heap, heap[v.id].items, kids)
    case DictTree(kids) => v.Ref? && v.id in heap && heap[v.id].Dict? && EntriesUnfold(heap, heap[v.id].entries, kids)
  }

  ghost predicate ItemsUnfold(heap: Heap, items: seq<Value>, kids: Kids)
    decreases kids
  {
    match kids
    case Nil => items == []
    case Cons(key, head, tail) => items != [] && key == "" && Unfolds(heap, items[0], head) && ItemsUnfold(heap, items[1..], tail)
  }

  ghost predicate EntriesUnfold(heap: Heap, entries: seq<(string, Value)>, kids: Kids)
    decreases kids
  {
    match kids
    case Nil => entries == []
    case Cons(key, head, tail) =>
      entries != [] && key == entries[0].0 && Unfolds(heap, entries[0].1, head) && EntriesUnfold(heap, entries[1..], tail)
  }

  /** Output nodes: every value, and every dictionary key. */
  function Nodes(t: Tree): nat {
    match t
    case Leaf(_) => 1
    case ListTree(kids) => 1 + KidsNodes(kids, 0)
    case DictTree(kids) => 1 + KidsNodes(kids, 1)
  }

  function KidsNodes(kids: Kids, keyCost: nat): nat {
    match kids
    case Nil => 0
    case Cons(_, head, tail) => keyCost + Nodes(head) + KidsNodes(tail, keyCost)
  }

  /** Output characters: text and keys. */
  function Chars(t: Tree): nat {
    match t
    case Leaf(v) => if v.Ref? then 0 else ScalarChars(v)
    case ListTree(kids) => KidsChars(kids)
    case DictTree(kids) => KidsChars(kids)
  }

  function KidsChars(kids: Kids): nat {
    match kids
    case Nil => 0
    case Cons(key, head, tail) => |key| + Chars(head) + KidsChars(tail)
  }

  function Height(t: Tree): nat {
    match t
    case Leaf(_) => 0
    case ListTree(kids) => KidsHeight(kids)
    case DictTree(kids) => KidsHeight(kids)
  }

  /** One more than the tallest child, or 0 without children. */
  function KidsHeight(kids: Kids): nat {
    match kids
    case Nil => 0
    case Cons(_, head, tail) => if 1 + Height(head) > KidsHeight(tail) then 1 + Height(head) else KidsHeight(tail)
  }

  /** The tree as JSON; of two entries whose keys read alike, the first gives the place and the last the value. */
  function JsonOf(t: Tree): Json
    decreases t
  {
    match t
    case Leaf(v) => if v.Ref? then JNull else Scalar(v)
    case ListTree(kids) => JList(ItemsOf(kids))
    case DictTree(kids) => JDict(EntriesOf(kids, []))
  }

  function ItemsOf(kids: Kids): seq<Json>
    decreases kids
  {
    match kids
    case Nil => []
    case Cons(_, head, tail) => [JsonOf(head)] + ItemsOf(tail)
  }

  function EntriesOf(kids: Kids, done: seq<(string, Json)>): seq<(string, Json)>
    decreases kids
  {
    match kids
    case Nil => done
    case Cons(key, head, tail) => EntriesOf(tail, Put(done, key, JsonOf(head)))
  }

  /** A value has at most one unfolding. */
  lemma {:induction false} UnfoldingIsUnique(heap: Heap, v: Value, t: Tree, u: Tree)
    requires Unfolds(heap, v, t) && Unfolds(heap, v, u)
    ensures t == u
    decreases t
  {
    match t
    case Leaf(_) =>
    case ListTree(kids) => ItemsUnique(heap, heap[v.id].items, kids, u.kids);
    case DictTree(kids) => EntriesUnique(heap, heap[v.id].entries, kids, u.kids);
  }

  lemma {:induction false} ItemsUnique(heap: Heap, items: seq<Value>, ks: Kids, ls: Kids)
    requires ItemsUnfold(heap, items, ks) && ItemsUnfold(heap, items, ls)
    ensures ks == ls
    decreases ks
  {
    if ks.Cons? {
      UnfoldingIsUnique(heap, items[0], ks.head, ls.head);
      ItemsUnique(heap, items[1..], ks.tail, ls.tail);
    }
  }

  lemma {:induction false} EntriesUnique(heap: Heap, entries: seq<(string, Value)>, ks: Kids, ls: Kids)
    requires EntriesUnfold(heap, entries, ks) && EntriesUnfold(heap, entries, ls)
    ensures ks == ls
    decreases ks
  {
    if ks.Cons? {
      UnfoldingIsUnique(heap, entries[0].1, ks.head, ls.head);
      EntriesUnique(heap, entries[1..], ks.tail, ls.tail);
    }
  }

  // ----- A conversion that succeeds is the unfolding -----

  lemma {:induction false} OkUnfolds(heap: Heap, v: Value, nodes: nat, chars: nat, depth: nat, active: set<nat>) returns (t: Tree)
    requires Closed(heap) && InHeap(heap, v) && chars <= MAX_CHARS
    requires Convert(heap, v, nodes, chars, depth, active).result.Ok?
    ensures Unfolds(heap, v, t)
    ensures var r := Convert(heap, v, nodes, chars, depth, active);
      && r.result.value == JsonOf(t) && r.nodes == nodes + Nodes(t) <= MAX_NODES && r.chars == chars + Chars(t) <= MAX_CHARS
      && depth + Height(t) <= MAX_DEPTH
    decreases MAX_DEPTH + 2 - depth, 0
  {
    if !v.Ref? {
      t := Leaf(v);
    } else if heap[v.id].Dict? {
      var kids := EntriesOkUnfold(heap, heap[v.id].entries, [], nodes + 1, chars, depth + 1, active + {v.id});
      t := DictTree(kids);
    } else {
      var kids := ItemsOkUnfold(heap, heap[v.id].items, [], nodes + 1, chars, depth + 1, active + {v.id});
      t := ListTree(kids);
    }
  }

  lemma {:induction false} ItemsOkUnfold(heap: Heap, items: seq<Value>, done: seq<Json>, nodes: nat, chars: nat, depth: nat,
                                         active: set<nat>) returns (kids: Kids)
    requires Closed(heap) && (forall i :: 0 <= i < |items| ==> InHeap(heap, items[i])) && nodes <= MAX_NODES && chars <= MAX_CHARS
    requires 1 <= depth <= MAX_DEPTH + 1
    requires ConvertItems(heap, items, done, nodes, chars, depth, active).result.Ok?
    ensures ItemsUnfold(heap, items, kids)
    ensures var r := ConvertItems(heap, items, done, nodes, chars, depth, active);
      && r.result.value == done + ItemsOf(kids)
      && r.nodes == nodes + KidsNodes(kids, 0) <= MAX_NODES && r.chars == chars + KidsChars(kids) <= MAX_CHARS
      && depth - 1 + KidsHeight(kids) <= MAX_DEPTH
    decreases MAX_DEPTH + 2 - depth, 1, |items|
  {
    if items == [] {
      kids := Nil;
    } else {
      var head := OkUnfolds(heap, items[0], nodes, chars, depth, active);
      var r := Convert(heap, items[0], nodes, chars, depth, active);
      var tail := ItemsOkUnfold(heap, items[1..], done + [r.result.value], r.nodes, r.chars, depth, active);
      kids := Cons("", head, tail);
      assert done + [r.result.value] + ItemsOf(tail) == done + ItemsOf(kids);
    }
  }

  lemma {:induction false} EntriesOkUnfold(heap: Heap, entries: seq<(string, Value)>, done: seq<(string, Json)>, nodes: nat,
                                           chars: nat, depth: nat, active: set<nat>) returns (kids: Kids)
    requires Closed(heap) && (forall i :: 0 <= i < |entries| ==> InHeap(heap, entries[i].1)) && nodes <= MAX_NODES && chars <= MAX_CHARS
    requires 1 <= depth <= MAX_DEPTH + 1
    requires ConvertEntries(heap, entries, done, nodes, chars, depth, active).result.Ok?
    ensures EntriesUnfold(heap, entries, kids)
    ensures var r := ConvertEntries(heap, entries, done, nodes, chars, depth, active);
      && r.result.value == EntriesOf(kids, done)
      && r.nodes == nodes + KidsNodes(kids, 1) <= MAX_NODES && r.chars == chars + KidsChars(kids) <= MAX_CHARS
      && depth - 1 + KidsHeight(kids) <= MAX_DEPTH
    decreases MAX_DEPTH + 2 - depth, 1, |entries|
  {
    if entries == [] {
      kids := Nil;
    } else {
      var (key, item) := entries[0];
      var head := OkUnfolds(heap, item, nodes + 1, chars + |key|, depth, active);
      var r := Convert(heap, item, nodes + 1, chars + |key|, depth, active);
      var tail := EntriesOkUnfold(heap, entries[1..], Put(done, key, r.result.value), r.nodes, r.chars, depth, active);
      kids := Cons(key, head, tail);
    }
  }

  // ----- An unfolding within the limits is converted -----

  /** `a` is an ancestor of whatever unfolds to `n` nodes or fewer. */
  ghost predicate Above(heap: Heap, a: nat, n: nat) {
    exists t :: Unfolds(heap, Ref(a), t) && Nodes(t) > n
  }

  /** Every active container is an ancestor of that sort. */
  ghost predicate AllAbove(heap: Heap, active: set<nat>, n: nat) {
    forall a :: a in active ==> Above(heap, a, n)
  }

  lemma AboveLess(heap: Heap, active: set<nat>, n: nat, m: nat)
    requires AllAbove(heap, active, n) && m <= n
    ensures AllAbove(heap, active, m)
  {
    forall a | a in active
      ensures Above(heap, a, m)
    {
      var t :| Unfolds(heap, Ref(a), t) && Nodes(t) > n;
    }
  }

  /** A value with a finite unfolding is none of its own ancestors, and is one of its content. */
  lemma EntersContainer(heap: Heap, id: nat, t: Tree, active: set<nat>)
    requires Unfolds(heap, Ref(id), t) && AllAbove(heap, active, Nodes(t))
    ensures id !in active && Nodes(t) >= 1 && AllAbove(heap, active + {id}, Nodes(t) - 1)
  {
    hide Unfolds, Nodes, Above;
    if id in active {
      NotAbove(heap, id, t);
    }
    SomeNodes(t);
    AboveLess(heap, active, Nodes(t), Nodes(t) - 1);
    IsAbove(heap, id, t);
  }

  lemma NotAbove(heap: Heap, id: nat, t: Tree)
    requires Unfolds(heap, Ref(id), t)
    ensures !Above(heap, id, Nodes(t))
  {
    hide Unfolds, Nodes;
    if Above(heap, id, Nodes(t)) {
      var u :| Unfolds(heap, Ref(id), u) && Nodes(u) > Nodes(t);
      UnfoldingIsUnique(heap, Ref(id), t, u);
    }
  }

  lemma SomeNodes(t: Tree)
    ensures Nodes(t) >= 1
  {
  }

  lemma IsAbove(heap: Heap, id: nat, t: Tree)
    requires Unfolds(heap, Ref(id), t) && Nodes(t) >= 1
    ensures Above(heap, id, Nodes(t) - 1)
  {
    hide Unfolds, Nodes;
  }

  lemma {:induction false} UnfoldingConverts(heap: Heap, v: Value, t: Tree, nodes: nat, chars: nat, depth: nat, active: set<nat>)
    requires Closed(heap) && InHeap(heap, v) && Unfolds(heap, v, t) && AllAbove(heap, active, Nodes(t))
    requires nodes + Nodes(t) <= MAX_NODES && chars + Chars(t) <= MAX_CHARS && depth + Height(t) <= MAX_DEPTH
    ensures Convert(heap, v, nodes, chars, depth, active) == Counted(Ok(JsonOf(t)), nodes + Nodes(t), chars + Chars(t))
    decreases t
  {
    hide AllAbove, Convert, ConvertItems, ConvertEntries, EntriesUnfold, ItemsUnfold, Unfolds, Nodes, Chars, Height, JsonOf, ItemsOf,
      EntriesOf, KidsNodes, KidsChars, KidsHeight, Closed;
    if !v.Ref? {
      LeafShape(heap, v, t);
      ScalarConverts(heap, v, nodes, chars, depth, active);
    } else {
      EntersContainer(heap, v.id, t, active);
      RefConverts(heap, v.id, nodes, chars, depth, active);
      ContentInHeap(heap, v.id);
      ContainerShape(heap, v.id, t);
      if t.DictTree? {
        EntriesConvert(heap, heap[v.id].entries, t.kids, [], nodes + 1, chars, depth + 1, active + {v.id});
      } else {
        ItemsConvert(heap, heap[v.id].items, t.kids, [], nodes + 1, chars, depth + 1, active + {v.id});
        assert [] + ItemsOf(t.kids) == ItemsOf(t.kids);
      }
    }
  }

  lemma LeafShape(heap: Heap, v: Value, t: Tree)
    requires Unfolds(heap, v, t) && !v.Ref?
    ensures t == Leaf(v) && Nodes(t) == 1 && Chars(t) == ScalarChars(v) && Height(t) == 0 && JsonOf(t) == Scalar(v)
  {
  }

  lemma ContainerShape(heap: Heap, id: nat, t: Tree)
    requires Unfolds(heap, Ref(id), t)
    ensures id in heap && !t.Leaf? && Chars(t) == KidsChars(t.kids) && Height(t) == KidsHeight(t.kids)
    ensures t.DictTree? ==>
      && heap[id].Dict? && EntriesUnfold(heap, heap[id].entries, t.kids)
      && Nodes(t) == 1 + KidsNodes(t.kids, 1) && JsonOf(t) == JDict(EntriesOf(t.kids, []))
    ensures t.ListTree? ==>
      && heap[id].List? && ItemsUnfold(heap, heap[id].items, t.kids)
      && Nodes(t) == 1 + KidsNodes(t.kids, 0) && JsonOf(t) == JList(ItemsOf(t.kids))
  {
  }

  lemma ContentInHeap(heap: Heap, id: nat)
    requires Closed(heap) && id in heap
    ensures heap[id].Dict? ==> forall i :: 0 <= i < |heap[id].entries| ==> InHeap(heap, heap[id].entries[i].1)
    ensures heap[id].List? ==> forall i :: 0 <= i < |heap[id].items| ==> InHeap(heap, heap[id].items[i])
  {
  }

  lemma ScalarConverts(heap: Heap, v: Value, nodes: nat, chars: nat, depth: nat, active: set<nat>)
    requires Closed(heap) && InHeap(heap, v) && !v.Ref?
    requires nodes + 1 <= MAX_NODES && depth <= MAX_DEPTH && chars + ScalarChars(v) <= MAX_CHARS
    ensures Convert(heap, v, nodes, chars, depth, active) == Counted(Ok(Scalar(v)), nodes + 1, chars + ScalarChars(v))
  {
  }

  /** A container that is none of its ancestors is converted as its content is. */
  lemma RefConverts(heap: Heap, id: nat, nodes: nat, chars: nat, depth: nat, active: set<nat>)
    requires Closed(heap) && InHeap(heap, Ref(id)) && nodes + 1 <= MAX_NODES && depth <= MAX_DEPTH && id !in active
    ensures var r := Convert(heap, Ref(id), nodes, chars, depth, active);
      match heap[id]
      case Dict(entries) =>
        var walked := ConvertEntries(heap, entries, [], nodes + 1, chars, depth + 1, active + {id});
        r == Counted(if walked.result.Ok? then Ok(JDict(walked.result.value)) else Err(walked.result.error), walked.nodes, walked.chars)
      case List(items) =>
        var walked := ConvertItems(heap, items, [], nodes + 1, chars, depth + 1, active + {id});
        r == Counted(if walked.result.Ok? then Ok(JList(walked.result.value)) else Err(walked.result.error), walked.nodes, walked.chars)
  {
    hide ConvertItems, ConvertEntries;
  }

  lemma {:induction false} ItemsConvert(heap: Heap, items: seq<Value>, kids: Kids, done: seq<Json>, nodes: nat, chars: nat,
                                        depth: nat, active: set<nat>)
    requires Closed(heap) && (forall i :: 0 <= i < |items| ==> InHeap(heap, items[i])) && ItemsUnfold(heap, items, kids)
    requires AllAbove(heap, active, KidsNodes(kids, 0))
    requires nodes + KidsNodes(kids, 0) <= MAX_NODES && chars + KidsChars(kids) <= MAX_CHARS
    requires depth >= 1 && depth - 1 + KidsHeight(kids) <= MAX_DEPTH
    ensures ConvertItems(heap, items, done, nodes, chars, depth, active)
         == Counted(Ok(done + ItemsOf(kids)), nodes + KidsNodes(kids, 0), chars + KidsChars(kids))
    decreases kids
  {
    hide AllAbove, Convert;
    if kids.Cons? {
      AboveLess(heap, active, KidsNodes(kids, 0), Nodes(kids.head));
      AboveLess(heap, active, KidsNodes(kids, 0), KidsNodes(kids.tail, 0));
      UnfoldingConverts(heap, items[0], kids.head, nodes, chars, depth, active);
      ItemsConvert(heap, items[1..], kids.tail, done + [JsonOf(kids.head)], nodes + Nodes(kids.head), chars + Chars(kids.head), depth, active);
      assert done + [JsonOf(kids.head)] + ItemsOf(kids.tail) == done + ItemsOf(kids);
    } else {
      assert done + ItemsOf(kids) == done;
    }
  }

  lemma {:induction false} EntriesConvert(heap: Heap, entries: seq<(string, Value)>, kids: Kids, done: seq<(string, Json)>,
                                          nodes: nat, chars: nat, depth: nat, active: set<nat>)
    requires Closed(heap) && (forall i :: 0 <= i < |entries| ==> InHeap(heap, entries[i].1)) && EntriesUnfold(heap, entries, kids)
    requires AllAbove(heap, active, KidsNodes(kids, 1))
    requires nodes + KidsNodes(kids, 1) <= MAX_NODES && chars + KidsChars(kids) <= MAX_CHARS
    requires depth >= 1 && depth - 1 + KidsHeight(kids) <= MAX_DEPTH
    ensures ConvertEntries(heap, entries, done, nodes, chars, depth, active)
         == Counted(Ok(EntriesOf(kids, done)), nodes + KidsNodes(kids, 1), chars + KidsChars(kids))
    decreases kids
  {
    hide AllAbove, Convert;
    if kids.Cons? {
      AboveLess(heap, active, KidsNodes(kids, 1), Nodes(kids.head));
      AboveLess(heap, active, KidsNodes(kids, 1), KidsNodes(kids.tail, 1));
      UnfoldingConverts(heap, entries[0].1, kids.head, nodes + 1, chars + |kids.key|, depth, active);
      EntriesConvert(heap, entries[1..], kids.tail, Put(done, kids.key, JsonOf(kids.head)), nodes + 1 + Nodes(kids.head),
        chars + |kids.key| + Chars(kids.head), depth, active);
    }
  }

  /** `to_json_safe` */
  function ToJsonSafe(heap: Heap, v: Value): Result<Json, Error>
    requires Closed(heap) && InHeap(heap, v)
  {
    Convert(heap, v, 0, 0, 0, {}).result
  }

  ghost predicate WithinLimits(t: Tree) {
    Nodes(t) <= 10_000 && Chars(t) <= 1_000_000 && Height(t) <= 64
  }

  /** On any graph: success exactly when there is a finite unfolding within all three limits, and then it is that unfolding. */
  lemma ConvertsExactly(heap: Heap, v: Value)
    requires Closed(heap) && InHeap(heap, v)
    ensures ToJsonSafe(heap, v).Ok? <==> exists t :: Unfolds(heap, v, t) && WithinLimits(t)
    ensures forall t :: Unfolds(heap, v, t) && WithinLimits(t) ==> ToJsonSafe(heap, v) == Ok(JsonOf(t))
  {
    hide Convert, Unfolds, Nodes, Chars, Height, JsonOf;
    if ToJsonSafe(heap, v).Ok? {
      var t := OkUnfolds(heap, v, 0, 0, 0, {});
      assert Unfolds(heap, v, t) && WithinLimits(t);
    }
    forall t | Unfolds(heap, v, t) && WithinLimits(t)
      ensures ToJsonSafe(heap, v) == Ok(JsonOf(t))
    {
      UnfoldingConverts(heap, v, t, 0, 0, 0, {});
    }
  }

  // ----- The cycle error -----

  predicate IsChild(heap: Heap, id: nat, v: Value) {
    id in heap && (
      match heap[id]
      case Dict(entries) => exists i :: 0 <= i < |entries| && entries[i].1 == v
      case List(items) => v in items)
  }

  /** `v` lies `steps` references below the container `id`. */
  ghost predicate Reaches(heap: Heap, id: nat, v: Value, steps: nat)
    decreases steps
  {
    steps > 0 && (if steps == 1 then IsChild(heap, id, v) else exists via :: Reaches(heap, id, Ref(via), steps - 1) && IsChild(heap, via, v))
  }

  /** `v` is `root` or lies below it. */
  ghost predicate From(heap: Heap, root: Value, v: Value) {
    root == v || (root.Ref? && exists steps: nat :: Reaches(heap, root.id, v, steps))
  }

  ghost predicate Below(heap: Heap, active: set<nat>, v: Value) {
    forall a :: a in active ==> exists steps: nat :: Reaches(heap, a, v, steps)
  }

  ghost predicate OnCycle(heap: Heap, id: nat) {
    exists steps: nat :: Reaches(heap, id, Ref(id), steps)
  }

  /** Some container in reach of `root` lies below itself. */
  ghost predicate Cyclic(heap: Heap, root: Value) {
    exists id: nat :: From(heap, root, Ref(id)) && OnCycle(heap, id)
  }

  lemma OneStepOn(heap: Heap, a: nat, id: nat, v: Value, steps: nat)
    requires Reaches(heap, a, Ref(id), steps) && IsChild(heap, id, v)
    ensures Reaches(heap, a, v, steps + 1)
  {
    hide IsChild;
  }

  lemma ChildBelow(heap: Heap, root: Value, active: set<nat>, id: nat, v: Value)
    requires From(heap, root, Ref(id)) && Below(heap, active, Ref(id)) && IsChild(heap, id, v)
    ensures From(heap, root, v) && Below(heap, active + {id}, v)
  {
    assert Reaches(heap, id, v, 1);
    hide IsChild, Reaches;
    forall a | a in active
      ensures exists steps: nat :: Reaches(heap, a, v, steps)
    {
      var steps: nat :| Reaches(heap, a, Ref(id), steps);
      OneStepOn(heap, a, id, v, steps);
    }
    if root != Ref(id) {
      var steps: nat :| Reaches(heap, root.id, Ref(id), steps);
      OneStepOn(heap, root.id, id, v, steps);
    }
  }

  lemma {:induction false} CycleIsReal(heap: Heap, root: Value, v: Value, nodes: nat, chars: nat, depth: nat, active: set<nat>)
    requires Closed(heap) && InHeap(heap, v) && From(heap, root, v) && Below(heap, active, v)
    requires Convert(heap, v, nodes, chars, depth, active).result == Err(Cycle)
    ensures Cyclic(heap, root)
    decreases MAX_DEPTH + 2 - depth, 0
  {
    hide Reaches, From;
    if v.id in active {
      assert OnCycle(heap, v.id);
    } else if heap[v.id].Dict? {
      EntriesCycle(heap, root, heap[v.id].entries, [], nodes + 1, chars, depth + 1, active, v.id);
    } else {
      ItemsCycle(heap, root, heap[v.id].items, [], nodes + 1, chars, depth + 1, active, v.id);
    }
  }

  lemma {:induction false} ItemsCycle(heap: Heap, root: Value, items: seq<Value>, done: seq<Json>, nodes: nat, chars: nat,
                                      depth: nat, active: set<nat>, id: nat)
    requires Closed(heap) && (forall i :: 0 <= i < |items| ==> InHeap(heap, items[i])) && From(heap, root, Ref(id))
    requires Below(heap, active, Ref(id)) && forall i :: 0 <= i < |items| ==> IsChild(heap, id, items[i])
    requires ConvertItems(heap, items, done, nodes, chars, depth, active + {id}).result == Err(Cycle)
    ensures Cyclic(heap, root)
    decreases MAX_DEPTH + 2 - depth, 1, |items|
  {
    hide Reaches, IsChild, Cyclic, From, Below;
    var r := Convert(heap, items[0], nodes, chars, depth, active + {id});
    if r.result.Err? {
      ChildBelow(heap, root, active, id, items[0]);
      CycleIsReal(heap, root, items[0], nodes, chars, depth, active + {id});
    } else {
      ItemsCycle(heap, root, items[1..], done + [r.result.value], r.nodes, r.chars, depth, active, id);
    }
  }

  lemma {:induction false} EntriesCycle(heap: Heap, root: Value, entries: seq<(string, Value)>, done: seq<(string, Json)>,
                                        nodes: nat, chars: nat, depth: nat, active: set<nat>, id: nat)
    requires Closed(heap) && (forall i :: 0 <= i < |entries| ==> InHeap(heap, entries[i].1)) && From(heap, root, Ref(id))
    requires Below(heap, active, Ref(id)) && forall i :: 0 <= i < |entries| ==> IsChild(heap, id, entries[i].1)
    requires ConvertEntries(heap, entries, done, nodes, chars, depth, active + {id}).result == Err(Cycle)
    ensures Cyclic(heap, root)
    decreases MAX_DEPTH + 2 - depth, 1, |entries|
  {
    hide Reaches, IsChild, Cyclic, From, Below;
    var (key, item) := entries[0];
    var r := Convert(heap, item, nodes + 1, chars + |key|, depth, active + {id});
    if r.result.Err? {
      ChildBelow(heap, root, active, id, item);
      CycleIsReal(heap, root, item, nodes + 1, chars + |key|, depth, active + {id});
    } else {
      EntriesCycle(heap, root, entries[1..], Put(done, key, r.result.value), r.nodes, r.chars, depth, active, id);
    }
  }

  /** The cycle error is raised only when some container in reach lies below itself. */
  lemma CycleErrorIsHonest(heap: Heap, v: Value)
    requires Closed(heap) && InHeap(heap, v) && ToJsonSafe(heap, v) == Err(Cycle)
    ensures Cyclic(heap, v)
  {
    hide Convert, Cyclic, Reaches;
    CycleIsReal(heap, v, v, 0, 0, 0, {});
  }

  // ----- The walk as the service runs it: counters and an active set that change under recursion -----

  class ConversionBudget {
    var nodes: nat
    var chars: nat

    constructor ()
      ensures nodes == 0 && chars == 0
    {
      nodes, chars := 0, 0;
    }

    method ChargeNode() returns (ok: bool)
      modifies this`nodes
      ensures nodes == old(nodes) + 1 && ok == (nodes <= MAX_NODES)
    {
      nodes := nodes + 1;
      ok := nodes <= MAX_NODES;
    }

    method ChargeChars(count: nat) returns (ok: bool)
      modifies this`chars
      ensures chars == old(chars) + count && ok == (chars <= MAX_CHARS)
    {
      chars := chars + count;
      ok := chars <= MAX_CHARS;
    }
  }

  /** The containers being converted, from the outermost in. */
  class ActiveSet {
    var ids: set<nat>

    constructor ()
      ensures ids == {}
    {
      ids := {};
    }
  }

  /** `_to_json_safe`: on return and on every error alike, the active set is as it was. */
  method Walk(heap: Heap, v: Value, budget: ConversionBudget, depth: nat, active: ActiveSet) returns (r: Result<Json, Error>)
    requires Closed(heap) && InHeap(heap, v)
    modifies budget, active
    ensures active.ids == old(active.ids)
    ensures Counted(r, budget.nodes, budget.chars)
         == Convert(heap, v, old(budget.nodes), old(budget.chars), depth, old(active.ids))
    decreases MAX_DEPTH + 2 - depth, 0
  {
    var fits := budget.ChargeNode();
    if !fits || depth > MAX_DEPTH {
      return Err(BudgetExceeded);
    }
    if !v.Ref? {
      if IsCharged(v) {
        fits := budget.ChargeChars(ScalarChars(v));
        if !fits {
          return Err(BudgetExceeded);
        }
      }
      return Ok(Scalar(v));
    }
    if v.id in active.ids {
      return Err(Cycle);
    }
    active.ids := active.ids + {v.id};
    match heap[v.id] {
      case Dict(entries) => r := WalkEntries(heap, entries, budget, depth + 1, active);
      case List(items) => r := WalkItems(heap, items, budget, depth + 1, active);
    }
    active.ids := active.ids - {v.id};
  }

  method WalkItems(heap: Heap, items: seq<Value>, budget: ConversionBudget, depth: nat, active: ActiveSet) returns (r: Result<Json, Error>)
    requires Closed(heap) && forall i :: 0 <= i < |items| ==> InHeap(heap, items[i])
    modifies budget, active
    ensures active.ids == old(active.ids)
    ensures var spec := ConvertItems(heap, items, [], old(budget.nodes), old(budget.chars), depth, old(active.ids));
      && budget.nodes == spec.nodes && budget.chars == spec.chars
      && r == if spec.result.Ok? then Ok(JList(spec.result.value)) else Err(spec.result.error)
    decreases MAX_DEPTH + 2 - depth, 1
  {
    ghost var spec := ConvertItems(heap, items, [], budget.nodes, budget.chars, depth, active.ids);
    var converted := [];
    for i := 0 to |items|
      invariant active.ids == old(active.ids)
      invariant spec == ConvertItems(heap, items[i..], converted, budget.nodes, budget.chars, depth, active.ids)
    {
      assert items[i..][0] == items[i] && items[i..][1..] == items[i + 1..];
      var item := Walk(heap, items[i], budget, depth, active);
      if item.Err? {
        return Err(item.error);
      }
      converted := converted + [item.value];
    }
    return Ok(JList(converted));
  }

  method WalkEntries(heap: Heap, entries: seq<(string, Value)>, budget: ConversionBudget, depth: nat, active: ActiveSet)
    returns (r: Result<Json, Error>)
    requires Closed(heap) && forall i :: 0 <= i < |entries| ==> InHeap(heap, entries[i].1)
    modifies budget, active
    ensures active.ids == old(active.ids)
    ensures var spec := ConvertEntries(heap, entries, [], old(budget.nodes), old(budget.chars), depth, old(active.ids));
      && budget.nodes == spec.nodes && budget.chars == spec.chars
      && r == if spec.result.Ok? then Ok(JDict(spec.result.value)) else Err(spec.result.error)
    decreases MAX_DEPTH + 2 - depth, 1
  {
    ghost var spec := ConvertEntries(heap, entries, [], budget.nodes, budget.chars, depth, active.ids);
    var converted := [];
    for i := 0 to |entries|
      invariant active.ids == old(active.ids)
      invariant spec == ConvertEntries(heap, entries[i..], converted, budget.nodes, budget.chars, depth, active.ids)
    {
      assert entries[i..][0] == entries[i] && entries[i..][1..] == entries[i + 1..];
      var fits := budget.ChargeNode();
      if !fits {
        return Err(BudgetExceeded);
      }
      fits := budget.ChargeChars(|entries[i].0|);
      if !fits {
        return Err(BudgetExceeded);
      }
      var item := Walk(heap, entries[i].1, budget, depth, active);
      if item.Err? {
        return Err(item.error);
      }
      converted := Put(converted, entries[i].0, item.value);
    }
    return Ok(JDict(converted));
  }

  /** `to_json_safe` on fresh counters. */
  method ConvertYaml(heap: Heap, v: Value) returns (r: Result<Json, Error>)
    requires Closed(heap) && InHeap(heap, v)
    ensures r.Ok? <==> exists t :: Unfolds(heap, v, t) && WithinLimits(t)
    ensures forall t :: Unfolds(heap, v, t) && WithinLimits(t) ==> r == Ok(JsonOf(t))
    ensures r == Err(Cycle) ==> Cyclic(heap, v)
  {
    hide Convert, Unfolds, WithinLimits, JsonOf, Cyclic;
    var budget := new ConversionBudget();
    var active := new ActiveSet();
    r := Walk(heap, v, budget, 0, active);
    assert r == ToJsonSafe(heap, v);
    ConvertsExactly(heap, v);
    if r == Err(Cycle) {
      CycleErrorIsHonest(heap, v);
    }
  }
}
