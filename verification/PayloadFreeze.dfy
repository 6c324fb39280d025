/** The bounded, cycle-safe copy of a payload object graph into immutable containers. */
module PayloadFreeze {
  import opened Common
  import opened CanonicalJson

  const MAX_NESTING: nat := 32
  const MAX_NODES: nat := 4096
  const MAX_TEXT_CHARS: nat := 65536
  const MAX_IDENTIFIER_CHARS: nat := 256
  const MIN_JSON_INTEGER: int := -0x8000_0000_0000_0000

  /** A Python value; containers live in a heap and are reached by identity. A reference that the
      heap does not resolve is an object of an unsupported type. A float that is not finite has no text. */
  datatype Value =
    | VNull
    | VBool(b: bool)
    | VInt(i: int)
    | VFloat(lexeme: Option<string>)
    | VString(s: string)
    | VRef(id: nat)

  datatype Key = StringKey(text: string) | OtherKey

  datatype Container =
    | Mapping(entries: seq<(Key, Value)>)
    | Sequence(items: seq<Value>)

  type Heap = map<nat, Container>

  /** What a value looks like with every reference followed: shared containers are repeated. */
  datatype Tree =
    | Leaf(v: Value)
    | MapTree(keys: seq<Key>, items: seq<Tree>)
    | TupleTree(items: seq<Tree>)

  function Arity(c: Container): nat { if c.Mapping? then |c.entries| else |c.items| }

  function Child(c: Container, i: nat): Value
    requires i < Arity(c)
  {
    if c.Mapping? then c.entries[i].1 else c.items[i]
  }

  /** A finite tree that follows every reference; a cyclic value has none. */
  ghost predicate Unfolds(heap: Heap, v: Value, t: Tree)
    decreases t
  {
    if t.Leaf? then v == t.v && !v.VRef?
    else
      && v.VRef? && v.id in heap
      && var c := heap[v.id];
      && c.Mapping? == t.MapTree?
      && |t.items| == Arity(c)
      && (c.Mapping? ==> t.keys == Keys(c.entries))
      && forall i :: 0 <= i < |t.items| ==> Unfolds(heap, Child(c, i), t.items[i])
  }

  function Keys(entries: seq<(Key, Value)>): (r: seq<Key>)
    ensures |r| == |entries|
  {
    seq(|entries|, i requires 0 <= i < |entries| => entries[i].0)
  }

  lemma {:induction false} UnfoldingIsUnique(heap: Heap, v: Value, t: Tree, u: Tree)
    requires Unfolds(heap, v, t) && Unfolds(heap, v, u)
    ensures t == u
    decreases t
  {
    if !t.Leaf? {
      forall i | 0 <= i < |t.items| ensures t.items[i] == u.items[i] {
        UnfoldingIsUnique(heap, Child(heap[v.id], i), t.items[i], u.items[i]);
      }
      assert t.items == u.items;
    }
  }

  // ---- the limits, as measures of a tree --------------------------------

  function Nodes(t: Tree): (n: nat)
    ensures n >= 1
    decreases t, 0
  {
    if t.Leaf? then 1 else 1 + ItemNodes(t.items)
  }

  function ItemNodes(items: seq<Tree>): nat
    decreases items, 1
  {
    if items == [] then 0 else ItemNodes(items[..|items| - 1]) + Nodes(items[|items| - 1])
  }

  function TextChars(t: Tree): nat
    decreases t, 0
  {
    match t
    case Leaf(v) => if v.VString? then |v.s| else 0
    case MapTree(keys, items) => KeyText(keys) + ItemText(items)
    case TupleTree(items) => ItemText(items)
  }

  function ItemText(items: seq<Tree>): nat
    decreases items, 1
  {
    if items == [] then 0 else ItemText(items[..|items| - 1]) + TextChars(items[|items| - 1])
  }

  function KeyText(keys: seq<Key>): nat {
    if keys == [] then 0
    else
      var last := keys[|keys| - 1];
      KeyText(keys[..|keys| - 1]) + if last.StringKey? then |last.text| else 0
  }

  /** No node lies deeper than `room` levels below the root. */
  predicate Shallow(t: Tree, room: int)
    decreases t
  {
    room >= 0 && (t.Leaf? || forall i :: 0 <= i < |t.items| ==> Shallow(t.items[i], room - 1))
  }

  predicate IsWhitespace(c: char) {
    var n := c as int;
    || 9 <= n <= 13 || 28 <= n <= 32 || n == 133 || n == 160 || n == 5760
    || 8192 <= n <= 8202 || n == 8232 || n == 8233 || n == 8239 || n == 8287 || n == 12288
  }

  predicate NonEmpty(s: string) {
    (exists i :: 0 <= i < |s| && !IsWhitespace(s[i])) && |s| <= MAX_IDENTIFIER_CHARS
  }

  predicate ValidKey(k: Key) { k.StringKey? && NonEmpty(k.text) }

  predicate ValidLeaf(v: Value) {
    match v
    case VInt(i) => MIN_JSON_INTEGER <= i <= MAX_INT64
    case VFloat(lexeme) => lexeme.Some?
    case _ => true
  }

  predicate ValidTree(t: Tree) {
    match t
    case Leaf(v) => ValidLeaf(v)
    case MapTree(keys, items) =>
      && (forall i :: 0 <= i < |keys| ==> ValidKey(keys[i]))
      && (forall i :: 0 <= i < |items| ==> ValidTree(items[i]))
    case TupleTree(items) => forall i :: 0 <= i < |items| ==> ValidTree(items[i])
  }

  /** A tree that may be copied below `depth` levels after `nodes` values and `text` characters. */
  predicate Admissible(t: Tree, depth: nat, nodes: nat, text: nat) {
    && ValidTree(t)
    && Shallow(t, MAX_NESTING - depth)
    && nodes + Nodes(t) <= MAX_NODES
    && text + TextChars(t) <= MAX_TEXT_CHARS
  }

  // ---- cycle detection ---------------------------------------------------

  /** Wherever a container being copied unfolds, the value unfolds to something smaller. */
  ghost predicate Inside(heap: Heap, active: set<nat>, v: Value) {
    forall id, t :: id in active && Unfolds(heap, VRef(id), t) ==> UnfoldsBelow(heap, v, Nodes(t))
  }

  ghost predicate UnfoldsBelow(heap: Heap, v: Value, size: nat) {
    exists u :: Unfolds(heap, v, u) && Nodes(u) < size
  }

  lemma {:induction false} ItemBounds(items: seq<Tree>, i: nat)
    requires i < |items|
    ensures ItemNodes(items[..i]) + Nodes(items[i]) <= ItemNodes(items)
    ensures ItemText(items[..i]) + TextChars(items[i]) <= ItemText(items)
  {
    var n := |items| - 1;
    if i < n {
      ItemBounds(items[..n], i);
      assert items[..n][..i] == items[..i];
    }
  }

  lemma {:induction false} KeyBounds(keys: seq<Key>, i: nat)
    requires i <= |keys|
    ensures KeyText(keys[..i]) <= KeyText(keys)
  {
    var n := |keys| - 1;
    if i <= n {
      KeyBounds(keys[..n], i);
      assert keys[..n][..i] == keys[..i];
    } else {
      assert keys[..i] == keys;
    }
  }

  lemma ChildUnfoldsBelow(heap: Heap, id: nat, i: nat, size: nat)
    requires id in heap && i < Arity(heap[id])
    requires exists t :: Unfolds(heap, VRef(id), t) && Nodes(t) <= size
    ensures UnfoldsBelow(heap, Child(heap[id], i), size)
  {
    var t :| Unfolds(heap, VRef(id), t) && Nodes(t) <= size;
    ItemBounds(t.items, i);
    assert Unfolds(heap, Child(heap[id], i), t.items[i]) && Nodes(t.items[i]) < size;
  }

  /** The children of a container being copied lie inside everything being copied, itself included. */
  lemma ChildIsInside(heap: Heap, active: set<nat>, id: nat, i: nat)
    requires Inside(heap, active, VRef(id)) && id in heap && i < Arity(heap[id])
    ensures Inside(heap, active + {id}, Child(heap[id], i))
  {
    forall a, t | a in active + {id} && Unfolds(heap, VRef(a), t)
      ensures UnfoldsBelow(heap, Child(heap[id], i), Nodes(t))
    {
      assert a == id || UnfoldsBelow(heap, VRef(id), Nodes(t));
      ChildUnfoldsBelow(heap, id, i, Nodes(t));
    }
  }

  lemma NothingSmaller(heap: Heap, v: Value, t: Tree)
    requires Unfolds(heap, v, t)
    ensures !UnfoldsBelow(heap, v, Nodes(t))
  {
    forall u | Unfolds(heap, v, u) ensures u == t { UnfoldingIsUnique(heap, v, t, u); }
  }

  /** A value that is itself being copied has no unfolding. */
  lemma CycleHasNoUnfolding(heap: Heap, active: set<nat>, id: nat, t: Tree)
    requires id in active && Inside(heap, active, VRef(id))
    ensures !Unfolds(heap, VRef(id), t)
  {
    if Unfolds(heap, VRef(id), t) { NothingSmaller(heap, VRef(id), t); }
  }

  // ---- the copy -----------------------------------------------------------

  datatype Failure =
    | TooManyNodes | TooDeep | TooMuchText | IntegerOutOfRange | FloatNotFinite
    | ReferenceCycle | KeyNotString | KeyInvalid | UnsupportedType

  datatype Result = Frozen(tree: Tree) | Refused(why: Failure)

  /** No unfolding of the value can be admitted with the counters given. */
  ghost predicate NoneAdmissible(heap: Heap, v: Value, depth: nat, nodes: nat, text: nat) {
    forall t :: Unfolds(heap, v, t) ==> !Admissible(t, depth, nodes, text)
  }

  /** Children already copied, with the counters they have used up. */
  ghost predicate Copied(heap: Heap, c: Container, done: seq<Tree>, depth: nat) {
    && |done| <= Arity(c)
    && (forall i :: 0 <= i < |done| ==>
          Unfolds(heap, Child(c, i), done[i]) && ValidTree(done[i]) && Shallow(done[i], MAX_NESTING - depth - 1))
  }

  /** What is copied so far is what any unfolding of the container starts with. */
  lemma CopiedIsPrefix(heap: Heap, id: nat, done: seq<Tree>, depth: nat, t: Tree)
    requires id in heap && Copied(heap, heap[id], done, depth) && Unfolds(heap, VRef(id), t)
    ensures |done| <= |t.items| && done == t.items[..|done|]
  {
    forall i | 0 <= i < |done| ensures done[i] == t.items[i] {
      UnfoldingIsUnique(heap, Child(heap[id], i), done[i], t.items[i]);
    }
  }

  lemma ChildOutgrowsParent(t: Tree, i: nat, depth: nat, nodes: nat, text: nat)
    requires !t.Leaf? && i < |t.items| && depth <= MAX_NESTING
    requires Admissible(t, depth, nodes, text) && (t.MapTree? ==> i < |t.keys|)
    ensures Admissible(t.items[i], depth + 1, nodes + 1 + ItemNodes(t.items[..i]),
              text + (if t.MapTree? then KeyText(t.keys[..i + 1]) else 0) + ItemText(t.items[..i]))
  {
    ItemBounds(t.items, i);
    if t.MapTree? { KeyBounds(t.keys, i + 1); }
  }

  /** If the next child is inadmissible with the counters reached, so is the container from the start. */
  lemma ChildRefusal(heap: Heap, id: nat, done: seq<Tree>, depth: nat, nodes: nat, text: nat, keyText: nat)
    requires id in heap && Copied(heap, heap[id], done, depth) && |done| < Arity(heap[id])
    requires depth <= MAX_NESTING
    requires keyText == if heap[id].Mapping? then KeyText(Keys(heap[id].entries)[..|done| + 1]) else 0
    requires NoneAdmissible(heap, Child(heap[id], |done|), depth + 1,
               nodes + 1 + ItemNodes(done), text + keyText + ItemText(done))
    ensures NoneAdmissible(heap, VRef(id), depth, nodes, text)
  {
    hide Unfolds, Admissible, Copied, ItemNodes, ItemText, KeyText;
    var child, used := Child(heap[id], |done|), nodes + 1 + ItemNodes(done);
    forall t | Unfolds(heap, VRef(id), t) ensures !Admissible(t, depth, nodes, text) {
      if Admissible(t, depth, nodes, text) {
        NextIsAdmissible(heap, id, done, depth, nodes, text, t);
        NoneMeans(heap, child, depth + 1, used, text + keyText + ItemText(done), t.items[|done|]);
      }
    }
  }

  lemma NoneMeans(heap: Heap, v: Value, depth: nat, nodes: nat, text: nat, t: Tree)
    requires NoneAdmissible(heap, v, depth, nodes, text) && Unfolds(heap, v, t)
    ensures !Admissible(t, depth, nodes, text)
  {
    hide Admissible;
  }

  /** The next child of an admissible unfolding is admissible with the counters reached. */
  lemma NextIsAdmissible(heap: Heap, id: nat, done: seq<Tree>, depth: nat, nodes: nat, text: nat, t: Tree)
    requires id in heap && Copied(heap, heap[id], done, depth) && |done| < Arity(heap[id]) && depth <= MAX_NESTING
    requires Unfolds(heap, VRef(id), t) && Admissible(t, depth, nodes, text)
    ensures !t.Leaf? && |done| < |t.items| && Unfolds(heap, Child(heap[id], |done|), t.items[|done|])
    ensures Admissible(t.items[|done|], depth + 1, nodes + 1 + ItemNodes(done),
              text + (if heap[id].Mapping? then KeyText(Keys(heap[id].entries)[..|done| + 1]) else 0) + ItemText(done))
  {
    hide Copied, Admissible, ItemNodes, ItemText, KeyText;
    CopiedIsPrefix(heap, id, done, depth, t);
    assert Unfolds(heap, Child(heap[id], |done|), t.items[|done|]);
    hide Unfolds;
    ChildOutgrowsParent(t, |done|, depth, nodes, text);
  }

  /** A bad key, or a key that exhausts the text limit, rules the mapping out. */
  lemma KeyRefusal(heap: Heap, id: nat, done: seq<Tree>, depth: nat, nodes: nat, text: nat)
    requires id in heap && heap[id].Mapping? && Copied(heap, heap[id], done, depth) && |done| < Arity(heap[id])
    requires var keys := Keys(heap[id].entries);
      || !ValidKey(keys[|done|])
      || text + KeyText(keys[..|done| + 1]) + ItemText(done) > MAX_TEXT_CHARS
    ensures NoneAdmissible(heap, VRef(id), depth, nodes, text)
  {
    forall t | Unfolds(heap, VRef(id), t) ensures !Admissible(t, depth, nodes, text) {
      CopiedIsPrefix(heap, id, done, depth, t);
      ItemBounds(t.items, |done|);
      KeyBounds(t.keys, |done| + 1);
    }
  }

  /** All children copied make the copy of the container. */
  lemma CopiedIsAll(heap: Heap, id: nat, done: seq<Tree>, depth: nat, t: Tree)
    requires id in heap && Copied(heap, heap[id], done, depth) && |done| == Arity(heap[id]) && depth <= MAX_NESTING
    requires if heap[id].Mapping? then t == MapTree(Keys(heap[id].entries), done) else t == TupleTree(done)
    ensures Unfolds(heap, VRef(id), t) && Shallow(t, MAX_NESTING - depth)
    ensures (t.MapTree? ==> forall i :: 0 <= i < |t.keys| ==> ValidKey(t.keys[i])) ==> ValidTree(t)
    ensures Nodes(t) == 1 + ItemNodes(done)
    ensures TextChars(t) == (if t.MapTree? then KeyText(t.keys) else 0) + ItemText(done)
  {
  }

  /** One more child copied. */
  lemma CopiedGrows(heap: Heap, c: Container, done: seq<Tree>, depth: nat, item: Tree, nodes: nat, text: nat)
    requires Copied(heap, c, done, depth) && |done| < Arity(c) && depth <= MAX_NESTING
    requires Unfolds(heap, Child(c, |done|), item) && Admissible(item, depth + 1, nodes, text)
    ensures Copied(heap, c, done + [item], depth)
    ensures nodes + Nodes(item) <= MAX_NODES && text + TextChars(item) <= MAX_TEXT_CHARS
  {
    hide Unfolds, ValidTree, Shallow, Nodes, TextChars;
    var more := done + [item];
    forall i | 0 <= i < |more|
      ensures Unfolds(heap, Child(c, i), more[i]) && ValidTree(more[i]) && Shallow(more[i], MAX_NESTING - depth - 1)
    {
      if i < |done| { assert more[i] == done[i]; }
    }
  }

  /** A container whose children and keys are all copied within the limits is admissible. */
  lemma AllIsAdmissible(heap: Heap, id: nat, done: seq<Tree>, depth: nat, t: Tree, nodes: nat, text: nat)
    requires id in heap && Copied(heap, heap[id], done, depth) && |done| == Arity(heap[id]) && depth <= MAX_NESTING
    requires if heap[id].Mapping? then t == MapTree(Keys(heap[id].entries), done) else t == TupleTree(done)
    requires t.MapTree? ==> forall i :: 0 <= i < |t.keys| ==> ValidKey(t.keys[i])
    requires nodes + 1 + ItemNodes(done) <= MAX_NODES
    requires text + (if t.MapTree? then KeyText(t.keys) else 0) + ItemText(done) <= MAX_TEXT_CHARS
    ensures Unfolds(heap, VRef(id), t) && Admissible(t, depth, nodes, text)
    ensures Nodes(t) == 1 + ItemNodes(done)
    ensures TextChars(t) == (if t.MapTree? then KeyText(t.keys) else 0) + ItemText(done)
  {
    CopiedIsAll(heap, id, done, depth, t);
    hide Unfolds, ValidTree, Shallow, Copied, ItemNodes, ItemText, KeyText, Nodes, TextChars;
  }

  lemma LastItem(items: seq<Tree>, last: Tree)
    ensures ItemNodes(items + [last]) == ItemNodes(items) + Nodes(last)
    ensures ItemText(items + [last]) == ItemText(items) + TextChars(last)
  {
    assert (items + [last])[..|items|] == items;
  }

  lemma LastKey(keys: seq<Key>, i: nat)
    requires i < |keys|
    ensures KeyText(keys[..i + 1]) == KeyText(keys[..i]) + if keys[i].StringKey? then |keys[i].text| else 0
  {
    assert keys[..i + 1][..i] == keys[..i];
  }

  /** The two counters and the set of containers being copied, changed by one recursive traversal. */
  class PayloadFreezer {
    var visitedNodes: nat
    var payloadTextChars: nat
    var activeContainers: set<nat>

    constructor ()
      ensures visitedNodes == 0 && payloadTextChars == 0 && activeContainers == {}
    {
      visitedNodes, payloadTextChars, activeContainers := 0, 0, {};
    }

    /** Copies one value, or refuses it exactly when no copy of it is admissible. */
    method Freeze(heap: Heap, value: Value, depth: nat) returns (r: Result)
      requires depth <= MAX_NESTING + 1 && payloadTextChars <= MAX_TEXT_CHARS
      requires Inside(heap, activeContainers, value)
      modifies this
      ensures activeContainers == old(activeContainers)
      ensures r.Frozen? ==>
        && Unfolds(heap, value, r.tree)
        && Admissible(r.tree, depth, old(visitedNodes), old(payloadTextChars))
        && visitedNodes == old(visitedNodes) + Nodes(r.tree)
        && payloadTextChars == old(payloadTextChars) + TextChars(r.tree)
      ensures r.Refused? ==> NoneAdmissible(heap, value, depth, old(visitedNodes), old(payloadTextChars))
      decreases MAX_NESTING + 1 - depth, 1
    {
      visitedNodes := visitedNodes + 1;
      if visitedNodes > MAX_NODES { return Refused(TooManyNodes); }
      if depth > MAX_NESTING { return Refused(TooDeep); }
      match value
      case VNull => r := Frozen(Leaf(value));
      case VBool(_) => r := Frozen(Leaf(value));
      case VString(s) =>
        payloadTextChars := payloadTextChars + |s|;
        r := if payloadTextChars > MAX_TEXT_CHARS then Refused(TooMuchText) else Frozen(Leaf(value));
      case VInt(i) =>
        r := if MIN_JSON_INTEGER <= i <= MAX_INT64 then Frozen(Leaf(value)) else Refused(IntegerOutOfRange);
      case VFloat(lexeme) =>
        r := if lexeme.Some? then Frozen(Leaf(value)) else Refused(FloatNotFinite);
      case VRef(id) =>
        if id !in heap { return Refused(UnsupportedType); }
        if id in activeContainers {
          forall t ensures !Unfolds(heap, value, t) { CycleHasNoUnfolding(heap, activeContainers, id, t); }
          return Refused(ReferenceCycle);
        }
        ghost var before := activeContainers;
        activeContainers := activeContainers + {id};
        if heap[id].Mapping? {
          r := FreezeMapping(heap, id, depth, before);
        } else {
          r := FreezeSequence(heap, id, depth, before);
        }
        activeContainers := activeContainers - {id};
    }

    method FreezeMapping(heap: Heap, id: nat, depth: nat, ghost outer: set<nat>) returns (r: Result)
      requires id in heap && heap[id].Mapping? && depth <= MAX_NESTING && 1 <= visitedNodes <= MAX_NODES
      requires activeContainers == outer + {id} && Inside(heap, outer, VRef(id))
      requires payloadTextChars <= MAX_TEXT_CHARS
      modifies this
      ensures activeContainers == old(activeContainers)
      ensures r.Frozen? ==>
        && Unfolds(heap, VRef(id), r.tree)
        && Admissible(r.tree, depth, old(visitedNodes) - 1, old(payloadTextChars))
        && visitedNodes == old(visitedNodes) - 1 + Nodes(r.tree)
        && payloadTextChars == old(payloadTextChars) + TextChars(r.tree)
      ensures r.Refused? ==> NoneAdmissible(heap, VRef(id), depth, old(visitedNodes) - 1, old(payloadTextChars))
      decreases MAX_NESTING + 1 - depth, 0
    {
      hide NonEmpty, Inside, UnfoldsBelow, NoneAdmissible, Unfolds, Admissible, ValidTree, Shallow;
      var entries := heap[id].entries;
      ghost var keys := Keys(entries);
      ghost var nodes, text := visitedNodes - 1, payloadTextChars;
      var copied: seq<Tree> := [];
      var i := 0;
      while i < |entries|
        invariant 0 <= i <= |entries| && |copied| == i && activeContainers == outer + {id}
        invariant Copied(heap, heap[id], copied, depth)
        invariant forall j :: 0 <= j < i ==> ValidKey(keys[j])
        invariant visitedNodes == nodes + 1 + ItemNodes(copied) && visitedNodes <= MAX_NODES
        invariant payloadTextChars == text + KeyText(keys[..i]) + ItemText(copied)
        invariant payloadTextChars <= MAX_TEXT_CHARS
      {
        var key := entries[i].0;
        LastKey(keys, i);
        if !key.StringKey? || !NonEmpty(key.text) {
          KeyRefusal(heap, id, copied, depth, nodes, text);
          return Refused(if key.StringKey? then KeyInvalid else KeyNotString);
        }
        payloadTextChars := payloadTextChars + |key.text|;
        if payloadTextChars > MAX_TEXT_CHARS {
          KeyRefusal(heap, id, copied, depth, nodes, text);
          return Refused(TooMuchText);
        }
        ChildIsInside(heap, outer, id, i);
        var item := Freeze(heap, entries[i].1, depth + 1);
        if item.Refused? {
          ChildRefusal(heap, id, copied, depth, nodes, text, KeyText(keys[..i + 1]));
          return item;
        }
        CopiedGrows(heap, heap[id], copied, depth, item.tree, visitedNodes - Nodes(item.tree),
                    payloadTextChars - TextChars(item.tree));
        LastItem(copied, item.tree);
        copied := copied + [item.tree];
        i := i + 1;
      }
      assert keys[..i] == keys;
      hide Copied, Nodes, TextChars;
      var allKeys := Keys(entries);
      AllIsAdmissible(heap, id, copied, depth, MapTree(allKeys, copied), nodes, text);
      r := Frozen(MapTree(allKeys, copied));
    }

    method FreezeSequence(heap: Heap, id: nat, depth: nat, ghost outer: set<nat>) returns (r: Result)
      requires id in heap && heap[id].Sequence? && depth <= MAX_NESTING && 1 <= visitedNodes <= MAX_NODES
      requires activeContainers == outer + {id} && Inside(heap, outer, VRef(id))
      requires payloadTextChars <= MAX_TEXT_CHARS
      modifies this
      ensures activeContainers == old(activeContainers)
      ensures r.Frozen? ==>
        && Unfolds(heap, VRef(id), r.tree)
        && Admissible(r.tree, depth, old(visitedNodes) - 1, old(payloadTextChars))
        && visitedNodes == old(visitedNodes) - 1 + Nodes(r.tree)
        && payloadTextChars == old(payloadTextChars) + TextChars(r.tree)
      ensures r.Refused? ==> NoneAdmissible(heap, VRef(id), depth, old(visitedNodes) - 1, old(payloadTextChars))
      decreases MAX_NESTING + 1 - depth, 0
    {
      hide Inside, UnfoldsBelow, NoneAdmissible, Unfolds, Admissible, ValidTree, Shallow;
      var items := heap[id].items;
      ghost var nodes, text := visitedNodes - 1, payloadTextChars;
      var copied: seq<Tree> := [];
      var i := 0;
      while i < |items|
        invariant 0 <= i <= |items| && |copied| == i && activeContainers == outer + {id}
        invariant Copied(heap, heap[id], copied, depth)
        invariant visitedNodes == nodes + 1 + ItemNodes(copied) && visitedNodes <= MAX_NODES
        invariant payloadTextChars == text + ItemText(copied)
        invariant payloadTextChars <= MAX_TEXT_CHARS
      {
        ChildIsInside(heap, outer, id, i);
        var item := Freeze(heap, items[i], depth + 1);
        if item.Refused? {
          ChildRefusal(heap, id, copied, depth, nodes, text, 0);
          return item;
        }
        CopiedGrows(heap, heap[id], copied, depth, item.tree, visitedNodes - Nodes(item.tree),
                    payloadTextChars - TextChars(item.tree));
        LastItem(copied, item.tree);
        copied := copied + [item.tree];
        i := i + 1;
      }
      AllIsAdmissible(heap, id, copied, depth, TupleTree(copied), nodes, text);
      r := Frozen(TupleTree(copied));
    }
  }

  /** What the copy of a whole payload may answer. */
  ghost predicate Outcome(heap: Heap, payload: Value, r: Result) {
    && (r.Frozen? ==> Unfolds(heap, payload, r.tree) && Admissible(r.tree, 0, 0, 0))
    && (r.Refused? ==> NoneAdmissible(heap, payload, 0, 0, 0))
  }

  /** Freezes a payload: it succeeds exactly when the payload has a finite unfolding within every limit. */
  method FreezeJsonPayload(heap: Heap, payload: Value) returns (r: Result)
    ensures Outcome(heap, payload, r)
    ensures r.Frozen? <==> exists t :: Unfolds(heap, payload, t) && Admissible(t, 0, 0, 0)
  {
    var freezer := new PayloadFreezer();
    r := freezer.Freeze(heap, payload, 0);
  }

  /** The outcome depends on the unfolding alone: sharing, identity and the choice between list and tuple
      do not matter. */
  lemma SameUnfoldingSameOutcome(heap: Heap, v: Value, heap': Heap, v': Value, t: Tree, r: Result, r': Result)
    requires Unfolds(heap, v, t) && Unfolds(heap', v', t)
    requires Outcome(heap, v, r) && Outcome(heap', v', r')
    ensures r.Frozen? <==> r'.Frozen?
    ensures r.Frozen? ==> r == r' == Frozen(t)
  {
    if r.Frozen? { UnfoldingIsUnique(heap, v, t, r.tree); }
    if r'.Frozen? { UnfoldingIsUnique(heap', v', t, r'.tree); }
  }

  // ---- freezing what has been frozen ----------------------------------------

  /** A tree that some value unfolds to: every mapping has as many keys as values, and no leaf is a reference. */
  predicate Shaped(t: Tree) {
    match t
    case Leaf(v) => !v.VRef?
    case MapTree(keys, items) => |keys| == |items| && forall i :: 0 <= i < |items| ==> Shaped(items[i])
    case TupleTree(items) => forall i :: 0 <= i < |items| ==> Shaped(items[i])
  }

  lemma {:induction false} UnfoldingIsShaped(heap: Heap, v: Value, t: Tree)
    requires Unfolds(heap, v, t)
    ensures Shaped(t)
    decreases t
  {
    if !t.Leaf? {
      forall i | 0 <= i < |t.items| ensures Shaped(t.items[i]) {
        UnfoldingIsShaped(heap, Child(heap[v.id], i), t.items[i]);
      }
    }
  }

  ghost predicate Extends(heap: Heap, grown: Heap) { forall id :: id in heap ==> id in grown && grown[id] == heap[id] }

  lemma {:induction false} UnfoldingSurvives(heap: Heap, grown: Heap, v: Value, t: Tree)
    requires Extends(heap, grown) && Unfolds(heap, v, t)
    ensures Unfolds(grown, v, t)
    decreases t
  {
    if !t.Leaf? {
      forall i | 0 <= i < |t.items| ensures Unfolds(grown, Child(grown[v.id], i), t.items[i]) {
        UnfoldingSurvives(heap, grown, Child(heap[v.id], i), t.items[i]);
      }
    }
  }

  /** All containers of a heap have identities from `next` on and below `end`. */
  ghost predicate Within(heap: Heap, next: nat, end: nat) { forall id :: id in heap ==> next <= id < end }

  /** The containers of a frozen tree, each made once and none shared. */
  lemma {:induction false} Allocate(t: Tree, next: nat) returns (cells: Heap, v: Value, end: nat)
    requires Shaped(t)
    ensures next <= end && Within(cells, next, end) && Unfolds(cells, v, t)
    decreases t, 0
  {
    if t.Leaf? {
      cells, v, end := map[], t.v, next;
    } else {
      var inner, vs, top := AllocateItems(t.items, next);
      var c := if t.TupleTree? then Sequence(vs)
               else Mapping(seq(|vs|, i requires 0 <= i < |vs| => (t.keys[i], vs[i])));
      cells, v, end := inner[top := c], VRef(top), top + 1;
      forall i | 0 <= i < |vs| ensures Unfolds(cells, vs[i], t.items[i]) {
        UnfoldingSurvives(inner, cells, vs[i], t.items[i]);
      }
      assert c.Mapping? ==> Keys(c.entries) == t.keys;
    }
  }

  lemma {:induction false} AllocateItems(items: seq<Tree>, next: nat) returns (cells: Heap, vs: seq<Value>, end: nat)
    requires forall i :: 0 <= i < |items| ==> Shaped(items[i])
    ensures next <= end && Within(cells, next, end) && |vs| == |items|
    ensures forall i :: 0 <= i < |items| ==> Unfolds(cells, vs[i], items[i])
    decreases items, 1
  {
    if items == [] {
      cells, vs, end := map[], [], next;
    } else {
      var n := |items| - 1;
      var front, fs, middle := AllocateItems(items[..n], next);
      var back, last, top := Allocate(items[n], middle);
      cells, vs, end := front + back, fs + [last], top;
      assert Extends(front, cells) && Extends(back, cells);
      forall i | 0 <= i < |items| ensures Unfolds(cells, vs[i], items[i]) {
        if i < n {
          UnfoldingSurvives(front, cells, fs[i], items[..n][i]);
        } else {
          UnfoldingSurvives(back, cells, last, items[n]);
        }
      }
    }
  }

  /** Freezing changes nothing the second time: the frozen copy, built of containers of its own, is again a payload,
      and freezing it can only give the same copy. */
  lemma FreezingIsIdempotent(heap: Heap, payload: Value, r: Result, next: nat) returns (cells: Heap, copy: Value)
    requires Outcome(heap, payload, r) && r.Frozen?
    ensures Unfolds(cells, copy, r.tree)
    ensures forall id :: id in cells ==> id >= next
    ensures forall r' :: Outcome(cells, copy, r') <==> r' == r
  {
    UnfoldingIsShaped(heap, payload, r.tree);
    var end;
    cells, copy, end := Allocate(r.tree, next);
    forall r' | Outcome(cells, copy, r') ensures r' == r {
      SameUnfoldingSameOutcome(heap, payload, cells, copy, r.tree, r, r');
    }
  }

  // ---- a value unfolds exactly when no reference path from it closes -------

  ghost predicate Edge(heap: Heap, a: nat, b: nat) {
    a in heap && exists i: nat :: i < Arity(heap[a]) && Child(heap[a], i) == VRef(b)
  }

  ghost predicate Walk(heap: Heap, ids: seq<nat>) {
    forall i :: 0 <= i < |ids| - 1 ==> Edge(heap, ids[i], ids[i + 1])
  }

  /** A path of references from a container that comes back to a container it has passed. */
  ghost predicate ReachesCycle(heap: Heap, a: nat) {
    exists ids :: ClosingWalk(heap, a, ids)
  }

  ghost predicate ClosingWalk(heap: Heap, a: nat, ids: seq<nat>) {
    && ids != [] && ids[0] == a && Walk(heap, ids)
    && exists i, j :: 0 <= i < j < |ids| && ids[i] == ids[j]
  }

  /** Every reference held by a container of the heap resolves. */
  ghost predicate Closed(heap: Heap) {
    forall a, b :: Edge(heap, a, b) ==> b in heap
  }

  ghost predicate HasUnfolding(heap: Heap, v: Value) { exists t :: Unfolds(heap, v, t) }

  lemma {:induction false} WalkUnfoldsBelow(heap: Heap, ids: seq<nat>, t: Tree)
    requires |ids| >= 2 && Walk(heap, ids) && Unfolds(heap, VRef(ids[0]), t)
    ensures UnfoldsBelow(heap, VRef(ids[|ids| - 1]), Nodes(t))
    decreases |ids|
  {
    assert Edge(heap, ids[0], ids[1]);
    var i: nat :| i < Arity(heap[ids[0]]) && Child(heap[ids[0]], i) == VRef(ids[1]);
    ItemBounds(t.items, i);
    var u := t.items[i];
    assert Unfolds(heap, VRef(ids[1]), u) && Nodes(u) < Nodes(t);
    if |ids| > 2 {
      var rest := ids[1..];
      assert Walk(heap, rest) by {
        forall k | 0 <= k < |rest| - 1 ensures Edge(heap, rest[k], rest[k + 1]) {
          assert Edge(heap, ids[k + 1], ids[k + 2]);
        }
      }
      WalkUnfoldsBelow(heap, rest, u);
    }
  }

  lemma SubWalk(heap: Heap, ids: seq<nat>, i: nat, j: nat)
    requires Walk(heap, ids) && i < j < |ids|
    ensures Walk(heap, ids[i..j + 1])
  {
    var part := ids[i..j + 1];
    forall k | 0 <= k < |part| - 1 ensures Edge(heap, part[k], part[k + 1]) {
      assert Edge(heap, ids[i + k], ids[i + k + 1]);
    }
  }

  lemma CycleBlocksUnfolding(heap: Heap, a: nat)
    requires ReachesCycle(heap, a)
    ensures !HasUnfolding(heap, VRef(a))
  {
    var ids :| ClosingWalk(heap, a, ids);
    var i, j :| 0 <= i < j < |ids| && ids[i] == ids[j];
    forall t ensures !Unfolds(heap, VRef(a), t) {
      if Unfolds(heap, VRef(a), t) {
        var u := t;
        if i > 0 {
          SubWalk(heap, ids, 0, i);
          WalkUnfoldsBelow(heap, ids[..i + 1], t);
          u :| Unfolds(heap, VRef(ids[i]), u) && Nodes(u) < Nodes(t);
        }
        SubWalk(heap, ids, i, j);
        WalkUnfoldsBelow(heap, ids[i..j + 1], u);
        NothingSmaller(heap, VRef(ids[i]), u);
      }
    }
  }

  lemma UnfoldingFromChildren(heap: Heap, a: nat)
    requires a in heap
    requires forall i: nat :: i < Arity(heap[a]) ==> HasUnfolding(heap, Child(heap[a], i))
    ensures HasUnfolding(heap, VRef(a))
  {
    var items := seq(Arity(heap[a]), i requires 0 <= i < Arity(heap[a]) =>
      var t :| Unfolds(heap, Child(heap[a], i), t); t);
    var t := if heap[a].Mapping? then MapTree(Keys(heap[a].entries), items) else TupleTree(items);
    assert Unfolds(heap, VRef(a), t);
  }

  lemma LeafUnfolds(heap: Heap, v: Value)
    requires !v.VRef?
    ensures HasUnfolding(heap, v)
  {
    assert Unfolds(heap, v, Leaf(v));
  }

  lemma {:induction false} EndlessWalk(heap: Heap, a: nat, n: nat) returns (ids: seq<nat>)
    requires Closed(heap) && a in heap && !HasUnfolding(heap, VRef(a))
    ensures |ids| == n + 1 && ids[0] == a && Walk(heap, ids)
    ensures forall i :: 0 <= i <= n ==> ids[i] in heap
    decreases n
  {
    if n == 0 {
      ids := [a];
    } else {
      if forall i: nat :: i < Arity(heap[a]) ==> HasUnfolding(heap, Child(heap[a], i)) {
        UnfoldingFromChildren(heap, a);
      }
      var i: nat :| i < Arity(heap[a]) && !HasUnfolding(heap, Child(heap[a], i));
      if !Child(heap[a], i).VRef? { LeafUnfolds(heap, Child(heap[a], i)); }
      var b := Child(heap[a], i).id;
      assert Edge(heap, a, b);
      var rest := EndlessWalk(heap, b, n - 1);
      ids := [a] + rest;
      forall k | 0 <= k < |ids| - 1 ensures Edge(heap, ids[k], ids[k + 1]) {
        if k > 0 { assert Edge(heap, rest[k - 1], rest[k]); }
      }
    }
  }

  lemma {:induction false} Pigeonhole(ids: seq<nat>, s: set<nat>)
    requires |ids| > |s| && forall i :: 0 <= i < |ids| ==> ids[i] in s
    ensures exists i, j :: 0 <= i < j < |ids| && ids[i] == ids[j]
    decreases |ids|
  {
    var last := ids[|ids| - 1];
    var front := ids[..|ids| - 1];
    if i :| 0 <= i < |front| && front[i] == last {
      assert ids[i] == ids[|ids| - 1];
    } else {
      Pigeonhole(front, s - {last});
      var i, j :| 0 <= i < j < |front| && front[i] == front[j];
      assert ids[i] == ids[j];
    }
  }

  /** A container has a finite unfolding exactly when no path of references from it runs into a cycle. */
  lemma UnfoldsExactlyWhenAcyclic(heap: Heap, a: nat)
    requires Closed(heap) && a in heap
    ensures HasUnfolding(heap, VRef(a)) <==> !ReachesCycle(heap, a)
  {
    if ReachesCycle(heap, a) {
      CycleBlocksUnfolding(heap, a);
    } else if !HasUnfolding(heap, VRef(a)) {
      var ids := EndlessWalk(heap, a, |heap|);
      assert |heap| == |heap.Keys|;
      Pigeonhole(ids, heap.Keys);
      assert ClosingWalk(heap, a, ids);
    }
  }
}
