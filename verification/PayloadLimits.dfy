/** What the limits on a payload mean, over the list of all values in it. */
module PayloadLimits {
  import opened Common
  import opened PayloadFreeze

  /** A value and every value below it, each with its depth; a shared one as often as it is reached. */
  function Parts(t: Tree, depth: nat): seq<(Tree, nat)>
    decreases t, 0
  {
    [(t, depth)] + if t.Leaf? then [] else PartsOf(t.items, depth + 1)
  }

  function PartsOf(items: seq<Tree>, depth: nat): seq<(Tree, nat)>
    decreases items, 1
  {
    if items == [] then [] else PartsOf(items[..|items| - 1], depth) + Parts(items[|items| - 1], depth)
  }

  /** The keys of a mapping, written one after another. */
  function Joined(keys: seq<Key>): string {
    if keys == [] then ""
    else
      var last := keys[|keys| - 1];
      Joined(keys[..|keys| - 1]) + if last.StringKey? then last.text else ""
  }

  function OwnText(t: Tree): string {
    match t
    case Leaf(v) => if v.VString? then v.s else ""
    case MapTree(keys, _) => Joined(keys)
    case TupleTree(_) => ""
  }

  /** All strings and keys, written one after another. */
  function TextOf(parts: seq<(Tree, nat)>): string {
    if parts == [] then "" else TextOf(parts[..|parts| - 1]) + OwnText(parts[|parts| - 1].0)
  }

  /** What one value must be, apart from those below it. */
  ghost predicate Plain(t: Tree) {
    match t
    case Leaf(v) =>
      && (v.VInt? ==> -0x8000_0000_0000_0000 <= v.i <= 0x7FFF_FFFF_FFFF_FFFF)
      && (v.VFloat? ==> v.lexeme.Some?)
    case MapTree(keys, _) =>
      forall k :: k in keys ==> k.StringKey? && |k.text| <= 256 && exists c :: c in k.text && !IsWhitespace(c)
    case TupleTree(_) => true
  }

  /** A payload is accepted exactly when all values in it are plain and lie at most 32 levels deep, there are at most
      4096 of them, and their text has at most 65536 characters. */
  lemma AdmissibleMeans(t: Tree)
    ensures
      var parts := Parts(t, 0);
      Admissible(t, 0, 0, 0) <==>
        && |parts| <= 4_096 && |TextOf(parts)| <= 65_536
        && forall p :: p in parts ==> Plain(p.0) && p.1 <= 32
  {
    AdmissibleByMeasure(t);
    hide *;
    PartsAreCounted(t, 0);
    TextIsCounted(t, 0);
    DepthIsBounded(t, 0);
    PartsArePlain(t, 0);
    AllMeans(Parts(t, 0));
  }

  lemma AdmissibleByMeasure(t: Tree)
    ensures Admissible(t, 0, 0, 0) <==>
              ValidTree(t) && Shallow(t, MAX_NESTING - 0) && Nodes(t) <= 4_096 && TextChars(t) <= 65_536
  {
    hide ValidTree, Shallow, Nodes, TextChars;
  }

  lemma AllMeans(parts: seq<(Tree, nat)>)
    ensures AllPlain(parts) && AllShallow(parts) <==> forall p :: p in parts ==> Plain(p.0) && p.1 <= 32
  {
    hide Plain;
  }

  lemma {:induction false} JoinedIsCounted(keys: seq<Key>)
    ensures |Joined(keys)| == KeyText(keys)
  {
    if keys != [] { JoinedIsCounted(keys[..|keys| - 1]); }
  }

  lemma {:induction false} TextAdds(a: seq<(Tree, nat)>, b: seq<(Tree, nat)>)
    ensures |TextOf(a + b)| == |TextOf(a)| + |TextOf(b)|
  {
    if b == [] {
      assert a + b == a;
    } else {
      TextAdds(a, b[..|b| - 1]);
      assert (a + b)[..|a + b| - 1] == a + b[..|b| - 1];
    }
  }

  lemma KeyIsPlain(k: Key)
    ensures ValidKey(k) <==> k.StringKey? && |k.text| <= 256 && exists c :: c in k.text && !IsWhitespace(c)
  {
    hide IsWhitespace;
    if k.StringKey? {
      if c :| c in k.text && !IsWhitespace(c) {
        var i :| 0 <= i < |k.text| && k.text[i] == c;
        assert !IsWhitespace(k.text[i]);
      }
    }
  }

  lemma KeysArePlain(keys: seq<Key>, items: seq<Tree>)
    ensures Plain(MapTree(keys, items)) <==> forall i :: 0 <= i < |keys| ==> ValidKey(keys[i])
  {
    forall i | 0 <= i < |keys|
      ensures ValidKey(keys[i]) <==>
                && keys[i].StringKey? && |keys[i].text| <= 256
                && exists c :: c in keys[i].text && !IsWhitespace(c)
    {
      KeyIsPlain(keys[i]);
    }
    hide IsWhitespace, ValidKey;
  }

  ghost predicate AllPlain(parts: seq<(Tree, nat)>) { forall p :: p in parts ==> Plain(p.0) }

  predicate AllShallow(parts: seq<(Tree, nat)>) { forall p :: p in parts ==> p.1 <= MAX_NESTING }

  lemma {:induction false} PartsAreCounted(t: Tree, depth: nat)
    ensures |Parts(t, depth)| == Nodes(t)
    decreases t, 0
  {
    if !t.Leaf? { ItemPartsAreCounted(t.items, depth + 1); }
  }

  lemma {:induction false} ItemPartsAreCounted(items: seq<Tree>, depth: nat)
    ensures |PartsOf(items, depth)| == ItemNodes(items)
    decreases items, 1
  {
    hide Parts, Nodes;
    if items != [] {
      ItemPartsAreCounted(items[..|items| - 1], depth);
      PartsAreCounted(items[|items| - 1], depth);
    }
  }

  lemma TextOfOne(t: Tree, depth: nat)
    ensures TextOf([(t, depth)]) == OwnText(t)
  {
    assert [(t, depth)][..0] == [];
    hide OwnText;
  }

  lemma {:induction false} TextIsCounted(t: Tree, depth: nat)
    ensures |TextOf(Parts(t, depth))| == TextChars(t)
    decreases t, 0
  {
    hide TextOf;
    TextOfOne(t, depth);
    if t.MapTree? { JoinedIsCounted(t.keys); }
    if t.Leaf? {
      assert Parts(t, depth) == [(t, depth)];
    } else {
      ItemTextIsCounted(t.items, depth + 1);
      TextAdds([(t, depth)], PartsOf(t.items, depth + 1));
      hide PartsOf, Joined, KeyText, ItemText;
    }
  }

  lemma {:induction false} ItemTextIsCounted(items: seq<Tree>, depth: nat)
    ensures |TextOf(PartsOf(items, depth))| == ItemText(items)
    decreases items, 1
  {
    hide Parts, TextChars, OwnText;
    if items != [] {
      ItemTextIsCounted(items[..|items| - 1], depth);
      TextIsCounted(items[|items| - 1], depth);
      TextAdds(PartsOf(items[..|items| - 1], depth), Parts(items[|items| - 1], depth));
    }
  }

  /** What holds of all of a list followed by another holds of both. */
  lemma ShallowJoins(a: seq<(Tree, nat)>, b: seq<(Tree, nat)>)
    ensures AllShallow(a + b) <==> AllShallow(a) && AllShallow(b)
    ensures AllPlain(a + b) <==> AllPlain(a) && AllPlain(b)
  {
    hide Plain;
    if AllShallow(a + b) {
      forall p | p in a ensures p.1 <= MAX_NESTING { assert p in a + b; }
      forall p | p in b ensures p.1 <= MAX_NESTING { assert p in a + b; }
    }
    if AllPlain(a + b) {
      forall p | p in a ensures Plain(p.0) { assert p in a + b; }
      forall p | p in b ensures Plain(p.0) { assert p in a + b; }
    }
  }

  lemma OneIsShallow(t: Tree, depth: nat)
    ensures AllShallow([(t, depth)]) <==> depth <= MAX_NESTING
    ensures AllPlain([(t, depth)]) <==> Plain(t)
  {
    assert (t, depth) in [(t, depth)];
    hide Plain;
  }

  lemma {:induction false} DepthIsBounded(t: Tree, depth: nat)
    ensures AllShallow(Parts(t, depth)) <==> Shallow(t, MAX_NESTING - depth)
    decreases t, 0
  {
    hide AllShallow;
    OneIsShallow(t, depth);
    if t.Leaf? {
      assert Parts(t, depth) == [(t, depth)];
    } else {
      ItemDepthIsBounded(t.items, depth + 1);
      ShallowJoins([(t, depth)], PartsOf(t.items, depth + 1));
      hide PartsOf;
    }
  }

  lemma {:induction false} ItemDepthIsBounded(items: seq<Tree>, depth: nat)
    ensures AllShallow(PartsOf(items, depth)) <==>
              forall i :: 0 <= i < |items| ==> Shallow(items[i], MAX_NESTING - depth)
    decreases items, 1
  {
    hide Parts, Shallow;
    if items == [] {
      assert PartsOf(items, depth) == [];
    } else {
      var n := |items| - 1;
      ItemDepthIsBounded(items[..n], depth);
      DepthIsBounded(items[n], depth);
      ShallowJoins(PartsOf(items[..n], depth), Parts(items[n], depth));
      hide AllShallow;
      assert forall i :: 0 <= i < n ==> items[..n][i] == items[i];
    }
  }

  lemma {:induction false} PartsArePlain(t: Tree, depth: nat)
    ensures AllPlain(Parts(t, depth)) <==> ValidTree(t)
    decreases t, 0
  {
    hide AllPlain;
    OneIsShallow(t, depth);
    if t.Leaf? {
      assert Parts(t, depth) == [(t, depth)];
    } else {
      if t.MapTree? { KeysArePlain(t.keys, t.items); }
      ItemsArePlain(t.items, depth + 1);
      ShallowJoins([(t, depth)], PartsOf(t.items, depth + 1));
      hide PartsOf, ValidKey;
      if t.MapTree? { hide Plain; }
    }
  }

  lemma {:induction false} ItemsArePlain(items: seq<Tree>, depth: nat)
    ensures AllPlain(PartsOf(items, depth)) <==> forall i :: 0 <= i < |items| ==> ValidTree(items[i])
    decreases items, 1
  {
    hide Parts, ValidTree, Plain;
    if items == [] {
      assert PartsOf(items, depth) == [];
    } else {
      var n := |items| - 1;
      ItemsArePlain(items[..n], depth);
      PartsArePlain(items[n], depth);
      ShallowJoins(PartsOf(items[..n], depth), Parts(items[n], depth));
      hide AllPlain;
      assert forall i :: 0 <= i < n ==> items[..n][i] == items[i];
    }
  }
}
