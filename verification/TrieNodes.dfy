/** trie.c: the nodes of the trie, which are split and extended in place. */
module TrieNodes {
  import opened Bytes
  import opened Trie

  const NULL: Value := 0

  class Node {
    var key: Key
    var idx: int
    var ch: Byte
    var value: Value
    var children: seq<Node>
    ghost var Repr: set<object>
    ghost var tree: Tree          // what the node and all below it stand for

    // The fields of this node alone.
    ghost predicate Shaped()
      reads this
    {
      && this in Repr
      && (if tree.Leaf? then idx == -1 && key == [] && ch == 0 && children == [] && value == tree.value
          else idx == |key| && key == tree.key && ch == tree.ch && value == NULL && |children| == |tree.children| > 0)
    }

    ghost predicate Valid()
      reads this, Repr
      decreases tree
    {
      && Shaped()
      && (forall i :: 0 <= i < |children| ==>
            && children[i] in Repr && children[i].Repr <= Repr && this !in children[i].Repr
            && children[i].tree == tree.children[i] && children[i].Valid())
      && (forall i, j :: 0 <= i < j < |children| ==> children[i].Repr !! children[j].Repr)
    }

    // initTrie
    constructor Leaf(v: Value)
      ensures Valid() && tree == Tree.Leaf(v) && Repr == {this}
    {
      key, idx, ch, value, children := [], -1, 0, v, [];
      tree, Repr := Tree.Leaf(v), {this};
    }

    /** addLeafToTrie */
    method AddLeaf(ch0: Byte, key0: Key, v: Value)
      modifies this
      ensures Valid() && fresh(Repr - {this}) && tree == Inner(ch0, key0, [Tree.Leaf(v)])
    {
      var leaf := new Node.Leaf(v);
      key, idx, ch, value, children := key0, |key0|, ch0, NULL, [leaf];
      tree, Repr := Inner(ch0, key0, [Tree.Leaf(v)]), {this, leaf};
    }

    // A new child for the rest of a key.
    static method NewTip(k: Key, v: Value) returns (tip: Node)
      ensures tip.Valid() && fresh(tip.Repr) && tip.tree == Tip(k, v)
    {
      tip := new Node.Leaf(v);
      if k != [] {
        tip.AddLeaf(k[0], k[1..], v);
      }
    }

    /** The first byte at which a key differs from this branch's. */
    method Mismatch(k: Key) returns (i: nat)
      requires Shaped() && tree.Inner? && Sound(tree)
      ensures i == Common(tree.key, k)
    {
      i := 0;
      while i < idx
        invariant i <= |key| && i <= |k| && Common(key[i..], k[i..]) + i == Common(key, k)
      {
        assert key[i] != 0;
        if Head(k[i..]) != key[i] {
          return;
        }
        assert key[i..][1..] == key[i + 1..] && k[i..][1..] == k[i + 1..];
        i := i + 1;
      }
    }

    /** The child that a byte leads to. */
    method FindChild(c: Byte) returns (i: nat)
      requires Valid() && tree.Inner?
      ensures i == IndexOf(tree.children, c)
    {
      i := 0;
      while i < |children|
        invariant i <= |children| && IndexOf(tree.children[i..], c) + i == IndexOf(tree.children, c)
      {
        assert children[i].Shaped();
        if children[i].ch == c {
          return;
        }
        assert tree.children[i..][1..] == tree.children[i + 1..];
        i := i + 1;
      }
    }

    // The lower half of a branch that is split: it takes over the children.
    method NewLower(i: nat) returns (lower: Node)
      requires Valid() && tree.Inner? && i < |key|
      ensures lower.Valid() && fresh(lower) && lower.Repr == {lower} + (Repr - {this})
      ensures lower.tree == Inner(tree.key[i], tree.key[i + 1..], tree.children)
    {
      lower := new Node.Leaf(NULL);
      lower.key, lower.idx, lower.ch := key[i + 1..], idx - i - 1, key[i];
      lower.value, lower.children := value, children;
      lower.tree := Inner(key[i], key[i + 1..], tree.children);
      lower.Repr := {lower} + (Repr - {this});
    }

    // Makes this a branch with two children.
    method SetTwo(key0: Key, a: Node, b: Node, ghost t: Tree)
      requires a.Valid() && b.Valid() && this !in a.Repr && this !in b.Repr && a.Repr !! b.Repr
      requires t == Inner(ch, key0, [a.tree, b.tree])
      modifies this
      ensures Valid() && Repr == {this} + a.Repr + b.Repr && tree == t
    {
      key, idx, value, children := key0, |key0|, NULL, [a, b];
      tree := t;
      Repr := {this} + a.Repr + b.Repr;
    }

    // Splits the branch after its first `i` bytes.
    method SplitAt(i: nat, k: Key, v: Value)
      requires Valid() && tree.Inner? && i < |key| && i <= |k|
      modifies this
      ensures Valid() && fresh(Repr - old(Repr)) && tree == Split(old(tree), i, k, v)
    {
      hide Tip;
      var lower := NewLower(i);
      var tip := NewTip(k[i..], v);
      SetTwo(key[..i], lower, tip, Split(tree, i, k, v));
    }

    // A value of its own for a key that ends here.
    method ReplaceValue(j: nat, v: Value) returns (destroyed: seq<Value>)
      requires Valid() && tree.Inner? && j < |children| && tree.children[j].Leaf?
      modifies this`tree, children[j]
      ensures Valid() && Repr == old(Repr) && tree == old(tree).(children := old(tree).children[j := Tree.Leaf(v)])
      ensures destroyed == [old(tree).children[j].value]
    {
      assert children[j].Shaped();
      destroyed := [children[j].value];
      children[j].value := v;
      children[j].tree := Tree.Leaf(v);
      tree := tree.(children := tree.children[j := Tree.Leaf(v)]);
    }

    method Append(child: Node)
      requires Valid() && tree.Inner? && child.Valid() && child.Repr !! Repr
      modifies this
      ensures Valid() && Repr == old(Repr) + child.Repr
      ensures tree == old(tree).(children := old(tree).children + [child.tree])
    {
      children := children + [child];
      tree := tree.(children := tree.children + [child.tree]);
      Repr := Repr + child.Repr;
    }

    /** Stores a value for a key; what the destructor is called with. */
    method AddTo(k: Key, v: Value) returns (destroyed: seq<Value>)
      requires Valid() && Sound(tree) && 0 !in k
      modifies Repr
      ensures Valid() && fresh(Repr - old(Repr))
      ensures tree == Add(old(tree), k, v) && destroyed == Displaced(old(tree), k)
      decreases tree
    {
      destroyed := [];
      if |children| == 0 {
        AddLeaf(0, k, v);
        return;
      }
      var i := Mismatch(k);
      CommonPrefix(tree.key, k);
      if i < idx {
        NothingDisplaced(tree, k);
        SplitAt(i, k, v);
        return;
      }
      var j := FindChild(Head(k[idx..]));
      if j == |children| {
        NothingDisplaced(tree, k);
        var tip := NewTip(k[idx..], v);
        Append(tip);
      } else {
        assert children[j].Shaped();
        if children[j].ch != 0 {
          destroyed := AddBelow(j, k, v);
        } else {
          assert k == tree.key;
          EndDisplaced(tree, j);
          destroyed := ReplaceValue(j, v);
        }
      }
    }

    method AddBelow(j: nat, k: Key, v: Value) returns (destroyed: seq<Value>)
      requires Valid() && Sound(tree) && 0 !in k && tree.Inner? && tree.key <= k && |tree.key| < |k|
      requires j == IndexOf(tree.children, k[|key|]) < |children|
      modifies Repr
      ensures Valid() && fresh(Repr - old(Repr))
      ensures tree == Add(old(tree), k, v) && destroyed == Displaced(old(tree), k)
      decreases tree, 0
    {
      hide Add, Displaced, IndexOf, Sound;
      var child := children[j];
      AddDeeper(tree, k, v, j);
      destroyed := child.AddTo(k[idx + 1..], v);
      tree := tree.(children := tree.children[j := child.tree]);
      Repr := Repr + child.Repr;
    }

    // What a search reads of the children.
    ghost predicate Labelled(trees: seq<Tree>)
      reads this, children
    {
      && |children| == |trees|
      && forall n :: 0 <= n < |children| ==>
           children[n].ch == Ch(trees[n]) && (trees[n].Leaf? ==> children[n].value == trees[n].value)
    }

    lemma ValidLabelled()
      requires Valid() && tree.Inner?
      ensures Labelled(tree.children)
    {
      forall n | 0 <= n < |children|
        ensures children[n].Shaped() && children[n].tree == tree.children[n]
      {
      }
    }

    // The value of the key that ends here, among the first `i` children.
    ghost predicate Seen(trees: seq<Tree>, i: nat, here: Option<Value>)
      reads this, children
    {
      var m := IndexOf(trees, 0);
      |children| == |trees| && here == if m < i && m < |trees| then Some(children[m].value) else None
    }

    // Looks for the end of a key from child `i` on.
    method ScanForEnd(i: nat, before: Option<Value>, ghost trees: seq<Tree>) returns (here: Option<Value>)
      requires Labelled(trees) && i <= |children| && Seen(trees, i, before)
      requires forall j, k :: 0 <= j < k < |trees| ==> Ch(trees[j]) != Ch(trees[k])
      ensures Seen(trees, |children|, here)
    {
      here := before;
      var j := i;
      while j < |children|
        invariant i <= j <= |children| && Seen(trees, j, here)
      {
        if children[j].ch == 0 {
          here := Some(children[j].value);
          IndexFirst(trees, 0, j);
          break;
        }
        j := j + 1;
      }
    }

    /** Looks among the children for the one that a byte leads to, and for the end
        of a key. */
    method ScanChildren(c: Byte, ghost trees: seq<Tree>) returns (i: nat, here: Option<Value>)
      requires Labelled(trees) && forall j, k :: 0 <= j < k < |trees| ==> Ch(trees[j]) != Ch(trees[k])
      ensures i == IndexOf(trees, c) && (c != 0 ==> Seen(trees, |children|, here))
    {
      i, here := 0, None;
      while i < |children| && children[i].ch != c
        invariant i <= |children| && i <= IndexOf(trees, c) && Seen(trees, i, here)
      {
        if children[i].ch == 0 {
          here := Some(children[i].value);
          IndexFirst(trees, 0, i);
        }
        i := i + 1;
      }
      if i < |children| && c != 0 {
        here := ScanForEnd(i + 1, here, trees);
      }
    }

    // One step of a search that has `length` bytes of the key behind it: to a child,
    // or to the end, where the last match and an exact one, if any, are known.
    method Look(rest: Key, length: nat, before: Option<Match>)
      returns (next: Option<nat>, last: Option<Match>, exact: Option<Value>)
      requires Valid() && Sound(tree) && 0 !in rest
      ensures match next
        case None => last == Beyond(Longest(tree, rest), length, before) && exact == Find(tree, rest)
        case Some(i) =>
          && i < |children| && Sound(children[i].tree) && |key| < |rest| && key <= rest && tree.Inner?
          && Beyond(Longest(children[i].tree, rest[|key|..][1..]), length + |key| + 1, last)
             == Beyond(Longest(tree, rest), length, before)
          && Find(children[i].tree, rest[|key|..][1..]) == Find(tree, rest)
    {
      hide IndexOf, Longest, Find, Here;
      next, last, exact := None, before, None;
      if |children| == 0 || (idx > 0 && !(key <= rest)) {
        SearchEnds(tree, rest, length, before);
        return;
      }
      var more := rest[idx..];
      ValidLabelled();
      var i, here := ScanChildren(Head(more), tree.children);
      FindStep(tree, rest);
      LongestStep(tree, rest, length, before);
      SeenHere(tree, more, i, here);
      if more == [] {
        if i < |children| {
          exact := Some(children[i].value);
          last := Some(Match(children[i].value, length + idx));
        }
        return;
      }
      if here.Some? {
        last := Some(Match(here.value, length + idx));
      }
      if i < |children| {
        next := Some(i);
      }
    }

    lemma SeenHere(t: Tree, more: Key, i: nat, here: Option<Value>)
      requires t.Inner? && Sound(t) && Labelled(t.children) && i == IndexOf(t.children, Head(more))
      requires more != [] ==> Seen(t.children, |children|, here) && more[0] != 0
      ensures more != [] ==> here == Here(t.children)
      ensures more == [] ==> Here(t.children) == if i < |children| then Some(children[i].value) else None
      ensures more != [] && i < |children| ==> t.children[i].Inner? && Sound(t.children[i])
    {
    }

    /** The value stored for a key.  If asked for, the longest stored key that is a
        prefix of it will do, and what it leaves of the key is returned, too. */
    method Get(k: Key, prefixes: bool) returns (found: Option<Value>, diff: Option<Key>)
      requires Valid() && Sound(tree) && 0 !in k
      ensures !prefixes ==> found == Find(tree, k) && diff == None
      ensures prefixes ==>
        match Longest(tree, k)
        case Some(m) => m.length <= |k| && found == Some(m.value) && diff == Some(k[m.length..])
        case None => found == None && diff == None
    {
      LongestIsLongest(tree, k);
      hide Longest, Find, Sound;
      var t, rest, length: nat, partial: Option<Match> := this, k, 0, None;
      while true
        invariant t.Valid() && Sound(t.tree) && length <= |k| && rest == k[length..] && 0 !in rest
        invariant Find(t.tree, rest) == Find(tree, k)
        invariant Beyond(Longest(t.tree, rest), length, partial) == Longest(tree, k)
        decreases t.tree
      {
        var next, last, exact := t.Look(rest, length, partial);
        if next == None {
          if !prefixes {
            return exact, None;
          }
          if last == None {
            return None, None;
          }
          return Some(last.value.value), Some(k[last.value.length..]);
        }
        partial := last;
        length := length + |t.key| + 1;
        rest := rest[|t.key|..][1..];
        t := t.children[next.value];
      }
    }

    /** destroyTrie: what the destructor is called with. */
    method Destroy() returns (destroyed: seq<Value>)
      requires Valid() && Sound(tree)
      ensures multiset(destroyed) == Stored(tree)
      decreases tree
    {
      hide Values;
      destroyed := [];
      if |children| == 0 {
        return;
      }
      NoValues();
      assert tree.children[..0] == [];
      for i := 0 to |children|
        invariant multiset(destroyed) == Values(tree.children[..i])
      {
        var more := DestroyChild(i);
        destroyed := destroyed + more;
        ValuesNext(tree.children, i);
      }
      assert tree.children[..|children|] == tree.children;
    }

    method DestroyChild(i: nat) returns (destroyed: seq<Value>)
      requires Valid() && Sound(tree) && i < |children| && tree.Inner?
      ensures multiset(destroyed) == ValuesOf(tree.children[i])
      decreases tree, 0
    {
      hide Values;
      var child := children[i];
      destroyed := [];
      if child.ch == 0 {
        destroyed := [child.value];
      } else {
        destroyed := child.Destroy();
      }
    }
  }
}
