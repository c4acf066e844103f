/** trie.c: a path-compressed trie of NUL-terminated keys. */
module Trie {
  import opened Bytes

  // A pointer that the trie keeps for a key.
  type Value = nat

  type Key = seq<Byte>

  /** What a node stands for: the end of a key, or a branch that is entered by `ch`
      and goes on with `key`. */
  datatype Tree = Leaf(value: Value) | Inner(ch: Byte, key: Key, children: seq<Tree>)

  // The byte that leads to a child; NUL where a key ends.
  function Ch(t: Tree): Byte {
    if t.Leaf? then 0 else t.ch
  }

  function Head(k: Key): Byte {
    if k == [] then 0 else k[0]
  }

  // The child that `c` leads to, or the number of children.
  function IndexOf(children: seq<Tree>, c: Byte): (i: nat)
    ensures i <= |children| && (i < |children| ==> Ch(children[i]) == c)
    ensures forall j :: 0 <= j < i ==> Ch(children[j]) != c
  {
    if children == [] || Ch(children[0]) == c then 0 else 1 + IndexOf(children[1..], c)
  }

  // The number of bytes that two keys have in common.
  function Common(a: Key, b: Key): (i: nat)
    ensures i <= |a| && i <= |b| && a[..i] == b[..i]
    ensures i < |a| && i < |b| ==> a[i] != b[i]
  {
    if a == [] || b == [] || a[0] != b[0] then 0 else 1 + Common(a[1..], b[1..])
  }

  /** A well-formed trie: branches have children, with different first bytes, and
      only a leaf is entered by NUL.  A trie without keys is a leaf of its own. */
  predicate Sound(t: Tree) {
    t.Inner? ==>
      && 0 !in t.key && t.children != []
      && (forall i, j :: 0 <= i < j < |t.children| ==> Ch(t.children[i]) != Ch(t.children[j]))
      && (forall i :: 0 <= i < |t.children| ==>
            Sound(t.children[i]) && (t.children[i].Inner? ==> t.children[i].ch != 0))
  }

  /** The value stored for a key. */
  function Find(t: Tree, k: Key): Option<Value> {
    if t.Leaf? || !(t.key <= k) then None else FindBelow(t.children, k[|t.key|..])
  }

  function FindBelow(children: seq<Tree>, rest: Key): Option<Value> {
    var i := IndexOf(children, Head(rest));
    if i == |children| then None
    else if rest == [] then (if children[i].Leaf? then Some(children[i].value) else None)
    else Find(children[i], rest[1..])
  }

  // The new child for the rest of a key.
  function Tip(k: Key, v: Value): Tree {
    if k == [] then Leaf(v) else Inner(k[0], k[1..], [Leaf(v)])
  }

  function Split(t: Tree, i: nat, k: Key, v: Value): Tree
    requires t.Inner? && i < |t.key| && i <= |k|
  {
    Inner(t.ch, t.key[..i], [Inner(t.key[i], t.key[i + 1..], t.children), Tip(k[i..], v)])
  }

  /** addToTrie */
  function Add(t: Tree, k: Key, v: Value): Tree {
    if t.Leaf? then Inner(0, k, [Leaf(v)])
    else
      var i := Common(t.key, k);
      if i < |t.key| then Split(t, i, k, v)
      else
        var rest := k[i..];
        var j := IndexOf(t.children, Head(rest));
        if j == |t.children| then t.(children := t.children + [Tip(rest, v)])
        else if rest == [] then t.(children := t.children[j := Leaf(v)])
        else t.(children := t.children[j := Add(t.children[j], rest[1..], v)])
  }

  lemma CommonPrefix(a: Key, b: Key)
    ensures Common(a, b) == |a| <==> a <= b
  {
  }

  lemma {:induction false} IndexFound(children: seq<Tree>, c: Byte, i: nat)
    requires i < |children| && Ch(children[i]) == c
    requires forall j :: 0 <= j < i ==> Ch(children[j]) != c
    ensures IndexOf(children, c) == i
  {
  }

  // In a sound trie there is only one child to find.
  lemma IndexFirst(children: seq<Tree>, c: Byte, i: nat)
    requires i < |children| && Ch(children[i]) == c
    requires forall j, k :: 0 <= j < k < |children| ==> Ch(children[j]) != Ch(children[k])
    ensures IndexOf(children, c) == i
  {
    IndexFound(children, c, i);
  }

  lemma {:induction false} AddSound(t: Tree, k: Key, v: Value)
    requires Sound(t) && 0 !in k
    ensures Sound(Add(t, k, v)) && Add(t, k, v).Inner? && (t.Inner? ==> Add(t, k, v).ch == t.ch)
  {
    if t.Inner? {
      var i := Common(t.key, k);
      if i == |t.key| {
        var rest := k[i..];
        var j := IndexOf(t.children, Head(rest));
        if j < |t.children| && rest != [] {
          AddSound(t.children[j], rest[1..], v);
        }
      }
    }
  }

  // ---- The map ----

  lemma FindTip(k: Key, v: Value, q: Key)
    requires k != [] && 0 !in k && 0 !in q
    ensures Find(Tip(k, v), q) == if q == k[1..] then Some(v) else None
  {
    var t := Tip(k, v);
    if t.key <= q {
      assert IndexOf(t.children, Head(q[|t.key|..])) == if q == t.key then 0 else 1;
    }
  }

  lemma NoPrefix(a: Key, b: Key, i: nat)
    requires i < |a| && (i >= |b| || a[i] != b[i])
    ensures !(a <= b)
  {
  }

  lemma TwoChildren(a: Tree, b: Tree, c: Byte)
    ensures IndexOf([a, b], c) == if c == Ch(a) then 0 else if c == Ch(b) then 1 else 2
  {
    assert [a, b][1..] == [b];
  }

  // A key that leaves the branch where it is split, or ends there.
  lemma LeavesSplit(lower: Tree, rest: Key, v: Value, more: Key)
    requires lower.Inner? && lower.ch != 0 && Head(rest) != lower.ch && Head(more) != lower.ch
    requires 0 !in rest && 0 !in more
    ensures FindBelow([lower, Tip(rest, v)], more) == if more == rest then Some(v) else None
  {
    TwoChildren(lower, Tip(rest, v), Head(more));
    if rest != [] && more != [] && more[0] == rest[0] {
      FindTip(rest, v, more[1..]);
      assert more == [more[0]] + more[1..] && rest == [rest[0]] + rest[1..];
    }
  }

  // Keys that share their first bytes, and those that do not.
  lemma AfterPrefix(a: Key, k: Key, i: nat, q: Key)
    requires i <= |a| && i <= |k| && a[..i] == k[..i]
    ensures if a[..i] <= q then q == k <==> q[i..] == k[i..] else q != k && !(a <= q)
  {
    assert k == a[..i] + k[i..];
    if a[..i] <= q {
      assert q == a[..i] + q[i..];
    }
  }

  lemma SplitFinds(t: Tree, i: nat, k: Key, v: Value, q: Key)
    requires Sound(t) && t.Inner? && i == Common(t.key, k) < |t.key| && 0 !in k && 0 !in q
    ensures Find(Split(t, i, k, v), q) == if q == k then Some(v) else Find(t, q)
  {
    var lower := Inner(t.key[i], t.key[i + 1..], t.children);
    var rest := k[i..];
    assert t.key[i] in t.key && t.key[i] != 0;
    assert Head(rest) != t.key[i] && 0 !in rest;
    hide IndexOf, Common, Tip, Sound, FindBelow, Head;
    AfterPrefix(t.key, k, i, q);
    if t.key[..i] <= q {
      SplitFindsBelow(t, lower, i, rest, v, q);
    }
  }

  lemma SplitFindsBelow(t: Tree, lower: Tree, i: nat, rest: Key, v: Value, q: Key)
    requires t.Inner? && i < |t.key| && lower == Inner(t.key[i], t.key[i + 1..], t.children)
    requires t.key[i] != 0 && Head(rest) != t.key[i] && 0 !in rest && 0 !in q && t.key[..i] <= q
    ensures FindBelow([lower, Tip(rest, v)], q[i..]) == if q[i..] == rest then Some(v) else Find(t, q)
  {
    hide IndexOf, Tip;
    if Head(q[i..]) == t.key[i] {
      TwoChildren(lower, Tip(rest, v), t.key[i]);
      SamePath(t, lower, i, q);
      assert q[i..][1..] == q[i + 1..];
    } else {
      LeavesSplit(lower, rest, v, q[i..]);
      NoPrefix(t.key, q, i);
    }
  }

  // The lower half of a split branch finds what the whole branch did.
  lemma SamePath(t: Tree, lower: Tree, i: nat, q: Key)
    requires t.Inner? && i < |t.key| && lower == Inner(t.key[i], t.key[i + 1..], t.children)
    requires i < |q| && t.key[..i + 1] <= q
    ensures Find(t, q) == Find(lower, q[i + 1..])
  {
    assert t.key == t.key[..i + 1] + lower.key;
    assert q == q[..i + 1] + q[i + 1..];
    assert t.key <= q <==> lower.key <= q[i + 1..];
    if t.key <= q {
      assert q[|t.key|..] == q[i + 1..][|lower.key|..];
    }
  }

  // A child replaced by one that is entered the same way is found the same way.
  lemma ReplacedIndex(children: seq<Tree>, j: nat, child: Tree, c: Byte)
    requires j < |children| && Ch(child) == Ch(children[j])
    ensures IndexOf(children[j := child], c) == IndexOf(children, c)
  {
    var i, after := IndexOf(children, c), children[j := child];
    assert forall m :: 0 <= m < |children| ==> Ch(after[m]) == Ch(children[m]);
    if i < |children| {
      IndexFound(after, c, i);
    }
  }

  lemma AppendedIndex(children: seq<Tree>, child: Tree, c: Byte)
    requires IndexOf(children, Ch(child)) == |children|
    ensures var i := IndexOf(children, c);
      IndexOf(children + [child], c)
      == if c == Ch(child) then |children| else if i == |children| then |children| + 1 else i
  {
    var i, after := IndexOf(children, c), children + [child];
    assert forall m :: 0 <= m < |children| ==> after[m] == children[m];
    if i < |children| {
      IndexFound(after, c, i);
    } else if c == Ch(child) {
      IndexFound(after, c, |children|);
    }
  }

  // A key that leaves a branch by a new child ...
  lemma AppendedFinds(children: seq<Tree>, rest: Key, v: Value, more: Key)
    requires IndexOf(children, Head(rest)) == |children| && 0 !in rest && 0 !in more
    ensures FindBelow(children + [Tip(rest, v)], more) == if more == rest then Some(v) else FindBelow(children, more)
  {
    AppendedIndex(children, Tip(rest, v), Head(more));
    if rest != [] && more != [] && more[0] == rest[0] {
      FindTip(rest, v, more[1..]);
      assert more == [more[0]] + more[1..] && rest == [rest[0]] + rest[1..];
    }
  }

  // ... or ends there, once more ...
  lemma EndFinds(children: seq<Tree>, v: Value, more: Key)
    requires IndexOf(children, 0) < |children| && 0 !in more
    ensures FindBelow(children[IndexOf(children, 0) := Leaf(v)], more)
            == if more == [] then Some(v) else FindBelow(children, more)
  {
    ReplacedIndex(children, IndexOf(children, 0), Leaf(v), Head(more));
  }

  // ... or goes on below a child.
  lemma {:induction false} DeeperFinds(children: seq<Tree>, rest: Key, v: Value, more: Key)
    requires rest != [] && 0 !in rest && 0 !in more && IndexOf(children, rest[0]) < |children|
    requires Sound(children[IndexOf(children, rest[0])])
    ensures var j := IndexOf(children, rest[0]);
      (children[j].Inner? ==> FindBelow(children[j := Add(children[j], rest[1..], v)], more)
                              == if more == rest then Some(v) else FindBelow(children, more))
    decreases children, 0
  {
    hide Add;
    var j := IndexOf(children, rest[0]);
    if children[j].Inner? {
      AddSound(children[j], rest[1..], v);
      ReplacedIndex(children, j, Add(children[j], rest[1..], v), Head(more));
      if more != [] && more[0] == rest[0] {
        assert more == [more[0]] + more[1..] && rest == [rest[0]] + rest[1..];
        AddFinds(children[j], rest[1..], v, more[1..]);
      }
    }
  }

  /** A key that was added is found with its value, and all others as before:
      whatever branches are split, the trie is a finite map. */
  lemma {:induction false} AddFinds(t: Tree, k: Key, v: Value, q: Key)
    requires Sound(t) && 0 !in k && 0 !in q
    ensures Find(Add(t, k, v), q) == if q == k then Some(v) else Find(t, q)
    decreases t, 1
  {
    if t.Leaf? {
      AddFirst(k, v, q);
    } else if Common(t.key, k) < |t.key| {
      SplitFinds(t, Common(t.key, k), k, v, q);
    } else {
      CommonPrefix(t.key, k);
      var rest := k[|t.key|..];
      assert k == t.key + rest;
      if t.key <= q {
        var more := q[|t.key|..];
        assert q == t.key + more;
        var j := IndexOf(t.children, Head(rest));
        if j == |t.children| {
          AppendedFinds(t.children, rest, v, more);
        } else if rest == [] {
          EndFinds(t.children, v, more);
        } else {
          DeeperFinds(t.children, rest, v, more);
        }
      }
    }
  }

  lemma AddFirst(k: Key, v: Value, q: Key)
    requires 0 !in k && 0 !in q
    ensures Find(Inner(0, k, [Leaf(v)]), q) == if q == k then Some(v) else None
  {
    if k <= q {
      assert q == k + q[|k|..];
      assert IndexOf([Leaf(v)], Head(q[|k|..])) == if q == k then 0 else 1;
    }
  }

  // ---- Whole histories ----

  datatype Binding = Binding(key: Key, value: Value)

  function AddAll(history: seq<Binding>): Tree {
    if history == [] then Leaf(0)
    else
      var last := history[|history| - 1];
      Add(AddAll(history[..|history| - 1]), last.key, last.value)
  }

  function MapOf(history: seq<Binding>): map<Key, Value> {
    if history == [] then map[]
    else
      var last := history[|history| - 1];
      MapOf(history[..|history| - 1])[last.key := last.value]
  }

  /** From any history of keys inserted, lookup is that of a finite map. */
  lemma {:induction false} HistoryIsMap(history: seq<Binding>, q: Key)
    requires 0 !in q && forall i :: 0 <= i < |history| ==> 0 !in history[i].key
    ensures Sound(AddAll(history))
    ensures var m := MapOf(history); Find(AddAll(history), q) == if q in m then Some(m[q]) else None
    decreases |history|
  {
    hide Add;
    if history != [] {
      var before, last := history[..|history| - 1], history[|history| - 1];
      HistoryIsMap(before, q);
      AddSound(AddAll(before), last.key, last.value);
      AddFinds(AddAll(before), last.key, last.value, q);
    }
  }

  // ---- Longest prefixes ----

  datatype Match = Match(value: Value, length: nat)

  // The value of the key that ends at this branch.
  function Here(children: seq<Tree>): Option<Value> {
    FindBelow(children, [])
  }

  /** The longest stored key that is a prefix of `q`. */
  function Longest(t: Tree, q: Key): Option<Match> {
    if t.Leaf? || !(t.key <= q) then None
    else
      var rest := q[|t.key|..];
      var i := IndexOf(t.children, Head(rest));
      var below := if rest == [] || i == |t.children| then None else Longest(t.children[i], rest[1..]);
      match below
      case Some(m) => Some(Match(m.value, |t.key| + 1 + m.length))
      case None =>
        match Here(t.children)
        case Some(v) => Some(Match(v, |t.key|))
        case None => None
  }

  // What is stored for the first `n` bytes of `q`.
  function FindPrefix(t: Tree, q: Key, n: nat): Option<Value>
    requires n <= |q|
  {
    Find(t, q[..n])
  }

  lemma PrefixBelow(t: Tree, q: Key, n: nat)
    requires t.Inner? && t.key <= q && n <= |q|
    ensures FindPrefix(t, q, n) ==
      if n < |t.key| then None
      else FindBelow(t.children, q[|t.key|..][..n - |t.key|])
  {
    if n >= |t.key| {
      assert q[..n][|t.key|..] == q[|t.key|..][..n - |t.key|];
    }
  }

  ghost predicate IsLongest(t: Tree, q: Key, m: Option<Match>) {
    match m
    case None => forall n: nat :: n <= |q| ==> FindPrefix(t, q, n) == None
    case Some(m) =>
      && m.length <= |q| && FindPrefix(t, q, m.length) == Some(m.value)
      && forall n: nat :: m.length < n <= |q| ==> FindPrefix(t, q, n) == None
  }

  // Prefixes that go on below the branch.
  lemma PrefixDeeper(t: Tree, q: Key, n: nat)
    requires t.Inner? && t.key <= q && |t.key| < n <= |q|
    ensures var rest := q[|t.key|..]; var i := IndexOf(t.children, rest[0]);
      FindPrefix(t, q, n)
      == if i == |t.children| then None else FindPrefix(t.children[i], rest[1..], n - |t.key| - 1)
  {
    var rest := q[|t.key|..];
    PrefixBelow(t, q, n);
    assert rest[..n - |t.key|][1..] == rest[1..][..n - |t.key| - 1];
  }

  lemma {:induction false} LongestIsLongest(t: Tree, q: Key)
    ensures IsLongest(t, q, Longest(t, q))
  {
    hide FindPrefix, IndexOf, Here;
    if t.Leaf? || !(t.key <= q) {
      NoPrefixes(t, q);
    } else {
      forall n: nat | n <= |t.key|
        ensures FindPrefix(t, q, n) == if n < |t.key| then None else Here(t.children)
      {
        PrefixBelow(t, q, n);
        AtBranch(t, q);
      }
      forall n: nat | |t.key| < n <= |q|
        ensures var rest := q[|t.key|..]; var i := IndexOf(t.children, rest[0]);
          FindPrefix(t, q, n)
          == if i == |t.children| then None else FindPrefix(t.children[i], rest[1..], n - |t.key| - 1)
      {
        PrefixDeeper(t, q, n);
      }
      var rest := q[|t.key|..];
      if rest != [] && IndexOf(t.children, rest[0]) < |t.children| {
        LongestIsLongest(t.children[IndexOf(t.children, rest[0])], rest[1..]);
      }
    }
  }

  lemma AtBranch(t: Tree, q: Key)
    requires t.Inner? && t.key <= q
    ensures FindPrefix(t, q, |t.key|) == Here(t.children)
  {
    PrefixBelow(t, q, |t.key|);
  }

  lemma ShorterPrefix(a: Key, q: Key, n: nat)
    requires n <= |q| && !(a <= q)
    ensures !(a <= q[..n])
  {
  }

  lemma NoPrefixes(t: Tree, q: Key)
    requires t.Leaf? || !(t.key <= q)
    ensures forall n: nat :: n <= |q| ==> FindPrefix(t, q, n) == None
  {
    forall n: nat | n <= |q|
      ensures FindPrefix(t, q, n) == None
    {
      if t.Inner? {
        ShorterPrefix(t.key, q, n);
      }
    }
  }

  // A match below a branch, or else the last one on the way there.
  function Beyond(m: Option<Match>, length: nat, otherwise: Option<Match>): Option<Match> {
    match m
    case Some(m) => Some(Match(m.value, length + m.length))
    case None => otherwise
  }

  function HereAt(children: seq<Tree>, length: nat): Option<Match> {
    match Here(children)
    case Some(v) => Some(Match(v, length))
    case None => None
  }

  lemma SearchEnds(t: Tree, q: Key, length: nat, otherwise: Option<Match>)
    requires t.Leaf? || !(t.key <= q)
    ensures Beyond(Longest(t, q), length, otherwise) == otherwise && Find(t, q) == None
  {
  }

  // What one step down the trie does to a search.
  lemma FindStep(t: Tree, q: Key)
    requires t.Inner? && t.key <= q
    ensures var rest := q[|t.key|..]; var i := IndexOf(t.children, Head(rest));
      Find(t, q)
      == if rest == [] then Here(t.children) else if i == |t.children| then None else Find(t.children[i], rest[1..])
  {
    var rest := q[|t.key|..];
    assert Find(t, q) == FindBelow(t.children, rest);
    hide Find, IndexOf;
  }

  lemma LongestStep(t: Tree, q: Key, length: nat, otherwise: Option<Match>)
    requires t.Inner? && t.key <= q
    ensures var rest := q[|t.key|..]; var i := IndexOf(t.children, Head(rest));
      var at := length + |t.key|; var here := Beyond(HereAt(t.children, at), 0, otherwise);
      Beyond(Longest(t, q), length, otherwise)
      == if rest == [] || i == |t.children| then here else Beyond(Longest(t.children[i], rest[1..]), at + 1, here)
  {
    hide Here, IndexOf;
  }

  // ---- Values ----

  // The values that a trie holds, and the one that a new value for `k` takes the
  // place of.
  function Values(children: seq<Tree>): multiset<Value> {
    if children == [] then multiset{} else Values(children[..|children| - 1]) + ValuesOf(children[|children| - 1])
  }

  function ValuesOf(child: Tree): multiset<Value> {
    if child.Leaf? then multiset{child.value} else Values(child.children)
  }

  function Stored(t: Tree): multiset<Value> {
    if t.Leaf? then multiset{} else Values(t.children)
  }

  function Displaced(t: Tree, k: Key): seq<Value> {
    match Find(t, k)
    case Some(v) => [v]
    case None => []
  }

  lemma NoValues()
    ensures Values([]) == multiset{}
  {
  }

  lemma ValuesNext(children: seq<Tree>, i: nat)
    requires i < |children|
    ensures Values(children[..i + 1]) == Values(children[..i]) + ValuesOf(children[i])
  {
    assert children[..i + 1][..i] == children[..i];
  }

  lemma {:induction false} ValuesReplaced(children: seq<Tree>, j: nat, child: Tree)
    requires j < |children|
    ensures Values(children[j := child]) + ValuesOf(children[j]) == Values(children) + ValuesOf(child)
    decreases |children|
  {
    hide ValuesOf;
    var n := |children| - 1;
    var last := ValuesOf(if j == n then child else children[n]);
    if j == n {
      assert children[j := child][..n] == children[..n];
    } else {
      ValuesReplaced(children[..n], j, child);
      assert children[j := child][..n] == children[..n][j := child];
      SumsEqual(Values(children[..n][j := child]), ValuesOf(children[j]), Values(children[..n]), ValuesOf(child), last);
    }
  }

  lemma SumsEqual(a: multiset<Value>, b: multiset<Value>, c: multiset<Value>, d: multiset<Value>, e: multiset<Value>)
    requires a + b == c + d
    ensures a + e + b == c + e + d
  {
    assert a + e + b == a + b + e;
    assert c + e + d == c + d + e;
  }

  lemma ValuesAppended(children: seq<Tree>, child: Tree)
    ensures Values(children + [child]) == Values(children) + ValuesOf(child)
  {
    assert (children + [child])[..|children|] == children;
  }

  lemma OneChild(v: Value)
    ensures Values([Leaf(v)]) == multiset{v}
  {
  }

  lemma TipValues(k: Key, v: Value)
    ensures ValuesOf(Tip(k, v)) == multiset{v}
  {
    OneChild(v);
  }

  lemma SplitValues(t: Tree, i: nat, k: Key, v: Value)
    requires t.Inner? && i < |t.key| && i <= |k|
    ensures Stored(Split(t, i, k, v)) == Stored(t) + multiset{v}
  {
    hide Values, Tip;
    var lower := Inner(t.key[i], t.key[i + 1..], t.children);
    TipValues(k[i..], v);
    NoValues();
    ValuesAppended([lower], Tip(k[i..], v));
    ValuesAppended([], lower);
    assert [] + [lower] == [lower];
    assert [lower] + [Tip(k[i..], v)] == [lower, Tip(k[i..], v)];
  }

  lemma NothingDisplaced(t: Tree, k: Key)
    requires t.Leaf? || !(t.key <= k) || IndexOf(t.children, Head(k[|t.key|..])) == |t.children|
    ensures Displaced(t, k) == []
  {
    if t.Inner? && t.key <= k {
      assert Find(t, k) == FindBelow(t.children, k[|t.key|..]);
    }
  }

  lemma EndDisplaced(t: Tree, j: nat)
    requires Sound(t) && t.Inner? && j == IndexOf(t.children, 0) < |t.children|
    ensures t.children[j].Leaf? && Displaced(t, t.key) == [t.children[j].value]
  {
    assert Find(t, t.key) == FindBelow(t.children, []);
  }

  // A key that goes on below the child `j`.
  lemma AddDeeper(t: Tree, k: Key, v: Value, j: nat)
    requires Sound(t) && 0 !in k
    requires t.Inner? && t.key <= k && |t.key| < |k| && j == IndexOf(t.children, k[|t.key|]) < |t.children|
    ensures Sound(t.children[j]) && 0 !in k[|t.key| + 1..]
    ensures Add(t, k, v) == t.(children := t.children[j := Add(t.children[j], k[|t.key| + 1..], v)])
    ensures Displaced(t, k) == Displaced(t.children[j], k[|t.key| + 1..])
  {
    CommonPrefix(t.key, k);
    DisplacedBelow(t, k, j);
    assert k[|t.key|..][1..] == k[|t.key| + 1..];
    assert k[|t.key|] in k;
  }

  lemma DisplacedBelow(t: Tree, k: Key, j: nat)
    requires t.Inner? && t.key <= k && |t.key| < |k| && j == IndexOf(t.children, k[|t.key|]) < |t.children|
    ensures Displaced(t, k) == Displaced(t.children[j], k[|t.key|..][1..])
  {
    var rest := k[|t.key|..];
    assert Find(t, k) == FindBelow(t.children, rest);
    assert Head(rest) == k[|t.key|];
  }

  /** The value that is handed to the destructor is exactly the one that is no
      longer in the trie: none is lost, and none is kept as well. */
  lemma {:induction false} ValuesConserved(t: Tree, k: Key, v: Value)
    requires Sound(t) && 0 !in k
    ensures Stored(Add(t, k, v)) + multiset(Displaced(t, k)) == Stored(t) + multiset{v}
  {
    hide Values, IndexOf, Common, Find;
    if t.Leaf? {
      OneChild(v);
      NothingDisplaced(t, k);
    } else {
      CommonPrefix(t.key, k);
      var i := Common(t.key, k);
      var rest := k[i..];
      var j := IndexOf(t.children, Head(rest));
      if i < |t.key| {
        NothingDisplaced(t, k);
        SplitValues(t, i, k, v);
      } else if j == |t.children| {
        TipValues(rest, v);
        ValuesAppended(t.children, Tip(rest, v));
        NothingDisplaced(t, k);
      } else if rest == [] {
        assert k == t.key;
        EndDisplaced(t, j);
        assert multiset([t.children[j].value]) == ValuesOf(t.children[j]);
        ValuesReplaced(t.children, j, Leaf(v));
      } else {
        assert rest[0] in k;
        ValuesConserved(t.children[j], rest[1..], v);
        DisplacedBelow(t, k, j);
        AddSound(t.children[j], rest[1..], v);
        ValuesReplaced(t.children, j, Add(t.children[j], rest[1..], v));
        Exchange(Values(t.children[j := Add(t.children[j], rest[1..], v)]), ValuesOf(t.children[j]), Values(t.children),
                 ValuesOf(Add(t.children[j], rest[1..], v)), multiset(Displaced(t, k)), multiset{v});
      }
    }
  }

  lemma Exchange(a: multiset<Value>, old_: multiset<Value>, b: multiset<Value>, new_: multiset<Value>,
                 out: multiset<Value>, v: multiset<Value>)
    requires a + old_ == b + new_ && new_ + out == old_ + v
    ensures a + out == b + v
  {
    assert a + out + old_ == a + old_ + out;
    assert b + new_ + out == b + (new_ + out);
    assert b + (old_ + v) == b + v + old_;
    assert a + out + old_ - old_ == a + out && b + v + old_ - old_ == b + v;
  }
}
