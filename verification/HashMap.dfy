/** hashmap.c: a chained hash table, which grows by adding all its entries to a
    larger one. */
module HashMap {
  import opened Bytes

  type Key = string

  // A pointer that the table keeps for a key.
  type Value = nat

  datatype Entry = Entry(key: Key, value: Value)

  type Bucket = seq<Entry>

  predicate Distinct(b: Bucket) {
    forall i, j :: 0 <= i < j < |b| ==> b[i].key != b[j].key
  }

  /** What a bucket holds for a key. */
  function FindIn(b: Bucket, k: Key): Option<Value> {
    if b == [] then None
    else if b[|b| - 1].key == k then Some(b[|b| - 1].value)
    else FindIn(b[..|b| - 1], k)
  }

  lemma {:induction false} FindAt(b: Bucket, i: nat)
    requires i < |b| && Distinct(b)
    ensures FindIn(b, b[i].key) == Some(b[i].value)
  {
    if i < |b| - 1 {
      FindAt(b[..|b| - 1], i);
    }
  }

  lemma {:induction false} FindNone(b: Bucket, k: Key)
    ensures FindIn(b, k) == None <==> forall i :: 0 <= i < |b| ==> b[i].key != k
  {
    if b != [] {
      FindNone(b[..|b| - 1], k);
      assert forall i :: 0 <= i < |b| ==> i == |b| - 1 || b[i] == b[..|b| - 1][i];
    }
  }

  lemma FindAppended(b: Bucket, e: Entry, k: Key)
    ensures FindIn(b + [e], k) == if k == e.key then Some(e.value) else FindIn(b, k)
  {
    assert (b + [e])[..|b|] == b;
  }

  lemma {:induction false} FindUpdated(b: Bucket, i: nat, v: Value, k: Key)
    requires i < |b| && Distinct(b)
    ensures FindIn(b[i := Entry(b[i].key, v)], k) == if k == b[i].key then Some(v) else FindIn(b, k)
  {
    var b' := b[i := Entry(b[i].key, v)];
    if i == |b| - 1 {
      assert b'[..|b| - 1] == b[..|b| - 1];
    } else {
      assert b'[..|b| - 1] == b[..|b| - 1][i := Entry(b[i].key, v)];
      FindUpdated(b[..|b| - 1], i, v, k);
    }
  }

  // The bucket without entry `i`; the last entry takes its place.
  function Without(b: Bucket, i: nat): (r: Bucket)
    requires i < |b|
    ensures |r| == |b| - 1
  {
    b[i := b[|b| - 1]][..|b| - 1]
  }

  lemma FindWithout(b: Bucket, i: nat, k: Key)
    requires i < |b| && Distinct(b)
    ensures Distinct(Without(b, i))
    ensures FindIn(Without(b, i), k) == if k == b[i].key then None else FindIn(b, k)
  {
    var n, r := |b| - 1, Without(b, i);
    if k == b[i].key {
      FindNone(r, k);
    } else if FindIn(b, k) == None {
      FindNone(b, k);
      FindNone(r, k);
    } else {
      FindNone(b, k);
      var j :| 0 <= j < |b| && b[j].key == k;
      FindAt(b, j);
      var j' := if j == n then i else j;
      assert r[j'] == b[j];
      FindAt(r, j');
    }
  }

  // ---- All buckets ----

  // The bucket that a key belongs to.
  function Index(hash: Key -> nat, size: nat, k: Key): nat
    requires size > 0
  {
    hash(k) % size
  }

  function Get(m: map<Key, Value>, k: Key): Option<Value> {
    if k in m then Some(m[k]) else None
  }

  /** Bucket `i` holds exactly the part of `m` that belongs there, every key once. */
  ghost predicate Holds(hash: Key -> nat, size: nat, b: Bucket, i: nat, m: map<Key, Value>) {
    && Distinct(b)
    && forall k :: FindIn(b, k) == if size > 0 && Index(hash, size, k) == i then Get(m, k) else None
  }

  ghost predicate AllHold(hash: Key -> nat, buckets: seq<Bucket>, m: map<Key, Value>) {
    && (buckets == [] ==> m == map[])
    && forall i :: 0 <= i < |buckets| ==> Holds(hash, |buckets|, buckets[i], i, m)
  }

  /** Changing one bucket as the map changes for one of its keys keeps the others
      as they are. */
  lemma OneBucket(hash: Key -> nat, buckets: seq<Bucket>, m: map<Key, Value>, k: Key, b: Bucket, m': map<Key, Value>)
    requires buckets != [] && AllHold(hash, buckets, m) && Distinct(b)
    requires forall q :: q != k ==> Get(m', q) == Get(m, q)
    requires var i := Index(hash, |buckets|, k);
      forall q :: FindIn(b, q) == if q == k then Get(m', k) else FindIn(buckets[i], q)
    ensures AllHold(hash, buckets[Index(hash, |buckets|, k) := b], m')
  {
    var i := Index(hash, |buckets|, k);
    assert Holds(hash, |buckets|, buckets[i], i, m);
    var after := buckets[i := b];
    forall n | 0 <= n < |after|
      ensures Holds(hash, |buckets|, after[n], n, m')
    {
      assert Holds(hash, |buckets|, buckets[n], n, m);
    }
  }

  lemma SubmapSmaller(a: map<Key, Value>, b: map<Key, Value>, k: Key)
    requires (forall q :: q in a ==> q in b) && k in b && k !in a
    ensures |a| < |b|
  {
    SubsetSmaller(a.Keys, b.Keys - {k});
  }

  lemma SubsetSmaller(a: set<Key>, b: set<Key>)
    requires a <= b
    ensures |a| <= |b|
  {
    if a != {} {
      var x :| x in a;
      SubsetSmaller(a - {x}, b - {x});
    }
  }

  // A key among those of the first `i` buckets, or of the first `j` entries of the
  // next one.
  ghost predicate Passed(hash: Key -> nat, buckets: seq<Bucket>, i: nat, j: nat, k: Key)
    requires buckets != []
  {
    var n := Index(hash, |buckets|, k);
    n < i || (n == i && j <= |buckets[i]| && FindIn(buckets[i][..j], k) != None)
  }

  // `m'` has the part of `m` that a rehash has passed.
  ghost predicate SoFar(hash: Key -> nat, buckets: seq<Bucket>, i: nat, j: nat, m: map<Key, Value>, m': map<Key, Value>)
    requires buckets != []
  {
    forall k :: Get(m', k) == if Passed(hash, buckets, i, j, k) then Get(m, k) else None
  }

  // One more entry passes its key, and no other.
  lemma PassKey(hash: Key -> nat, buckets: seq<Bucket>, i: nat, j: nat, k: Key)
    requires i < |buckets| && j < |buckets[i]| && Index(hash, |buckets|, buckets[i][j].key) == i
    ensures Passed(hash, buckets, i, j + 1, k) <==> Passed(hash, buckets, i, j, k) || k == buckets[i][j].key
  {
    var b := buckets[i];
    assert b[..j + 1] == b[..j] + [b[j]];
    FindAppended(b[..j], b[j], k);
  }

  lemma PassEntry(hash: Key -> nat, buckets: seq<Bucket>, i: nat, j: nat, m: map<Key, Value>, m': map<Key, Value>)
    requires i < |buckets| && j < |buckets[i]| && AllHold(hash, buckets, m) && SoFar(hash, buckets, i, j, m, m')
    ensures var e := buckets[i][j];
      && e.key in m && e.key !in m' && |m'| < |m| && SoFar(hash, buckets, i, j + 1, m, m'[e.key := e.value])
  {
    var b := buckets[i];
    var e := b[j];
    assert Holds(hash, |buckets|, b, i, m);
    FindAt(b, j);
    assert Index(hash, |buckets|, e.key) == i;
    assert Get(m, e.key) == Some(e.value);
    FindNone(b[..j], e.key);
    assert Get(m', e.key) == None;
    var m1 := m'[e.key := e.value];
    assert SoFar(hash, buckets, i, j + 1, m, m1) by {
      hide Passed, Index, FindIn;
      forall k
        ensures Get(m1, k) == if Passed(hash, buckets, i, j + 1, k) then Get(m, k) else None
      {
        assert Get(m', k) == if Passed(hash, buckets, i, j, k) then Get(m, k) else None;
        PassKey(hash, buckets, i, j, k);
      }
    }
    forall k | k in m'
      ensures k in m
    {
      assert Get(m', k) != None;
    }
    SubmapSmaller(m', m, e.key);
  }

  lemma PassBucket(hash: Key -> nat, buckets: seq<Bucket>, i: nat, m: map<Key, Value>, m': map<Key, Value>)
    requires i < |buckets| && AllHold(hash, buckets, m) && SoFar(hash, buckets, i, |buckets[i]|, m, m')
    ensures SoFar(hash, buckets, i + 1, 0, m, m')
  {
    var b := buckets[i];
    assert Holds(hash, |buckets|, b, i, m);
    assert b[..|b|] == b;
    forall k
      ensures Get(m', k) == if Passed(hash, buckets, i + 1, 0, k) then Get(m, k) else None
    {
      assert Get(m', k) == if Passed(hash, buckets, i, |b|, k) then Get(m, k) else None;
    }
  }

  lemma PassAll(hash: Key -> nat, buckets: seq<Bucket>, m: map<Key, Value>, m': map<Key, Value>)
    requires buckets != [] && SoFar(hash, buckets, |buckets|, 0, m, m')
    ensures m' == m
  {
    forall k
      ensures Get(m', k) == Get(m, k)
    {
      assert Passed(hash, buckets, |buckets|, 0, k);
    }
    assert forall k :: (k in m' <==> Get(m', k) != None) && (k in m <==> Get(m, k) != None);
  }

  lemma FewerEntries(m: map<Key, Value>, k: Key)
    ensures |m - {k}| == |m| - if k in m then 1 else 0
  {
    assert (m - {k}).Keys == m.Keys - {k};
  }

  // What a visitor makes of an entry: whether it stays, and its new value.
  type Visitor = (Key, Value) -> (bool, Value)

  function Accepted(visit: Visitor, k: Key, v: Option<Value>): Option<Value> {
    if v.Some? && visit(k, v.value).0 then Some(visit(k, v.value).1) else None
  }

  function Filtered(visit: Visitor, m: map<Key, Value>): (r: map<Key, Value>)
    ensures r.Keys <= m.Keys && forall k :: Get(r, k) == Accepted(visit, k, Get(m, k))
  {
    map k | k in m && visit(k, m[k]).0 :: visit(k, m[k]).1
  }

  lemma FoundPermuted(a: Bucket, b: Bucket, k: Key)
    requires Distinct(a) && Distinct(b) && multiset(a) == multiset(b) && FindIn(a, k) != None
    ensures FindIn(a, k) == FindIn(b, k)
  {
    FindNone(a, k);
    var i :| 0 <= i < |a| && a[i].key == k;
    assert a[i] in multiset(b);
    var j :| 0 <= j < |b| && b[j] == a[i];
    FindAt(a, i);
    FindAt(b, j);
  }

  lemma FindPermuted(a: Bucket, b: Bucket, k: Key)
    requires Distinct(a) && Distinct(b) && multiset(a) == multiset(b)
    ensures FindIn(a, k) == FindIn(b, k)
  {
    if FindIn(a, k) != None {
      FoundPermuted(a, b, k);
    } else if FindIn(b, k) != None {
      FoundPermuted(b, a, k);
    }
  }

  // What the destructor is called with for the entries visited, the refused ones.
  function Refused(visit: Visitor, visited: Bucket): Bucket {
    if visited == [] then []
    else
      var e := visited[|visited| - 1];
      var (keep, value) := visit(e.key, e.value);
      Refused(visit, visited[..|visited| - 1]) + if keep then [] else [Entry(e.key, value)]
  }

  lemma RefusedNext(visit: Visitor, visited: Bucket, e: Entry)
    ensures Refused(visit, visited + [e])
      == Refused(visit, visited) + if visit(e.key, e.value).0 then [] else [Entry(e.key, visit(e.key, e.value).1)]
  {
    assert (visited + [e])[..|visited|] == visited;
  }

  lemma {:induction false} RefusedConcat(visit: Visitor, a: Bucket, b: Bucket)
    ensures Refused(visit, a + b) == Refused(visit, a) + Refused(visit, b)
  {
    if b == [] {
      assert a + b == a;
    } else {
      var init, e := b[..|b| - 1], b[|b| - 1];
      RefusedConcat(visit, a, init);
      RefusedNext(visit, a + init, e);
      RefusedNext(visit, init, e);
      assert b == init + [e] && a + b == a + init + [e];
      hide Refused;
      var last := if visit(e.key, e.value).0 then [] else [Entry(e.key, visit(e.key, e.value).1)];
      assert Refused(visit, a) + Refused(visit, init) + last == Refused(visit, a) + (Refused(visit, init) + last);
    }
  }

  // What holds between two entries of an iteration over bucket `b`: `visited` and
  // the rest of the bucket are its entries, and the first `j` entries stay.
  ghost predicate Visiting(b: Bucket, r: Bucket, j: nat, visited: Bucket, visit: Visitor) {
    && j <= |r| && Distinct(r) && Distinct(visited + r[j..]) && multiset(visited + r[j..]) == multiset(b)
    && forall k :: FindIn(r[..j], k) == Accepted(visit, k, FindIn(visited, k))
  }

  lemma NotVisited(b: Bucket, r: Bucket, j: nat, visited: Bucket, visit: Visitor)
    requires Visiting(b, r, j, visited, visit) && j < |r|
    ensures FindIn(visited, r[j].key) == None
  {
    var all := visited + r[j..];
    assert all[|visited|] == r[j] && forall i :: 0 <= i < |visited| ==> all[i] == visited[i];
    FindNone(visited, r[j].key);
  }

  lemma KeepEntry(b: Bucket, r: Bucket, j: nat, visited: Bucket, visit: Visitor)
    requires Visiting(b, r, j, visited, visit) && j < |r| && visit(r[j].key, r[j].value).0
    ensures var e := r[j];
      Visiting(b, r[j := Entry(e.key, visit(e.key, e.value).1)], j + 1, visited + [e], visit)
  {
    var e := r[j];
    var e' := Entry(e.key, visit(e.key, e.value).1);
    var r' := r[j := e'];
    assert visited + [e] + r'[j + 1..] == visited + r[j..];
    assert r'[..j + 1] == r[..j] + [e'];
    NotVisited(b, r, j, visited, visit);
    forall k
      ensures FindIn(r'[..j + 1], k) == Accepted(visit, k, FindIn(visited + [e], k))
    {
      FindAppended(r[..j], e', k);
      FindAppended(visited, e, k);
    }
  }

  // `b` is `a` with its last element moved forward to position `n`.
  lemma MovedForward(a: Bucket, b: Bucket, n: nat)
    requires Distinct(a) && n < |a| && b == a[..n] + [a[|a| - 1]] + a[n..|a| - 1]
    ensures Distinct(b) && multiset(b) == multiset(a)
  {
    var last := |a| - 1;
    assert a == a[..n] + a[n..last] + [a[last]];
    forall x, y | 0 <= x < y < |b|
      ensures b[x].key != b[y].key
    {
      var x', y' := if x < n then x else if x == n then last else x - 1, if y < n then y else if y == n then last else y - 1;
      assert b[x] == a[x'] && b[y] == a[y'] && x' != y';
    }
  }

  lemma DropRest(r: Bucket, j: nat, visited: Bucket)
    requires j < |r| && Distinct(visited + r[j..])
    ensures var all := visited + [r[j]] + Without(r, j)[j..];
      Distinct(all) && multiset(all) == multiset(visited + r[j..])
  {
    var r' := Without(r, j);
    var all, all' := visited + r[j..], visited + [r[j]] + r'[j..];
    if j == |r| - 1 {
      assert all' == all;
    } else {
      assert r'[j..] == [r[|r| - 1]] + r[j + 1..|r| - 1];
      assert all' == all[..|visited| + 1] + [all[|all| - 1]] + all[|visited| + 1..|all| - 1];
      MovedForward(all, all', |visited| + 1);
    }
  }

  lemma DropEntry(b: Bucket, r: Bucket, j: nat, visited: Bucket, visit: Visitor, e': Entry)
    requires Visiting(b, r, j, visited, visit) && j < |r| && !visit(r[j].key, r[j].value).0
    ensures Visiting(b, Without(r[j := e'], j), j, visited + [r[j]], visit)
  {
    var e, r' := r[j], Without(r, j);
    assert Without(r[j := e'], j) == r';
    FindWithout(r, j, e.key);
    DropRest(r, j, visited);
    assert r'[..j] == r[..j];
    NotVisited(b, r, j, visited, visit);
    hide Distinct, FindIn, Without;
    forall k
      ensures FindIn(r'[..j], k) == Accepted(visit, k, FindIn(visited + [e], k))
    {
      FindAppended(visited, e, k);
    }
  }

  lemma {:induction false} FindConcat(a: Bucket, b: Bucket, k: Key)
    ensures FindIn(a + b, k) == if FindIn(b, k) != None then FindIn(b, k) else FindIn(a, k)
  {
    if b == [] {
      assert a + b == a;
    } else {
      assert (a + b)[..|a + b| - 1] == a + b[..|b| - 1];
      FindConcat(a, b[..|b| - 1], k);
    }
  }

  lemma AppendVisited(hash: Key -> nat, size: nat, i: nat, visited: Bucket, v: Bucket, m: map<Key, Value>)
    requires i < size && Distinct(visited) && Distinct(v)
    requires forall k :: FindIn(visited, k) == if Index(hash, size, k) < i then Get(m, k) else None
    requires forall k :: FindIn(v, k) == if Index(hash, size, k) == i then Get(m, k) else None
    ensures Distinct(visited + v)
    ensures forall k :: FindIn(visited + v, k) == if Index(hash, size, k) < i + 1 then Get(m, k) else None
  {
    forall k { FindConcat(visited, v, k); }
    forall n, n' | 0 <= n < |visited| && 0 <= n' < |v|
      ensures visited[n].key != v[n'].key
    {
      FindAt(visited, n);
      FindAt(v, n');
    }
  }

  class HashMap {
    const hash: Key -> nat
    var entries: array<Bucket>
    var mapSize: nat
    var numEntries: nat
    ghost var contents: map<Key, Value>

    ghost predicate Valid()
      reads this, entries
    {
      && entries.Length == mapSize
      && AllHold(hash, entries[..], contents)
      && |contents| <= numEntries
    }

    constructor (h: Key -> nat)
      ensures Valid() && hash == h && contents == map[] && fresh(entries) && numEntries == 0
    {
      hash, mapSize, numEntries, contents := h, 0, 0, map[];
      entries := new Bucket[0];
    }

    // The table that takes over the entries of a full one.  Its count starts with
    // that of the full table.
    constructor Larger(h: Key -> nat, size: nat, count: nat)
      requires size > 0
      ensures Valid() && hash == h && contents == map[] && fresh(entries) && numEntries == count && mapSize == size
    {
      hash, mapSize, numEntries, contents := h, size, count, map[];
      entries := new Bucket[size](_ => []);
    }

    // The position of a key in its bucket.
    method Search(bucket: Bucket, key: Key) returns (i: nat)
      ensures i <= |bucket| && forall j :: 0 <= j < i ==> bucket[j].key != key
      ensures i < |bucket| ==> bucket[i].key == key
    {
      i := 0;
      while i < |bucket| && bucket[i].key != key
        invariant i <= |bucket| && forall j :: 0 <= j < i ==> bucket[j].key != key
      {
        i := i + 1;
      }
    }

    // Puts an entry into its bucket; what the destructor is called with.
    method Put(key: Key, value: Value) returns (destroyed: seq<Entry>)
      requires Valid() && mapSize > 0
      modifies entries, `numEntries, `contents
      ensures Valid() && contents == old(contents)[key := value]
      ensures destroyed == if key in old(contents) then [Entry(key, old(contents)[key])] else []
      ensures numEntries == old(numEntries) + if key in old(contents) then 0 else 1
    {
      var idx := hash(key) % mapSize;
      var b := entries[idx];
      ghost var was := entries[..];
      assert Holds(hash, mapSize, b, idx, contents);
      var i := Search(b, key);
      if i < |b| {
        FindAt(b, i);
        destroyed := [Entry(b[i].key, b[i].value)];
        entries[idx] := b[i := Entry(key, value)];
        forall q ensures FindIn(entries[idx], q) == if q == key then Some(value) else FindIn(b, q) {
          FindUpdated(b, i, value, q);
        }
      } else {
        FindNone(b, key);
        destroyed := [];
        entries[idx] := b + [Entry(key, value)];
        forall q ensures FindIn(entries[idx], q) == if q == key then Some(value) else FindIn(b, q) {
          FindAppended(b, Entry(key, value), q);
        }
        numEntries := numEntries + 1;
      }
      OneBucket(hash, was, contents, key, entries[idx], contents[key := value]);
      assert entries[..] == was[idx := entries[idx]];
      contents := contents[key := value];
    }

    // Adds the entries of one bucket to a larger table, which may have to grow
    // again before it is done.
    method MoveBucket(newMap: HashMap, i: nat) returns (destroyed: seq<Entry>)
      requires Valid() && newMap.Valid() && newMap != this && newMap.entries != entries
      requires newMap.hash == hash && newMap.mapSize > 0 && i < mapSize
      requires SoFar(hash, entries[..], i, 0, contents, newMap.contents)
      modifies newMap, newMap.entries
      ensures newMap.Valid() && newMap.mapSize > 0 && SoFar(hash, entries[..], i + 1, 0, contents, newMap.contents)
      ensures newMap.entries == old(newMap.entries) || fresh(newMap.entries)
      ensures destroyed == []
      decreases |contents|, 0
    {
      destroyed := [];
      ghost var buckets := entries[..];
      var b := entries[i];
      for j := 0 to |b|
        invariant entries[..] == buckets && contents == old(contents) && buckets[i] == b
        invariant newMap.Valid() && newMap.mapSize > 0 && SoFar(hash, buckets, i, j, contents, newMap.contents)
        invariant newMap.entries == old(newMap.entries) || fresh(newMap.entries)
        invariant destroyed == []
      {
        PassEntry(hash, buckets, i, j, contents, newMap.contents);
        var d := newMap.Add(b[j].key, b[j].value);
        destroyed := destroyed + d;
      }
      PassBucket(hash, buckets, i, contents, newMap.contents);
    }

    /** Moves all entries to a larger table. */
    method Rehash() returns (destroyed: seq<Entry>)
      requires Valid()
      modifies this
      ensures Valid() && mapSize > 0 && fresh(entries) && contents == old(contents) && destroyed == []
      decreases |contents|, 1
    {
      destroyed := [];
      var size := if mapSize == 0 then 32 else if mapSize < 1024 then 2 * mapSize else mapSize + 1024;
      var newMap := new HashMap.Larger(hash, size, numEntries);
      if mapSize > 0 {
        ghost var buckets := entries[..];
        for i := 0 to mapSize
          invariant Valid() && entries[..] == buckets && contents == old(contents) && newMap != this
          invariant mapSize == old(mapSize) && entries == old(entries)
          invariant newMap.Valid() && newMap.mapSize > 0 && newMap.hash == hash && fresh(newMap) && fresh(newMap.entries)
          invariant SoFar(hash, buckets, i, 0, contents, newMap.contents) && destroyed == []
        {
          var d := MoveBucket(newMap, i);
          destroyed := destroyed + d;
        }
        PassAll(hash, buckets, contents, newMap.contents);
      }
      entries, mapSize, numEntries := newMap.entries, newMap.mapSize, newMap.numEntries;
    }

    /** Stores a value for a key; what the destructor is called with. */
    method Add(key: Key, value: Value) returns (destroyed: seq<Entry>)
      requires Valid()
      modifies this, entries
      ensures Valid() && mapSize > 0 && contents == old(contents)[key := value]
      ensures entries == old(entries) || fresh(entries)
      ensures destroyed == if key in old(contents) then [Entry(key, old(contents)[key])] else []
      decreases |contents|, 2
    {
      destroyed := [];
      if numEntries + 1 > mapSize * 8 / 10 {
        destroyed := Rehash();
      }
      var replaced := Put(key, value);
      destroyed := destroyed + replaced;
    }

    /** Where the value of a key is stored: its bucket and position. */
    method GetRef(key: Key) returns (ref: Option<(nat, nat)>)
      requires Valid()
      ensures match ref
        case None => key !in contents
        case Some((i, j)) =>
          && i < mapSize && j < |entries[i]| && entries[i][j].key == key
          && key in contents && contents[key] == entries[i][j].value
    {
      if mapSize == 0 {
        return None;
      }
      var idx := hash(key) % mapSize;
      assert Holds(hash, mapSize, entries[idx], idx, contents);
      var i := Search(entries[idx], key);
      if i < |entries[idx]| {
        FindAt(entries[idx], i);
        return Some((idx, i));
      }
      FindNone(entries[idx], key);
      return None;
    }

    // Removes a key from its bucket; the search goes on behind it.
    method RemoveFrom(b: Bucket, key: Key) returns (r: Bucket, destroyed: seq<Entry>)
      requires Distinct(b)
      ensures Distinct(r) && forall q :: FindIn(r, q) == if q == key then None else FindIn(b, q)
      ensures destroyed == (match FindIn(b, key) case Some(v) => [Entry(key, v)] case None => [])
    {
      r, destroyed := b, [];
      var i := 0;
      ghost var p: nat := |b|;
      while i < |r|
        invariant if p < |b| then r == Without(b, p) && b[p].key == key && destroyed == [b[p]]
                  else i <= |b| && r == b && destroyed == []
        invariant forall j :: 0 <= j < (if p < |b| then |r| else i) ==> r[j].key != key
      {
        if r[i].key == key {
          p := i;
          destroyed := destroyed + [r[i]];
          r := Without(r, i);
          FindWithout(b, p, key);
          FindNone(r, key);
        }
        i := i + 1;
      }
      if p < |b| {
        FindAt(b, p);
        forall q { FindWithout(b, p, q); }
      } else {
        FindNone(b, key);
      }
    }

    /** Removes a key; the last entry of its bucket takes its place.  The count
        never drops below zero. */
    method Delete(key: Key) returns (destroyed: seq<Entry>)
      requires Valid()
      modifies entries, `numEntries, `contents
      ensures Valid() && contents == old(contents) - {key}
      ensures destroyed == if key in old(contents) then [Entry(key, old(contents)[key])] else []
    {
      destroyed := [];
      if mapSize == 0 {
        return;
      }
      var idx := hash(key) % mapSize;
      ghost var was := entries[..];
      assert Holds(hash, mapSize, entries[idx], idx, contents);
      var r;
      r, destroyed := RemoveFrom(entries[idx], key);
      OneBucket(hash, was, contents, key, r, contents - {key});
      entries[idx] := r;
      assert entries[..] == was[idx := r];
      FewerEntries(contents, key);
      contents := contents - {key};
      numEntries := numEntries - |destroyed|;
    }

    // One bucket of an iteration: each entry is visited once, and stays, with its
    // new value, only if it is accepted.
    method VisitBucket(b: Bucket, visit: Visitor) returns (r: Bucket, visited: Bucket, destroyed: Bucket)
      requires Distinct(b)
      ensures Distinct(r) && forall k :: FindIn(r, k) == Accepted(visit, k, FindIn(b, k))
      ensures Distinct(visited) && forall k :: FindIn(visited, k) == FindIn(b, k)
      ensures destroyed == Refused(visit, visited)
    {
      r, visited, destroyed := b, [], [];
      var j := 0;
      while j < |r|
        invariant Visiting(b, r, j, visited, visit) && destroyed == Refused(visit, visited)
        decreases |r| - j
      {
        hide Refused;
        var e := r[j];
        RefusedNext(visit, visited, e);
        var (keep, value) := visit(e.key, e.value);
        if keep {
          KeepEntry(b, r, j, visited, visit);
        } else {
          DropEntry(b, r, j, visited, visit, Entry(e.key, value));
        }
        visited := visited + [e];
        if keep {
          r := r[j := Entry(e.key, value)];
          j := j + 1;
        } else {
          destroyed := destroyed + [Entry(e.key, value)];
          r := Without(r[j := Entry(e.key, value)], j);
        }
      }
      assert r[..j] == r && visited + r[j..] == visited;
      forall k { FindPermuted(visited, b, k); }
    }

    /** Visits every entry once, and keeps exactly those that are accepted.  The
        count is left as it is. */
    method Iterate(visit: Visitor) returns (visited: Bucket, destroyed: Bucket)
      requires Valid()
      modifies entries, `contents
      ensures Valid() && numEntries == old(numEntries)
      ensures forall k :: Get(contents, k) == Accepted(visit, k, Get(old(contents), k))
      ensures Distinct(visited) && forall k :: FindIn(visited, k) == Get(old(contents), k)
      ensures destroyed == Refused(visit, visited)
    {
      visited, destroyed := [], [];
      ghost var m, m', buckets := contents, Filtered(visit, contents), entries[..];
      for i := 0 to mapSize
        invariant |entries[..]| == mapSize && contents == m
        invariant forall n :: 0 <= n < i ==> Holds(hash, mapSize, entries[n], n, m')
        invariant forall n :: i <= n < mapSize ==> entries[n] == buckets[n]
        invariant Distinct(visited) && (mapSize == 0 ==> visited == []) && destroyed == Refused(visit, visited)
        invariant forall k :: mapSize > 0 ==>
          FindIn(visited, k) == if Index(hash, mapSize, k) < i then Get(m, k) else None
      {
        assert Holds(hash, mapSize, buckets[i], i, m);
        var r, v, d := VisitBucket(entries[i], visit);
        entries[i] := r;
        RefusedConcat(visit, visited, v);
        destroyed := destroyed + d;
        AppendVisited(hash, mapSize, i, visited, v, m);
        visited := visited + v;
      }
      SubsetSmaller(m'.Keys, m.Keys);
      if mapSize == 0 {
        assert m == map[] && m' == map[];
      } else {
        forall k ensures FindIn(visited, k) == Get(m, k) {
          assert Index(hash, mapSize, k) < mapSize;
        }
      }
      contents := m';
    }
  }
}
