/** The LRU cache as a value: the keys from most to least recently used, the value each
    key maps to, and the size bound. The linked-node class in LruCache is proved to keep
    exactly this state. */
module LruSpec {
  import opened Wrappers

  datatype Lru<K, V> = Lru(keys: seq<K>, values: map<K, V>, capacity: int)

  /** One call on the cache, for describing a run of calls. */
  datatype Op<K, V> = GetOp(key: K) | PutOp(key: K, value: V)

  /** No item occurs twice in s: the first is not among the rest, and the rest are distinct. */
  ghost predicate Distinct<K>(s: seq<K>)
    decreases |s|
  {
    |s| == 0 || (s[0] !in s[1..] && Distinct(s[1..]))
  }

  /** Distinct says that the items at any two positions differ. */
  lemma {:induction false} DistinctPairwise<K>(s: seq<K>)
    ensures Distinct(s) <==> forall i, j :: 0 <= i < j < |s| ==> s[i] != s[j]
    decreases |s|
  {
    if |s| > 0 {
      DistinctPairwise(s[1..]);
      assert forall j :: 0 <= j < |s[1..]| ==> s[1..][j] == s[j + 1];
    }
  }

  /** The invariant of the cache: a positive bound, each key listed once, the listed keys
      exactly the mapped ones, and no more of them than the bound. */
  ghost predicate Inv<K, V>(c: Lru<K, V>)
  {
    1 <= c.capacity && Distinct(c.keys) && (forall k :: k in c.values ==> k in c.keys)
    && (forall k :: k in c.keys ==> k in c.values)
    && |c.values| == |c.keys| && |c.keys| <= c.capacity
  }

  /** A freshly constructed cache. */
  function Empty<K(==), V>(capacity: int): (r: Lru<K, V>)
    ensures Inv(r) <==> 1 <= capacity
    ensures |r.values| == 0
  {
    Lru([], map[], capacity)
  }

  /** s with k taken out, the other items keeping their order. */
  function Without<K(==)>(s: seq<K>, k: K): (r: seq<K>)
    ensures forall x :: x in r ==> x in s && x != k
    ensures forall x :: x in s && x != k ==> x in r
    ensures |r| <= |s|
  {
    if s == [] then []
    else if s[0] == k then Without(s[1..], k)
    else [s[0]] + Without(s[1..], k)
  }

  /** What get returns: the stored value, or nothing (Java's null) for an absent key. */
  function GetResult<K(==), V>(c: Lru<K, V>, k: K): Option<V>
  {
    if k in c.values then Some(c.values[k]) else None
  }

  /** The cache after get: a present key becomes the most recently used one. */
  function AfterGet<K(==), V>(c: Lru<K, V>, k: K): Lru<K, V>
  {
    if k in c.values then Lru([k] + Without(c.keys, k), c.values, c.capacity) else c
  }

  /** The cache without its least recently used key. */
  function Evict<K(==), V>(c: Lru<K, V>): Lru<K, V>
    requires |c.keys| > 0
  {
    Lru(c.keys[..|c.keys| - 1], c.values - {c.keys[|c.keys| - 1]}, c.capacity)
  }

  /** The cache with k, holding v, as the most recently used key. */
  function Admit<K(==), V>(c: Lru<K, V>, k: K, v: V): Lru<K, V>
  {
    Lru([k] + c.keys, c.values[k := v], c.capacity)
  }

  /** The cache after put: an existing key is overwritten and becomes the most recently used;
      a new key first evicts the least recently used one when the cache is full, then goes
      in front. */
  function AfterPut<K(==), V>(c: Lru<K, V>, k: K, v: V): Lru<K, V>
    requires Inv(c)
  {
    if k in c.values then
      Lru([k] + Without(c.keys, k), c.values[k := v], c.capacity)
    else if |c.values| >= c.capacity then
      Admit(Evict(c), k, v)
    else
      Admit(c, k, v)
  }

  /** The cache after one call; the invariant is kept. */
  function Step<K(==), V>(c: Lru<K, V>, op: Op<K, V>): (r: Lru<K, V>)
    requires Inv(c)
    ensures Inv(r) && r.capacity == c.capacity
  {
    match op
    case GetOp(k) => AfterGetInv(c, k); AfterGet(c, k)
    case PutOp(k, v) => AfterPutInv(c, k, v); AfterPut(c, k, v)
  }

  /** The cache after a run of calls: whatever the calls, it never holds more entries than
      its bound. */
  function Run<K(==), V>(c: Lru<K, V>, ops: seq<Op<K, V>>): (r: Lru<K, V>)
    requires Inv(c)
    ensures Inv(r) && r.capacity == c.capacity && |r.values| <= c.capacity
    decreases |ops|
  {
    if ops == [] then c else Run(Step(c, ops[0]), ops[1..])
  }

  lemma {:induction false} WithoutDistinct<K>(s: seq<K>, k: K)
    requires Distinct(s)
    ensures Distinct(Without(s, k))
  {
    if s != [] {
      WithoutDistinct(s[1..], k);
      if s[0] != k {
        var w := Without(s[1..], k);
        assert ([s[0]] + w)[1..] == w;
      }
    }
  }

  lemma {:induction false} WithoutAbsent<K>(s: seq<K>, k: K)
    requires k !in s
    ensures Without(s, k) == s
  {
    if s != [] {
      WithoutAbsent(s[1..], k);
      assert [s[0]] + s[1..] == s;
    }
  }

  /** Taking out a key that is listed once at position i splices it out. */
  lemma {:induction false} WithoutAt<K>(s: seq<K>, i: nat, k: K)
    requires Distinct(s) && i < |s| && s[i] == k
    ensures Without(s, k) == s[..i] + s[i + 1..]
  {
    if i == 0 {
      WithoutAbsent(s[1..], k);
    } else {
      var t := s[1..];
      assert t[i - 1] == k;
      WithoutAt(t, i - 1, k);
      assert t[..i - 1] == s[1..i] && t[i..] == s[i + 1..];
      assert [s[0]] + s[1..i] == s[..i];
    }
  }

  /** Taking a key out twice is taking it out once. */
  lemma WithoutTwice<K>(s: seq<K>, k: K)
    ensures Without(Without(s, k), k) == Without(s, k)
    ensures Without([k] + Without(s, k), k) == Without(s, k)
  {
    WithoutAbsent(Without(s, k), k);
    assert ([k] + Without(s, k))[1..] == Without(s, k);
  }

  /** A key listed once takes exactly one place. */
  lemma WithoutLength<K>(s: seq<K>, k: K)
    requires Distinct(s) && k in s
    ensures |Without(s, k)| == |s| - 1
  {
    var i :| 0 <= i < |s| && s[i] == k;
    WithoutAt(s, i, k);
  }

  lemma AfterGetInv<K, V>(c: Lru<K, V>, k: K)
    requires Inv(c)
    ensures Inv(AfterGet(c, k)) && AfterGet(c, k).capacity == c.capacity
  {
    if k in c.values {
      FrontInv(c.keys, k, c.values, c.capacity);
    }
  }

  /** Moving a listed key to the front keeps the invariant. */
  lemma FrontInv<K, V>(keys: seq<K>, k: K, values: map<K, V>, capacity: int)
    requires Inv(Lru(keys, values, capacity)) && k in keys
    ensures Inv(Lru([k] + Without(keys, k), values, capacity))
  {
    var w := Without(keys, k);
    WithoutDistinct(keys, k);
    WithoutLength(keys, k);
    DistinctCons(k, w);
  }

  lemma AfterPutInv<K, V>(c: Lru<K, V>, k: K, v: V)
    requires Inv(c)
    ensures Inv(AfterPut(c, k, v)) && AfterPut(c, k, v).capacity == c.capacity
  {
    if k in c.values {
      FrontInv(c.keys, k, c.values[k := v], c.capacity);
    } else if |c.values| >= c.capacity {
      EvictInv(c);
      AdmitInv(Evict(c), k, v);
    } else {
      AdmitInv(c, k, v);
    }
  }

  /** Dropping the least recently used key from list and map keeps the invariant and makes
      room for one more key. */
  lemma EvictInv<K, V>(c: Lru<K, V>)
    requires Inv(c) && |c.keys| > 0
    ensures Inv(Evict(c)) && |Evict(c).values| == |c.values| - 1
    ensures Evict(c).capacity == c.capacity
  {
    var last := c.keys[|c.keys| - 1];
    var rest := c.keys[..|c.keys| - 1];
    DropLast(c.keys);
    assert last in c.values;
    assert |c.values - {last}| == |rest|;
  }

  /** The distinct items but the last: still distinct, without the last one, and holding
      every other item. */
  lemma DropLast<K>(s: seq<K>)
    requires Distinct(s) && |s| > 0
    ensures var rest := s[..|s| - 1];
      Distinct(rest) && s[|s| - 1] !in rest
      && (forall x :: x in s && x != s[|s| - 1] ==> x in rest)
      && (forall x :: x in rest ==> x in s)
  {
    DistinctPairwise(s);
    DistinctPairwise(s[..|s| - 1]);
    assert s == s[..|s| - 1] + [s[|s| - 1]];
  }

  /** A new key in front, with its value, keeps the invariant while there is room. */
  lemma AdmitInv<K, V>(c: Lru<K, V>, k: K, v: V)
    requires Inv(c) && k !in c.values && |c.keys| < c.capacity
    ensures Inv(Admit(c, k, v))
  {
    DistinctCons(k, c.keys);
  }

  /** Taking the item at position i out of distinct items leaves them distinct and without it. */
  lemma DistinctRemove<K>(s: seq<K>, i: nat)
    requires Distinct(s) && i < |s|
    ensures Distinct(s[..i] + s[i + 1..]) && s[i] !in s[..i] + s[i + 1..]
    ensures forall x :: x in s && x != s[i] ==> x in s[..i] + s[i + 1..]
  {
    var r := s[..i] + s[i + 1..];
    DistinctPairwise(s);
    forall j | 0 <= j < |r|
      ensures r[j] == s[if j < i then j else j + 1]
    {
    }
    forall a, b | 0 <= a < b < |r|
      ensures r[a] != r[b]
    {
      assert r[a] == s[if a < i then a else a + 1];
      assert r[b] == s[if b < i then b else b + 1];
    }
    DistinctPairwise(r);
    forall j | 0 <= j < |r|
      ensures r[j] != s[i]
    {
      assert r[j] == s[if j < i then j else j + 1];
    }
    forall x | x in s && x != s[i]
      ensures x in r
    {
      var k :| 0 <= k < |s| && s[k] == x;
      assert r[if k < i then k else k - 1] == x;
    }
  }

  /** A new item put at position i of distinct items leaves them distinct. */
  lemma DistinctInsert<K>(s: seq<K>, i: nat, x: K)
    requires Distinct(s) && i <= |s| && x !in s
    ensures Distinct(s[..i] + [x] + s[i..])
  {
    var r := s[..i] + [x] + s[i..];
    DistinctPairwise(s);
    forall j | 0 <= j < |r| && j != i
      ensures r[j] == s[if j < i then j else j - 1]
    {
    }
    forall a, b | 0 <= a < b < |r|
      ensures r[a] != r[b]
    {
      if a != i {
        assert r[a] == s[if a < i then a else a - 1];
      }
      if b != i {
        assert r[b] == s[if b < i then b else b - 1];
      }
    }
    DistinctPairwise(r);
  }

  /** A new item in front of distinct items leaves them distinct. */
  lemma DistinctCons<K>(k: K, s: seq<K>)
    requires Distinct(s) && k !in s
    ensures Distinct([k] + s)
  {
    assert ([k] + s)[1..] == s;
  }

  /** get on an absent key answers nothing and leaves the cache as it is; on a present key it
      answers the stored value, keeps every entry, and moves that key to the front while the
      other keys keep their relative order. */
  lemma GetSpec<K, V>(c: Lru<K, V>, k: K)
    requires Inv(c)
    ensures k !in c.values ==> GetResult(c, k) == None && AfterGet(c, k) == c
    ensures k in c.values ==>
      var r := AfterGet(c, k);
      GetResult(c, k) == Some(c.values[k]) && r.values == c.values && r.keys[0] == k
      && |r.keys| == |c.keys| && Without(r.keys, k) == Without(c.keys, k)
  {
    if k in c.values {
      WithoutTwice(c.keys, k);
      WithoutLength(c.keys, k);
    }
  }

  /** put on an existing key overwrites its value and moves it to the front; no entry is
      evicted and the other keys keep their relative order. */
  lemma PutExisting<K, V>(c: Lru<K, V>, k: K, v: V)
    requires Inv(c) && k in c.values
    ensures var r := AfterPut(c, k, v);
      r.keys[0] == k && |r.keys| == |c.keys| && |r.values| == |c.values|
      && Without(r.keys, k) == Without(c.keys, k)
      && r.values[k] == v && (forall x :: x in c.values && x != k ==> x in r.values && r.values[x] == c.values[x])
  {
    WithoutTwice(c.keys, k);
    WithoutLength(c.keys, k);
  }

  /** put on an existing key is get on the cache where that key already holds the new value. */
  lemma OverwriteThenGet<K, V>(c: Lru<K, V>, k: K, v: V)
    requires Inv(c) && k in c.values
    ensures var c' := Lru(c.keys, c.values[k := v], c.capacity);
      Inv(c') && AfterPut(c, k, v) == AfterGet(c', k)
  {
  }

  /** put of a new key into a full cache evicts exactly the least recently used key, keeps
      every other entry, and puts the new key in front. */
  lemma PutEvicts<K, V>(c: Lru<K, V>, k: K, v: V)
    requires Inv(c) && k !in c.values && |c.values| >= c.capacity
    ensures var r := AfterPut(c, k, v); var lru := c.keys[|c.keys| - 1];
      lru !in r.values && r.values[k] == v && |r.values| == |c.values|
      && (forall x :: x in c.values && x != lru ==> x in r.values && r.values[x] == c.values[x])
      && r.keys == [k] + c.keys[..|c.keys| - 1]
  {
    var lru := c.keys[|c.keys| - 1];
    assert lru in c.values;
  }

  /** put of a new key into a cache with room evicts nothing and puts the new key in front. */
  lemma PutFresh<K, V>(c: Lru<K, V>, k: K, v: V)
    requires Inv(c) && k !in c.values && |c.values| < c.capacity
    ensures var r := AfterPut(c, k, v);
      r.keys == [k] + c.keys && r.values[k] == v && |r.values| == |c.values| + 1
      && (forall x :: x in c.values ==> x in r.values && r.values[x] == c.values[x])
  {
  }

  /** After put(k, v), get(k) answers v. */
  lemma PutGet<K, V>(c: Lru<K, V>, k: K, v: V)
    requires Inv(c)
    ensures GetResult(AfterPut(c, k, v), k) == Some(v)
  {
  }
}
