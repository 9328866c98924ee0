/** The bounded LRU cache: a map from each key to its node, and a doubly linked list of the
    nodes between a dummy head and a dummy tail, most recently used first. Every public
    operation is proved to do to the cache what the value model in LruSpec says. */
module LruCache {
  import opened Wrappers
  import opened LruSpec

  /** One entry of the list. The dummy head and tail are nodes too. */
  class CacheNode<K(0), V(0)> {
    var key: K
    var value: V
    var prev: CacheNode?<K, V>
    var next: CacheNode?<K, V>

    /** A node linked to nothing; its key and value hold their types' defaults. */
    constructor ()
      ensures prev == null && next == null
    {
      prev := null;
      next := null;
    }

    /** A node linked to nothing, holding key and value. */
    constructor Entry(key: K, value: V)
      ensures this.key == key && this.value == value && prev == null && next == null
    {
      this.key := key;
      this.value := value;
      prev := null;
      next := null;
    }
  }

  /** Neighbouring nodes of c point at each other through next and prev. */
  ghost predicate Links<K(0), V(0)>(c: seq<CacheNode<K, V>>)
    reads c`next, c`prev
  {
    (forall i {:trigger c[i].next} :: 0 <= i < |c| - 1 ==> c[i].next == c[i + 1])
    && (forall i {:trigger c[i].prev} :: 0 < i < |c| ==> c[i].prev == c[i - 1])
  }

  /** Every item of s is an item of t. */
  ghost predicate Within<T>(s: seq<T>, t: seq<T>)
  {
    forall k :: 0 <= k < |s| ==> s[k] in t
  }

  /** s without its item at position i. */
  ghost function RemoveAt<T>(s: seq<T>, i: int): seq<T>
    requires 0 <= i < |s|
  {
    s[..i] + s[i + 1..]
  }

  /** The nodes of c strictly between its first and last carry keys, in order. */
  ghost predicate Carries<K(0), V(0)>(c: seq<CacheNode<K, V>>, keys: seq<K>)
    reads c`key
  {
    |c| == |keys| + 2 && forall j :: 0 <= j < |keys| ==> c[j + 1].key == keys[j]
  }

  /** Each key of keys, at position j, is mapped by m to the entry c[j + 1]. */
  ghost predicate Entries<K(0), V(0)>(c: seq<CacheNode<K, V>>, keys: seq<K>, m: map<K, CacheNode<K, V>>)
  {
    |c| == |keys| + 2 && forall j :: 0 <= j < |keys| ==> keys[j] in m && m[keys[j]] == c[j + 1]
  }

  /** The value held by the entry each key of m is mapped to. */
  ghost function ValuesOf<K(0), V(0)>(m: map<K, CacheNode<K, V>>): (r: map<K, V>)
    reads m.Values`value
    ensures r.Keys == m.Keys && |r| == |m|
    ensures forall k :: k in m ==> r[k] == m[k].value
  {
    map k | k in m :: m[k].value
  }

  class LRUCache<K(==, 0), V(0)> {
    const maxCacheSize: int
    var cacheMap: map<K, CacheNode<K, V>>
    const head: CacheNode<K, V>
    const tail: CacheNode<K, V>

    // The whole list (head, the entries most recently used first, tail) and the keys of the
    // entries in that order.
    ghost var chain: seq<CacheNode<K, V>>
    ghost var keys: seq<K>

    /** The value each key maps to, read off its entry. */
    ghost function Values(): map<K, V>
      reads this`cacheMap, cacheMap.Values`value
    {
      ValuesOf(cacheMap)
    }

    /** The cache as a value. */
    ghost function Model(): Lru<K, V>
      reads this`keys, this`cacheMap, cacheMap.Values`value
    {
      Lru(keys, Values(), maxCacheSize)
    }

    /** The node at position i of the list. */
    ghost function Node(i: int): CacheNode<K, V>
      requires 0 <= i < |chain|
      reads this`chain
    {
      chain[i]
    }

    /** The list runs from head to tail, holds each node once, its neighbouring nodes point
        at each other, and its entries carry the keys in order. */
    ghost predicate Linked()
      reads this`chain, this`keys, chain`next, chain`prev, chain`key
    {
      |chain| >= 2 && chain[0] == head && chain[|chain| - 1] == tail
      && Distinct(chain) && Links(chain) && Carries(chain, keys)
    }

    /** The map sends the key of each entry to that entry. */
    ghost predicate Mapped()
      reads this`chain, this`keys, this`cacheMap
    {
      Entries(chain, keys, cacheMap)
    }

    /** The class invariant: the list is well linked, the map agrees with its entries, and the
        value model keeps its own invariant. */
    ghost predicate Valid()
      reads this`chain, this`keys, this`cacheMap, chain`next, chain`prev, chain`key, cacheMap.Values`value
    {
      Linked() && Mapped() && Inv(Model())
    }

    /** A cache over an empty map, with head and tail linked to each other. */
    constructor (maxCacheSize: int, cacheMap: map<K, CacheNode<K, V>>)
      requires 1 <= maxCacheSize && cacheMap == map[]
      ensures Valid() && Model() == Empty(maxCacheSize)
      ensures fresh(head) && fresh(tail) && chain == [head, tail]
    {
      this.maxCacheSize := maxCacheSize;
      this.cacheMap := cacheMap;
      var h := new CacheNode();
      var t := new CacheNode();
      head := h;
      tail := t;
      chain := [h, t];
      keys := [];
      new;
      head.next := tail;
      tail.prev := head;
    }

    /** The stored value of key, which becomes the most recently used; nothing for an
        absent key. */
    method Get(key: K) returns (r: Option<V>)
      requires Valid()
      modifies this, chain
      ensures Valid()
      ensures r == GetResult(old(Model()), key) && Model() == AfterGet(old(Model()), key)
      ensures forall i :: 0 <= i < |chain| ==> chain[i] in old(chain) || fresh(chain[i])
    {
      if key !in cacheMap {
        return None;
      }
      var node := cacheMap[key];
      ghost var j :| 0 <= j < |keys| && keys[j] == key;
      assert node.key == key;
      MoveToHead(node, j);
      return Some(node.value);
    }

    /** Stores value under key as the most recently used entry, evicting the least recently
        used one first when a new key meets a full cache. */
    method Put(key: K, value: V)
      requires Valid()
      modifies this, chain
      ensures Valid() && Model() == AfterPut(old(Model()), key, value)
      ensures forall i :: 0 <= i < |chain| ==> chain[i] in old(chain) || fresh(chain[i])
    {
      if key in cacheMap {
        Update(key, value);
      } else {
        if |cacheMap| >= maxCacheSize {
          EvictInv(Model());
          ghost var c0 := chain;
          RemoveLeastUsed();
          ghost var c1 := chain;
          assert Member(c1[1], c0);
          AddEntry(key, value);
          forall i | 0 <= i < |chain|
            ensures chain[i] in c0 || fresh(chain[i])
          {
            if chain[i] in c1 {
              var j :| 0 <= j < |c1| && c1[j] == chain[i];
              assert Member(c1[j], c0);
            }
          }
        } else {
          AddEntry(key, value);
        }
      }
    }

    /** Overwrites the value of the entry key maps to and moves that entry to the front. */
    method Update(key: K, value: V)
      requires Valid() && key in cacheMap
      modifies this`chain, this`keys, chain`next, chain`prev, {cacheMap[key]}`value
      ensures Valid() && Model() == AfterPut(old(Model()), key, value)
      ensures forall i :: 0 <= i < |chain| ==> chain[i] in old(chain)
    {
      ghost var ks, vs := keys, Values();
      var node := cacheMap[key];
      ghost var j :| 0 <= j < |keys| && keys[j] == key;
      assert node.key == key;
      Apart(chain, j + 1);
      node.value := value;
      assert Values() == vs[key := value];
      OverwriteThenGet(Lru(ks, vs, maxCacheSize), key, value);
      MoveToHead(node, j);
    }

    /** Maps key to a new entry holding value and links that entry in right after head. */
    method AddEntry(key: K, value: V)
      requires Valid() && key !in cacheMap && |cacheMap| < maxCacheSize
      modifies this`cacheMap, this`chain, this`keys, head`next, Node(1)`prev
      ensures Valid() && Model() == Admit(old(Model()), key, value)
      ensures forall i :: 0 <= i < |chain| ==> chain[i] in old(chain) || fresh(chain[i])
    {
      ghost var ks, vs, m, c := keys, Values(), cacheMap, chain;
      var newNode := new CacheNode.Entry(key, value);
      EntriesPut(c, ks, m, key, newNode);
      cacheMap := cacheMap[key := newNode];
      AddToHead(newNode);
      Admitted(key, value, ks, vs, m);
      forall i | 0 <= i < |chain|
        ensures chain[i] in c || fresh(chain[i])
      {
        assert InOr(chain[i], c, newNode);
      }
    }

    /** Unlinks the least recently used entry, the one just before tail, and unmaps its key. */
    method RemoveLeastUsed()
      requires Valid() && |keys| > 0
      modifies this`cacheMap, this`chain, this`keys, Node(|chain| - 3)`next, tail`prev
      ensures Valid() && Model() == Evict(old(Model()))
      ensures forall i {:trigger Member(chain[i], old(chain))} :: 0 <= i < |chain| ==> Member(chain[i], old(chain))
    {
      ghost var ks, vs, m0 := keys, Values(), cacheMap;
      var leastUseNode := tail.prev;
      assert leastUseNode == chain[|ks|] && leastUseNode.key == ks[|ks| - 1];
      RemoveNode(leastUseNode, |chain| - 2);
      cacheMap := cacheMap - {leastUseNode.key};
      assert ValuesOf(m0) == vs by {
        assert forall k :: k in m0 ==> ValuesOf(m0)[k] == vs[k];
      }
      Dropped(ks, vs, m0);
    }

    /** Moves node, the entry at position j + 1 of the list, to the front: unlinks it, then
        links it in right after head. */
    method MoveToHead(node: CacheNode<K, V>, ghost j: nat)
      requires Valid() && j < |keys| && node == chain[j + 1]
      modifies this`chain, this`keys, chain`next, chain`prev
      ensures Valid() && Model() == AfterGet(old(Model()), node.key)
      ensures forall i :: 0 <= i < |chain| ==> chain[i] in old(chain)
    {
      ghost var ks, vs := keys, Values();
      assert node.key == ks[j] && cacheMap[ks[j]] == node;
      ghost var c0 := chain;
      RemoveNode(node, j + 1);
      ghost var c1 := chain;
      AddToHead(node);
      MovedToFront(node.key, j, ks, vs);
      forall i | 0 <= i < |chain|
        ensures chain[i] in c0
      {
        assert InOr(chain[i], c1, node);
        if chain[i] in c1 {
          var k :| 0 <= k < |c1| && c1[k] == chain[i];
          assert Member(c1[k], c0);
        } else {
          assert c0[j + 1] == chain[i];
        }
      }
    }

    /** Once the key at position j of the old keys ks has been moved to the front of the
        list, with the values vs as they were, the invariant holds again and the cache is the
        model after get. */
    lemma MovedToFront(key: K, j: int, ks: seq<K>, vs: map<K, V>)
      requires Linked() && Mapped() && Values() == vs
      requires Inv(Lru(ks, vs, maxCacheSize)) && 0 <= j < |ks| && ks[j] == key
      requires keys == [key] + RemoveAt(ks, j)
      ensures Valid() && Model() == AfterGet(Lru(ks, vs, maxCacheSize), key)
    {
      WithoutAt(ks, j, key);
      AfterGetInv(Lru(ks, vs, maxCacheSize), key);
    }

    /** Once a key absent from the old keys ks and the old map m, which held the values vs,
        has been mapped to an entry holding value and that entry has gone in front of the
        list, the invariant holds again and the key is admitted. */
    lemma Admitted(key: K, value: V, ks: seq<K>, vs: map<K, V>, m: map<K, CacheNode<K, V>>)
      requires Linked() && Mapped() && key in cacheMap && cacheMap[key].value == value
      requires cacheMap == m[key := cacheMap[key]] && ValuesOf(m) == vs
      requires Inv(Lru(ks, vs, maxCacheSize)) && key !in vs && |vs| < maxCacheSize
      requires keys == [key] + ks
      ensures Valid() && Model() == Admit(Lru(ks, vs, maxCacheSize), key, value)
    {
      assert Model() == Admit(Lru(ks, vs, maxCacheSize), key, value) by {
        assert Values() == vs[key := value];
      }
      AdmitInv(Lru(ks, vs, maxCacheSize), key, value);
    }

    /** Once the last of the old keys ks has been unlinked and unmapped from the old map m,
        which held the values vs, the invariant holds again and the cache is the old one with
        that key evicted. */
    lemma Dropped(ks: seq<K>, vs: map<K, V>, m: map<K, CacheNode<K, V>>)
      requires Linked() && 0 < |ks| && Entries(chain, keys, m) && cacheMap == m - {ks[|ks| - 1]}
      requires ValuesOf(m) == vs && Inv(Lru(ks, vs, maxCacheSize)) && keys == RemoveAt(ks, |ks| - 1)
      ensures Valid() && Model() == Evict(Lru(ks, vs, maxCacheSize))
    {
      assert Mapped() by {
        DistinctRemove(ks, |ks| - 1);
        EntriesDrop(chain, keys, m, ks[|ks| - 1]);
      }
      assert keys == ks[..|ks| - 1] by {
        assert RemoveAt(ks, |ks| - 1) == ks[..|ks| - 1];
      }
      assert Model() == Evict(Lru(ks, vs, maxCacheSize)) by {
        assert Values() == vs - {ks[|ks| - 1]};
      }
      EvictInv(Lru(ks, vs, maxCacheSize));
    }

    /** Links node, already mapped from its key, in right after head. */
    method AddToHead(node: CacheNode<K, V>)
      requires Linked() && Mapped() && node !in chain
      requires node.key in cacheMap && cacheMap[node.key] == node
      modifies node`prev, node`next, head`next, Node(1)`prev, this`chain, this`keys
      ensures Linked() && Mapped()
      ensures chain == old(chain[..1] + [node] + chain[1..]) && keys == [node.key] + old(keys)
      ensures Values() == old(Values()) && forall k :: k in cacheMap ==> cacheMap[k].value == old(cacheMap[k].value)
      ensures forall k {:trigger InOr(chain[k], old(chain), node)} :: 0 <= k < |chain| ==> InOr(chain[k], old(chain), node)
    {
      ghost var c := chain;
      CarriesInsert(c, keys, node);
      EntriesInsert(c, keys, cacheMap, node);
      DistinctInsert(c, 1, node);
      Apart(c, 0);
      Apart(c, 1);
      node.prev := head;
      node.next := head.next;
      head.next.prev := node;
      head.next := node;
      chain := c[..1] + [node] + c[1..];
      keys := [node.key] + keys;
      LinkIn(c, node);
      AdmitFrame(c, chain, node);
      assert forall k :: k in cacheMap ==> cacheMap[k].value == old(cacheMap[k].value);
    }

    /** Unlinks the entry at position i of the list by joining its neighbours to each other. */
    method RemoveNode(node: CacheNode<K, V>, ghost i: nat)
      requires Linked() && Mapped() && 0 < i < |chain| - 1 && node == chain[i]
      modifies Node(i - 1)`next, Node(i + 1)`prev, this`chain, this`keys
      ensures Linked() && Mapped() && node !in chain
      ensures chain == old(RemoveAt(chain, i)) && keys == old(RemoveAt(keys, i - 1))
      ensures Values() == old(Values()) && forall k :: k in cacheMap ==> cacheMap[k].value == old(cacheMap[k].value)
      ensures forall k {:trigger Member(chain[k], old(chain))} :: 0 <= k < |chain| ==> Member(chain[k], old(chain))
    {
      ghost var c := chain;
      CarriesRemove(c, keys, i);
      EntriesRemove(c, keys, cacheMap, i);
      DistinctRemove(c, i);
      Apart(c, i - 1);
      Apart(c, i + 1);
      node.prev.next := node.next;
      node.next.prev := node.prev;
      chain := RemoveAt(c, i);
      keys := keys[..i - 1] + keys[i..];
      Unlink(c, i);
      RemoveFrame(c, chain, i);
      assert forall k :: k in cacheMap ==> cacheMap[k].value == old(cacheMap[k].value);
    }
  }

  /** In distinct nodes, the one at position i is none of the others. */
  lemma Apart<T>(c: seq<T>, i: nat)
    requires Distinct(c) && i < |c|
    ensures forall k :: 0 <= k < |c| && k != i ==> c[k] != c[i]
  {
    DistinctPairwise(c);
  }

  /** Every item left after taking out position i was an item before. */
  lemma RemoveWithin<T>(s: seq<T>, i: nat)
    requires i < |s|
    ensures Within(RemoveAt(s, i), s)
  {
    forall k | 0 <= k < |RemoveAt(s, i)|
      ensures RemoveAt(s, i)[k] in s
    {
      if k < i {
        assert RemoveAt(s, i)[k] == s[k];
      } else {
        assert RemoveAt(s, i)[k] == s[k + 1];
      }
    }
  }

  /** Every item after putting x in second place is an item before, or x. */
  lemma InsertWithin<T>(s: seq<T>, x: T)
    requires |s| >= 1
    ensures Within(s[..1] + [x] + s[1..], s + [x])
  {
    var t := s[..1] + [x] + s[1..];
    forall k | 0 <= k < |t|
      ensures t[k] in s + [x]
    {
      if k == 0 {
        assert t[k] == s[0];
      } else if k == 1 {
        assert t[k] == (s + [x])[|s|];
      } else {
        assert t[k] == s[k - 1];
      }
    }
  }

  /** y is an item of s or is x. */
  ghost predicate InOr<T>(y: T, s: seq<T>, x: T)
  {
    y in s || y == x
  }

  /** Putting x in second place of s leaves items of s, or x. */
  lemma AdmitFrame<T>(s: seq<T>, a: seq<T>, x: T)
    requires |s| >= 1 && a == s[..1] + [x] + s[1..]
    ensures forall k {:trigger InOr(a[k], s, x)} :: 0 <= k < |a| ==> InOr(a[k], s, x)
  {
    InsertWithin(s, x);
    WithinSplit(a, s, x);
  }

  /** y is an item of s. */
  ghost predicate Member<T>(y: T, s: seq<T>)
  {
    y in s
  }

  /** Taking out position i of s leaves items of s. */
  lemma RemoveFrame<T>(s: seq<T>, a: seq<T>, i: nat)
    requires i < |s| && a == RemoveAt(s, i)
    ensures forall k {:trigger Member(a[k], s)} :: 0 <= k < |a| ==> Member(a[k], s)
  {
    RemoveWithin(s, i);
  }

  /** An item of s + [x] is an item of s or x itself. */
  lemma WithinSplit<T>(a: seq<T>, s: seq<T>, x: T)
    requires Within(a, s + [x])
    ensures forall k :: 0 <= k < |a| ==> a[k] in s || a[k] == x
  {
    forall k | 0 <= k < |a|
      ensures a[k] in s || a[k] == x
    {
      var j :| 0 <= j < |s + [x]| && (s + [x])[j] == a[k];
      if j < |s| {
        assert s[j] == a[k];
      }
    }
  }

  /** Taking the entry at position i out of the list takes its key out of the keys. */
  lemma CarriesRemove<K(0), V(0)>(c: seq<CacheNode<K, V>>, keys: seq<K>, i: nat)
    requires Carries(c, keys) && 0 < i < |c| - 1
    ensures Carries(RemoveAt(c, i), RemoveAt(keys, i - 1))
  {
    var c' := RemoveAt(c, i);
    var keys' := keys[..i - 1] + keys[i..];
    forall j | 0 <= j < |keys'|
      ensures c'[j + 1].key == keys'[j]
    {
      if j + 1 < i {
        assert c'[j + 1] == c[j + 1] && keys'[j] == keys[j];
      } else {
        assert c'[j + 1] == c[j + 2] && keys'[j] == keys[j + 1];
      }
    }
  }

  /** A new first entry puts its key in front of the keys. */
  lemma CarriesInsert<K(0), V(0)>(c: seq<CacheNode<K, V>>, keys: seq<K>, node: CacheNode<K, V>)
    requires Carries(c, keys)
    ensures Carries(c[..1] + [node] + c[1..], [node.key] + keys)
  {
    var c' := c[..1] + [node] + c[1..];
    var keys' := [node.key] + keys;
    forall j | 0 <= j < |keys'|
      ensures c'[j + 1].key == keys'[j]
    {
      if j > 0 {
        assert c'[j + 1] == c[j] && keys'[j] == keys[j - 1];
      }
    }
  }

  /** Once node sits between c[0] and c[1] and the links of c away from c[0] and c[1] hold,
      c with node in second place is linked. */
  lemma LinkIn<K(0), V(0)>(c: seq<CacheNode<K, V>>, node: CacheNode<K, V>)
    requires |c| >= 2
    requires c[0].next == node && node.prev == c[0] && node.next == c[1] && c[1].prev == node
    requires forall k {:trigger c[k].next} :: 1 <= k < |c| - 1 ==> c[k].next == c[k + 1]
    requires forall k {:trigger c[k].prev} :: 2 <= k < |c| ==> c[k].prev == c[k - 1]
    ensures Links(c[..1] + [node] + c[1..])
  {
    var c' := c[..1] + [node] + c[1..];
    forall k | 0 <= k < |c'| - 1
      ensures c'[k].next == c'[k + 1] && c'[k + 1].prev == c'[k]
    {
      if k >= 2 {
        assert c'[k] == c[k - 1] && c'[k + 1] == c[k];
      }
    }
  }

  /** Once the neighbours of c[i] point at each other and the other links of c hold, c
      without c[i] is linked. */
  lemma Unlink<K(0), V(0)>(c: seq<CacheNode<K, V>>, i: nat)
    requires 0 < i < |c| - 1
    requires c[i - 1].next == c[i + 1] && c[i + 1].prev == c[i - 1]
    requires forall k {:trigger c[k].next} :: 0 <= k < |c| - 1 && k != i - 1 && k != i ==> c[k].next == c[k + 1]
    requires forall k {:trigger c[k].prev} :: 0 < k < |c| && k != i + 1 && k != i ==> c[k].prev == c[k - 1]
    ensures Links(RemoveAt(c, i))
  {
    var c' := RemoveAt(c, i);
    forall k | 0 <= k < |c'| - 1
      ensures c'[k].next == c'[k + 1] && c'[k + 1].prev == c'[k]
    {
      if k < i - 1 {
        assert c'[k] == c[k] && c'[k + 1] == c[k + 1];
      } else if k == i - 1 {
        assert c'[k] == c[i - 1] && c'[k + 1] == c[i + 1];
      } else {
        assert c'[k] == c[k + 1] && c'[k + 1] == c[k + 2];
      }
    }
  }

  /** Taking the entry at position i out of the list keeps the other entries mapped. */
  lemma EntriesRemove<K(0), V(0)>(c: seq<CacheNode<K, V>>, keys: seq<K>, m: map<K, CacheNode<K, V>>, i: nat)
    requires Entries(c, keys, m) && 0 < i < |c| - 1
    ensures Entries(RemoveAt(c, i), RemoveAt(keys, i - 1), m)
  {
    var c' := RemoveAt(c, i);
    var keys' := RemoveAt(keys, i - 1);
    forall j | 0 <= j < |keys'|
      ensures keys'[j] in m && m[keys'[j]] == c'[j + 1]
    {
      if j + 1 < i {
        assert c'[j + 1] == c[j + 1] && keys'[j] == keys[j];
      } else {
        assert c'[j + 1] == c[j + 2] && keys'[j] == keys[j + 1];
      }
    }
  }

  /** A new first entry, mapped by m from its key, keeps the entries mapped. */
  lemma EntriesInsert<K(0), V(0)>(c: seq<CacheNode<K, V>>, keys: seq<K>, m: map<K, CacheNode<K, V>>,
                                  node: CacheNode<K, V>)
    requires Entries(c, keys, m) && node.key in m && m[node.key] == node
    ensures Entries(c[..1] + [node] + c[1..], [node.key] + keys, m)
  {
    var c' := c[..1] + [node] + c[1..];
    var keys' := [node.key] + keys;
    forall j | 0 <= j < |keys'|
      ensures keys'[j] in m && m[keys'[j]] == c'[j + 1]
    {
      if j > 0 {
        assert c'[j + 1] == c[j] && keys'[j] == keys[j - 1];
      }
    }
  }

  /** Unmapping a key that no entry carries keeps the entries mapped. */
  lemma EntriesDrop<K(0), V(0)>(c: seq<CacheNode<K, V>>, keys: seq<K>, m: map<K, CacheNode<K, V>>, k: K)
    requires Entries(c, keys, m) && k !in keys
    ensures Entries(c, keys, m - {k})
  {
  }

  /** Mapping a key that no entry carries to a new node keeps the entries mapped. */
  lemma EntriesPut<K(0), V(0)>(c: seq<CacheNode<K, V>>, keys: seq<K>, m: map<K, CacheNode<K, V>>,
                               k: K, node: CacheNode<K, V>)
    requires Entries(c, keys, m) && k !in keys
    ensures Entries(c, keys, m[k := node])
  {
  }

  /** Two calls in a row on the same cache: a value just stored is found by the next get. */
  method PutThenGet<K(==, 0), V(0)>(cache: LRUCache<K, V>, key: K, value: V) returns (r: Option<V>)
    requires cache.Valid()
    modifies cache, cache.chain
    ensures cache.Valid() && r == Some(value)
    ensures cache.Model() == AfterGet(AfterPut(old(cache.Model()), key, value), key)
  {
    PutGet(cache.Model(), key, value);
    cache.Put(key, value);
    r := cache.Get(key);
  }
}
