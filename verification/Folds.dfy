/**
 Order-free folds over maps. Go iterates a map in an unspecified order, so every loop
 over a map is specified by one of these, and each lemma says that the order is immaterial.
 */
module Folds {

  ghost function Pick<K>(s: set<K>): (k: K)
    requires s != {}
    ensures k in s
  {
    var k :| k in s; k
  }

  /** The multiset of `f(v)` over all entries. */
  ghost function Bag<K, V, T>(m: map<K, V>, f: V -> T): (b: multiset<T>)
    ensures |b| == |m|
    decreases m.Keys
  {
    if m.Keys == {} then multiset{}
    else
      var k := Pick(m.Keys);
      assert (m - {k}).Keys == m.Keys - {k};
      Bag(m - {k}, f) + multiset{f(m[k])}
  }

  /** The sum of `f(v)` over all entries. */
  ghost function Sum<K, V>(m: map<K, V>, f: V -> int): int
    decreases m.Keys
  {
    if m.Keys == {} then 0
    else
      var k := Pick(m.Keys);
      assert (m - {k}).Keys == m.Keys - {k};
      Sum(m - {k}, f) + f(m[k])
  }

  lemma {:induction false} BagRemove<K, V, T>(m: map<K, V>, f: V -> T, k: K)
    requires k in m
    ensures Bag(m, f) == Bag(m - {k}, f) + multiset{f(m[k])}
    decreases m.Keys
  {
    var p := Pick(m.Keys);
    if p != k {
      var less := m - {p} - {k};
      assert (m - {p}).Keys == m.Keys - {p} && (m - {k}).Keys == m.Keys - {k};
      assert less == m - {k} - {p};
      assert Bag(m - {p}, f) == Bag(less, f) + multiset{f(m[k])} by { BagRemove(m - {p}, f, k); }
      assert Bag(m - {k}, f) == Bag(less, f) + multiset{f(m[p])} by { BagRemove(m - {k}, f, p); }
      BagCommutes(Bag(less, f), f(m[k]), f(m[p]));
    }
  }

  lemma BagCommutes<T>(b: multiset<T>, x: T, y: T)
    ensures b + multiset{x} + multiset{y} == b + multiset{y} + multiset{x}
  {
  }

  lemma {:induction false} SumRemove<K, V>(m: map<K, V>, f: V -> int, k: K)
    requires k in m
    ensures Sum(m, f) == Sum(m - {k}, f) + f(m[k])
    decreases m.Keys
  {
    var p := Pick(m.Keys);
    if p != k {
      assert (m - {p}).Keys == m.Keys - {p} && (m - {k}).Keys == m.Keys - {k};
      SumRemove(m - {p}, f, k);
      SumRemove(m - {k}, f, p);
      assert m - {p} - {k} == m - {k} - {p};
    }
  }

  lemma SumInsert<K, V>(m: map<K, V>, f: V -> int, k: K, v: V)
    requires k !in m
    ensures Sum(m[k := v], f) == Sum(m, f) + f(v)
  {
    SumRemove(m[k := v], f, k);
    assert m[k := v] - {k} == m;
  }

  function Size<I, V>(p: map<I, V>): int { |p| }

  /** `parts` groups exactly the entries of `whole` by `key`. */
  ghost predicate Partitions<K, I, V>(parts: map<K, map<I, V>>, whole: map<I, V>, key: V -> K) {
    && (forall i :: i in whole ==>
          key(whole[i]) in parts && i in parts[key(whole[i])] && parts[key(whole[i])][i] == whole[i])
    && (forall k, i :: k in parts && i in parts[k] ==>
          i in whole && parts[k][i] == whole[i] && key(whole[i]) == k)
  }

  lemma PartitionRest<K, I, V>(parts: map<K, map<I, V>>, whole: map<I, V>, key: V -> K, k: K)
    requires Partitions(parts, whole, key) && k in parts
    ensures parts[k].Keys <= whole.Keys
    ensures Partitions(parts - {k}, whole - parts[k].Keys, key)
  {
    var rest := whole - parts[k].Keys;
    forall i | i in rest
      ensures key(rest[i]) in parts - {k} && i in parts[key(rest[i])] && parts[key(rest[i])][i] == rest[i]
    {
      assert i in whole && i !in parts[k];
    }
  }

  /** Grouping loses nothing and counts nothing twice. */
  lemma {:induction false} PartitionSize<K, I, V>(parts: map<K, map<I, V>>, whole: map<I, V>, key: V -> K)
    requires Partitions(parts, whole, key)
    ensures Sum(parts, Size) == |whole|
    decreases parts.Keys
  {
    if parts.Keys == {} {
      assert whole.Keys == {};
    } else {
      var k := Pick(parts.Keys);
      var here := parts[k].Keys;
      assert (parts - {k}).Keys == parts.Keys - {k};
      PartitionRest(parts, whole, key, k);
      PartitionSize(parts - {k}, whole - here, key);
      assert (whole - here).Keys == whole.Keys - here;
    }
  }

  /** Filing one more entry, or replacing one in its own group, keeps the grouping. */
  lemma PartitionPut<K, I, V>(parts: map<K, map<I, V>>, whole: map<I, V>, key: V -> K, i: I, v: V)
    requires Partitions(parts, whole, key)
    requires i in whole ==> key(whole[i]) == key(v)
    ensures var group := if key(v) in parts then parts[key(v)] else map[];
            Partitions(parts[key(v) := group[i := v]], whole[i := v], key)
  {
    var k := key(v);
    var group := if k in parts then parts[k] else map[];
    var parts', whole' := parts[k := group[i := v]], whole[i := v];
    forall j | j in whole'
      ensures key(whole'[j]) in parts' && j in parts'[key(whole'[j])] && parts'[key(whole'[j])][j] == whole'[j]
    {
      if j != i { assert j in whole; }
    }
    forall g, j | g in parts' && j in parts'[g]
      ensures j in whole' && parts'[g][j] == whole'[j] && key(whole'[j]) == g
    {
      if g != k || j != i { assert g in parts && j in parts[g]; }
    }
  }

  /** Removing an entry from its own group keeps the grouping. */
  lemma PartitionDrop<K, I, V>(parts: map<K, map<I, V>>, whole: map<I, V>, key: V -> K, i: I, k: K)
    requires Partitions(parts, whole, key)
    requires i in whole ==> key(whole[i]) == k
    ensures Partitions(if k in parts then parts[k := parts[k] - {i}] else parts, whole - {i}, key)
  {
    var parts', whole' := if k in parts then parts[k := parts[k] - {i}] else parts, whole - {i};
    forall j | j in whole'
      ensures key(whole'[j]) in parts' && j in parts'[key(whole'[j])] && parts'[key(whole'[j])][j] == whole'[j]
    {
      assert j in whole;
    }
    forall g, j | g in parts' && j in parts'[g]
      ensures j in whole' && parts'[g][j] == whole'[j] && key(whole'[j]) == g
    {
      assert g in parts && j in parts[g];
    }
  }
}
