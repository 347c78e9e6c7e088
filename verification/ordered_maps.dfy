/**
 * A JavaScript `Map` as a sequence of (key, value) entries in insertion order.
 * `Put` is `Map.prototype.set` (an existing key keeps its position, a new key goes last),
 * `Remove` is `Map.prototype.delete`, `Get` is `Map.prototype.get`.
 */
module OrderedMaps {
  import opened Optional

  /** The keys of `m`, in insertion order. */
  function Keys<K, V>(m: seq<(K, V)>): (ks: seq<K>)
    ensures |ks| == |m|
    ensures forall i :: 0 <= i < |m| ==> ks[i] == m[i].0
  {
    if m == [] then [] else [m[0].0] + Keys(m[1..])
  }

  /** No element occurs twice. */
  predicate Distinct<K(==)>(ks: seq<K>) {
    ks == [] || (ks[0] !in ks[1..] && Distinct(ks[1..]))
  }

  /** No key occurs twice, which every `Map` guarantees. */
  predicate UniqueKeys<K(==), V>(m: seq<(K, V)>) {
    Distinct(Keys(m))
  }

  /** `ks` with every occurrence of `k` taken out, the rest in order. */
  function Without<K(==,!new)>(ks: seq<K>, k: K): (r: seq<K>)
    ensures forall x :: x in r <==> x in ks && x != k
    ensures k in ks ==> |r| < |ks|
    ensures k !in ks ==> r == ks
  {
    if ks == [] then []
    else if ks[0] == k then Without(ks[1..], k)
    else
      assert ks == [ks[0]] + ks[1..];
      [ks[0]] + Without(ks[1..], k)
  }

  /** The value stored under `k`: the first entry with that key. */
  function Get<K(==), V>(m: seq<(K, V)>, k: K): (r: Option<V>)
    ensures r.Some? <==> k in Keys(m)
  {
    if m == [] then None
    else if m[0].0 == k then Some(m[0].1)
    else Get(m[1..], k)
  }

  /** The position of key `k`, or -1 when it is absent. */
  function IndexOf<K(==), V>(m: seq<(K, V)>, k: K): (i: int)
    ensures -1 <= i < |m|
    ensures i == -1 <==> k !in Keys(m)
    ensures 0 <= i ==> m[i].0 == k && Get(m, k) == Some(m[i].1)
    ensures 0 <= i ==> forall j :: 0 <= j < i ==> m[j].0 != k
  {
    if m == [] then -1
    else if m[0].0 == k then 0
    else
      var j := IndexOf(m[1..], k);
      assert Keys(m) == [m[0].0] + Keys(m[1..]);
      if j == -1 then -1
      else
        assert forall t :: 1 <= t <= j + 1 ==> m[t] == m[1..][t - 1];
        j + 1
  }

  /** `Map.prototype.set`: overwrite the entry of `k` in place, or append a new one. */
  function Put<K(==,!new), V>(m: seq<(K, V)>, k: K, v: V): (r: seq<(K, V)>)
    ensures Keys(r) == if k in Keys(m) then Keys(m) else Keys(m) + [k]
    ensures Get(r, k) == Some(v)
    ensures forall x :: x != k ==> Get(r, x) == Get(m, x)
  {
    if m == [] then [(k, v)]
    else if m[0].0 == k then [(k, v)] + m[1..]
    else
      var t := Put(m[1..], k, v);
      var r := [m[0]] + t;
      assert r[1..] == t;
      r
  }

  /** `Map.prototype.delete`: drop the entry of `k`, keeping the order of the others. */
  function Remove<K(==,!new), V>(m: seq<(K, V)>, k: K): (r: seq<(K, V)>)
    ensures Keys(r) == Without(Keys(m), k)
    ensures Get(r, k) == None
    ensures forall x :: x != k ==> Get(r, x) == Get(m, x)
  {
    if m == [] then []
    else if m[0].0 == k then Remove(m[1..], k)
    else
      var t := Remove(m[1..], k);
      var r := [m[0]] + t;
      assert r[1..] == t;
      r
  }

  /** Appending an element that is not yet present keeps a sequence duplicate-free. */
  lemma {:induction false} DistinctAppend<K>(ks: seq<K>, k: K)
    requires Distinct(ks) && k !in ks
    ensures Distinct(ks + [k])
  {
    if ks != [] {
      assert (ks + [k])[1..] == ks[1..] + [k];
      DistinctAppend(ks[1..], k);
    }
  }

  /** Taking elements out keeps a sequence duplicate-free. */
  lemma {:induction false} DistinctWithout<K(!new)>(ks: seq<K>, k: K)
    requires Distinct(ks)
    ensures Distinct(Without(ks, k))
  {
    if ks != [] {
      DistinctWithout(ks[1..], k);
      if ks[0] != k {
        var r := Without(ks, k);
        assert r[1..] == Without(ks[1..], k);
      }
    }
  }

  /** `Put` keeps the keys of a `Map` unique. */
  lemma PutUnique<K(!new), V>(m: seq<(K, V)>, k: K, v: V)
    requires UniqueKeys(m)
    ensures UniqueKeys(Put(m, k, v))
  {
    if k !in Keys(m) {
      DistinctAppend(Keys(m), k);
    }
  }

  /** `Remove` keeps the keys of a `Map` unique. */
  lemma RemoveUnique<K(!new), V>(m: seq<(K, V)>, k: K)
    requires UniqueKeys(m)
    ensures UniqueKeys(Remove(m, k))
  {
    DistinctWithout(Keys(m), k);
  }

  /** With unique keys, `Put` on a present key is an update at its position. */
  lemma {:induction false} PutAt<K(!new), V>(m: seq<(K, V)>, k: K, v: V)
    requires UniqueKeys(m) && k in Keys(m)
    ensures Put(m, k, v) == m[IndexOf(m, k) := (k, v)]
  {
    if m[0].0 != k {
      var t := m[1..];
      assert Keys(m)[1..] == Keys(t);
      PutAt(t, k, v);
      var j := IndexOf(t, k);
      assert IndexOf(m, k) == j + 1;
      assert Put(m, k, v) == [m[0]] + t[j := (k, v)];
      ConsUpdate(m, j + 1, (k, v));
    } else {
      assert Put(m, k, v) == [(k, v)] + m[1..];
      ConsUpdate(m, 0, (k, v));
    }
  }

  /** Updating position `i` of a sequence, seen from its tail. */
  lemma ConsUpdate<T>(m: seq<T>, i: nat, x: T)
    requires i < |m|
    ensures i == 0 ==> [x] + m[1..] == m[i := x]
    ensures i > 0 ==> [m[0]] + m[1..][i - 1 := x] == m[i := x]
  {
  }

  /** `Put` on an absent key appends. */
  lemma {:induction false} PutNew<K(!new), V>(m: seq<(K, V)>, k: K, v: V)
    requires k !in Keys(m)
    ensures Put(m, k, v) == m + [(k, v)]
  {
    if m != [] {
      assert Keys(m)[1..] == Keys(m[1..]);
      assert (m + [(k, v)])[1..] == m[1..] + [(k, v)];
      PutNew(m[1..], k, v);
    }
  }

  /** With unique keys, the entry at position `i` is the one `Get` finds for its key. */
  lemma {:induction false} GetAt<K, V>(m: seq<(K, V)>, i: nat)
    requires UniqueKeys(m) && i < |m|
    ensures Get(m, m[i].0) == Some(m[i].1)
  {
    if i > 0 {
      assert Keys(m)[1..] == Keys(m[1..]);
      assert m[i].0 == Keys(m)[1..][i - 1];
      GetAt(m[1..], i - 1);
    }
  }

  /** `Remove` of an absent key changes nothing. */
  lemma {:induction false} RemoveAbsent<K(!new), V>(m: seq<(K, V)>, k: K)
    requires k !in Keys(m)
    ensures Remove(m, k) == m
  {
    if m != [] {
      assert Keys(m)[1..] == Keys(m[1..]);
      RemoveAbsent(m[1..], k);
    }
  }

  /** The keys after the first entry are the keys of the tail. */
  lemma KeysTail<K, V>(m: seq<(K, V)>)
    requires m != []
    ensures Keys(m) == [m[0].0] + Keys(m[1..])
  {
  }

  /** `Remove` of the first key drops the first entry. */
  lemma RemoveHead<K(!new), V>(m: seq<(K, V)>)
    requires UniqueKeys(m) && m != []
    ensures Remove(m, m[0].0) == m[1..]
  {
    KeysTail(m);
    RemoveAbsent(m[1..], m[0].0);
  }

  /** With unique keys, `Remove` cuts out exactly the entry of `k`. */
  lemma {:induction false} RemoveAt<K(!new), V>(m: seq<(K, V)>, i: nat)
    requires UniqueKeys(m) && i < |m|
    ensures Remove(m, m[i].0) == m[..i] + m[i + 1..]
  {
    if i == 0 {
      RemoveHead(m);
    } else {
      var t := m[1..];
      KeysTail(m);
      assert Keys(m)[i] == m[i].0;
      assert m[0].0 != m[i].0;
      assert Remove(m, m[i].0) == [m[0]] + Remove(t, m[i].0);
      assert t[i - 1] == m[i];
      RemoveAt(t, i - 1);
      SpliceCons(m, i);
    }
  }

  /** Concatenation is associative. */
  lemma AppendAssoc<T>(x: seq<T>, y: seq<T>, z: seq<T>)
    ensures (x + y) + z == x + (y + z)
  {
  }

  /** A sequence is what comes before position `i`, the element there, and what follows. */
  lemma SplitAt<T>(m: seq<T>, i: nat)
    requires i < |m|
    ensures m == m[..i] + ([m[i]] + m[i + 1..])
  {
  }

  /** The first `i + 1` elements are the first `i` and the one at position `i`. */
  lemma TakeNext<T>(m: seq<T>, i: nat)
    requires i < |m|
    ensures m[..i + 1] == m[..i] + [m[i]]
  {
  }

  /** What surrounds a middle part of zero or one element. */
  lemma Middle<T>(a: seq<T>, b: seq<T>, x: T)
    ensures a + [] + b == a + b
    ensures (a + [x] + b)[|a|] == x
  {
  }

  /** Cutting position `i` out of a sequence, seen from its tail. */
  lemma SpliceCons<T>(m: seq<T>, i: nat)
    requires 0 < i < |m|
    ensures [m[0]] + (m[1..][..i - 1] + m[1..][i..]) == m[..i] + m[i + 1..]
  {
    assert m[..i] == [m[0]] + m[1..][..i - 1];
    assert m[1..][i..] == m[i + 1..];
  }

  /** In a duplicate-free sequence, different positions hold different elements. */
  lemma {:induction false} DistinctIndex<K>(ks: seq<K>, i: nat, j: nat)
    requires Distinct(ks) && i < |ks| && j < |ks| && i != j
    ensures ks[i] != ks[j]
  {
    if i != 0 && j != 0 {
      DistinctIndex(ks[1..], i - 1, j - 1);
    } else if i == 0 {
      InTail(ks, j);
    } else {
      InTail(ks, i);
    }
  }

  /** An element after the first is in the tail. */
  lemma InTail<K>(ks: seq<K>, k: nat)
    requires 0 < k < |ks|
    ensures ks[k] in ks[1..]
  {
    assert ks[k] == ks[1..][k - 1];
  }

  /** The same, for all positions at once. */
  lemma DistinctAll<K>(ks: seq<K>)
    requires Distinct(ks)
    ensures forall i, j :: 0 <= i < |ks| && 0 <= j < |ks| && i != j ==> ks[i] != ks[j]
  {
    forall i, j | 0 <= i < |ks| && 0 <= j < |ks| && i != j ensures ks[i] != ks[j] {
      DistinctIndex(ks, i, j);
    }
  }

  /** Dropping the last element keeps a sequence duplicate-free, and that element is new to it. */
  lemma DistinctInit<K>(ks: seq<K>)
    requires Distinct(ks) && ks != []
    ensures Distinct(ks[..|ks| - 1]) && ks[|ks| - 1] !in ks[..|ks| - 1]
  {
    DistinctAll(ks);
    DistinctByIndex(ks[..|ks| - 1]);
  }

  /** A sequence whose different positions hold different elements is duplicate-free. */
  lemma {:induction false} DistinctByIndex<K>(ks: seq<K>)
    requires forall i, j :: 0 <= i < |ks| && 0 <= j < |ks| && i != j ==> ks[i] != ks[j]
    ensures Distinct(ks)
  {
    if ks != [] {
      DistinctByIndex(ks[1..]);
    }
  }

  /** The keys of all entries but the last are the keys but the last. */
  lemma KeysInit<K, V>(m: seq<(K, V)>)
    requires m != []
    ensures Keys(m[..|m| - 1]) == Keys(m)[..|m| - 1]
  {
  }

  /** Dropping the last entry keeps the keys unique, and its key is new to the rest. */
  lemma UniqueInit<K, V>(m: seq<(K, V)>)
    requires UniqueKeys(m) && m != []
    ensures UniqueKeys(m[..|m| - 1]) && m[|m| - 1].0 !in Keys(m[..|m| - 1])
  {
    KeysInit(m);
    DistinctInit(Keys(m));
  }

  /** Appending an entry with a new key keeps the keys unique. */
  lemma AppendNewKey<K, V>(m: seq<(K, V)>, e: (K, V))
    requires UniqueKeys(m) && e.0 !in Keys(m)
    ensures UniqueKeys(m + [e]) && Keys(m + [e]) == Keys(m) + [e.0]
  {
    assert Keys(m + [e]) == Keys(m) + [e.0];
    DistinctAppend(Keys(m), e.0);
  }

  /** Every entry after `Put` was there before or is the new one. */
  lemma {:induction false} PutMembers<K(!new), V>(m: seq<(K, V)>, k: K, v: V)
    ensures forall e :: e in Put(m, k, v) ==> e in m || e == (k, v)
  {
    if m != [] && m[0].0 != k {
      PutMembers(m[1..], k, v);
      assert forall e :: e in m[1..] ==> e in m;
    }
  }

  /** The value `Get` finds is stored in an entry with its key. */
  lemma {:induction false} GetIn<K, V>(m: seq<(K, V)>, k: K)
    requires k in Keys(m)
    ensures (k, Get(m, k).value) in m
  {
    if m[0].0 != k {
      GetIn(m[1..], k);
    }
  }
}
