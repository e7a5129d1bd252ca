/**
 The JavaScript Map: pairs in the order their keys were first set. Setting a key that is present
 keeps its place; setting one again after a deletion puts it last.
 */
module OrderedMaps {
  import opened Options

  type OrderedMap<K, V> = seq<(K, V)>

  function Get<K(==), V>(m: OrderedMap<K, V>, k: K): Option<V> {
    if m == [] then None else if m[0].0 == k then Some(m[0].1) else Get(m[1..], k)
  }

  function Set<K(==), V>(m: OrderedMap<K, V>, k: K, v: V): OrderedMap<K, V> {
    if m == [] then [(k, v)] else if m[0].0 == k then [(k, v)] + m[1..] else [m[0]] + Set(m[1..], k, v)
  }

  function Delete<K(==), V>(m: OrderedMap<K, V>, k: K): OrderedMap<K, V> {
    if m == [] then [] else if m[0].0 == k then m[1..] else [m[0]] + Delete(m[1..], k)
  }

  ghost predicate UniqueKeys<K, V>(m: OrderedMap<K, V>) {
    forall i, j :: 0 <= i < j < |m| ==> m[i].0 != m[j].0
  }

  lemma {:induction false} GetHolds<K, V>(m: OrderedMap<K, V>, k: K)
    ensures Get(m, k).None? <==> forall p :: p in m ==> p.0 != k
    ensures Get(m, k).Some? ==> (k, Get(m, k).value) in m
  {
    if m != [] && m[0].0 != k {
      GetHolds(m[1..], k);
    }
  }

  /** With unique keys a key is bound to one value. */
  lemma {:induction false} GetAt<K, V>(m: OrderedMap<K, V>, i: nat)
    requires UniqueKeys(m) && i < |m|
    ensures Get(m, m[i].0) == Some(m[i].1)
  {
    if i > 0 {
      GetAt(m[1..], i - 1);
    }
  }

  lemma {:induction false} GetAfterSet<K, V>(m: OrderedMap<K, V>, k: K, v: V, q: K)
    ensures Get(Set(m, k, v), q) == if q == k then Some(v) else Get(m, q)
  {
    if m != [] && m[0].0 != k {
      GetAfterSet(m[1..], k, v, q);
    }
  }

  lemma {:induction false} GetAfterDelete<K, V>(m: OrderedMap<K, V>, k: K, q: K)
    requires UniqueKeys(m)
    ensures Get(Delete(m, k), q) == if q == k then None else Get(m, q)
  {
    if m != [] {
      if m[0].0 != k {
        GetAfterDelete(m[1..], k, q);
      } else {
        GetHolds(m[1..], k);
      }
    }
  }

  lemma {:induction false} SetElements<K, V>(m: OrderedMap<K, V>, k: K, v: V, p: (K, V))
    requires p in Set(m, k, v)
    ensures p == (k, v) || (p in m && p.0 != k) || (p in m && !UniqueKeys(m))
  {
    if m != [] {
      if m[0].0 != k && p != m[0] {
        SetElements(m[1..], k, v, p);
      } else if m[0].0 == k && p != (k, v) {
        var i :| 0 <= i < |m[1..]| && m[1..][i] == p;
        assert m[i + 1] == p;
      }
    }
  }

  lemma {:induction false} SetKeepsUnique<K, V>(m: OrderedMap<K, V>, k: K, v: V)
    requires UniqueKeys(m)
    ensures UniqueKeys(Set(m, k, v))
  {
    if m != [] && m[0].0 != k {
      var rest := Set(m[1..], k, v);
      SetKeepsUnique(m[1..], k, v);
      forall i | 0 <= i < |rest| ensures rest[i].0 != m[0].0 {
        SetElements(m[1..], k, v, rest[i]);
      }
    }
  }

  lemma {:induction false} DeleteElements<K, V>(m: OrderedMap<K, V>, k: K, p: (K, V))
    requires UniqueKeys(m)
    ensures p in Delete(m, k) <==> p in m && p.0 != k
  {
    if m != [] {
      if m[0].0 == k {
        assert p in m <==> p == m[0] || p in m[1..];
      } else {
        DeleteElements(m[1..], k, p);
      }
    }
  }

  lemma {:induction false} DeleteKeepsUnique<K, V>(m: OrderedMap<K, V>, k: K)
    requires UniqueKeys(m)
    ensures UniqueKeys(Delete(m, k))
  {
    if m != [] && m[0].0 != k {
      var rest := Delete(m[1..], k);
      DeleteKeepsUnique(m[1..], k);
      forall i | 0 <= i < |rest| ensures rest[i].0 != m[0].0 {
        DeleteElements(m[1..], k, rest[i]);
      }
    }
  }

  /** A key that was absent goes to the end, and deleting it restores the map. */
  lemma {:induction false} DeleteUndoesSet<K, V>(m: OrderedMap<K, V>, k: K, v: V)
    requires Get(m, k).None?
    ensures Set(m, k, v) == m + [(k, v)]
    ensures Delete(Set(m, k, v), k) == m
  {
    if m != [] {
      DeleteUndoesSet(m[1..], k, v);
    }
  }

  /** The second of two writes to a key wins, in the place of the first. */
  lemma {:induction false} SetTwice<K, V>(m: OrderedMap<K, V>, k: K, v: V, w: V)
    ensures Set(Set(m, k, v), k, w) == Set(m, k, w)
  {
    if m != [] && m[0].0 != k {
      SetTwice(m[1..], k, v, w);
    }
  }

  lemma {:induction false} SetSame<K, V>(m: OrderedMap<K, V>, k: K, v: V)
    requires Get(m, k) == Some(v)
    ensures Set(m, k, v) == m
  {
    if m[0].0 != k {
      SetSame(m[1..], k, v);
    }
  }

  /** Writing through an iterator at position i. */
  lemma {:induction false} SetAt<K, V>(m: OrderedMap<K, V>, i: nat, v: V)
    requires UniqueKeys(m) && i < |m|
    ensures Set(m, m[i].0, v) == m[i := (m[i].0, v)]
  {
    if i > 0 {
      var rest := m[1..];
      SetAt(rest, i - 1, v);
      assert Set(m, m[i].0, v) == [m[0]] + Set(rest, rest[i - 1].0, v);
      assert m[i := (m[i].0, v)] == [m[0]] + rest[i - 1 := (m[i].0, v)];
    }
  }

  lemma {:induction false} DeleteAt<K, V>(m: OrderedMap<K, V>, i: nat)
    requires UniqueKeys(m) && i < |m|
    ensures Delete(m, m[i].0) == m[..i] + m[i + 1..]
  {
    if i > 0 {
      var rest := m[1..];
      DeleteAt(rest, i - 1);
      assert Delete(m, m[i].0) == [m[0]] + Delete(rest, rest[i - 1].0);
      assert m[..i] + m[i + 1..] == [m[0]] + (rest[..i - 1] + rest[i..]);
    }
  }
}
