/**
 Grouping into a Map of arrays: each element is pushed to the bucket of its key, which is created
 when the key is first seen.
 */
module Buckets {
  import opened Options
  import opened OrderedMaps
  import opened Sums

  type Groups<K, T> = OrderedMap<K, seq<T>>

  /** The bucket of k, empty when there is none. */
  function Bucket<K(==), T>(groups: Groups<K, T>, k: K): seq<T> {
    var found := Get(groups, k);
    if found.Some? then found.value else []
  }

  function Put<K(==), T>(groups: Groups<K, T>, k: K, x: T): Groups<K, T> {
    Set(groups, k, Bucket(groups, k) + [x])
  }

  function GroupBy<K(==), T>(s: seq<T>, key: T -> K): Groups<K, T> {
    if s == [] then [] else Put(GroupBy(s[..|s| - 1], key), key(s[|s| - 1]), s[|s| - 1])
  }

  /** The elements of s with key k, in their order. */
  function WithKey<K(==), T>(s: seq<T>, key: T -> K, k: K): seq<T> {
    if s == [] then []
    else WithKey(s[..|s| - 1], key, k) + if key(s[|s| - 1]) == k then [s[|s| - 1]] else []
  }

  ghost predicate NoneEmpty<K, T>(groups: Groups<K, T>) {
    forall i :: 0 <= i < |groups| ==> groups[i].1 != []
  }

  function Total<K, T>(groups: Groups<K, T>, f: T -> real): real {
    if groups == [] then 0.0 else Sum(groups[0].1, f) + Total(groups[1..], f)
  }

  lemma {:induction false} PutFillsBuckets<K, T>(groups: Groups<K, T>, k: K, b: seq<T>)
    requires NoneEmpty(groups) && b != []
    ensures NoneEmpty(Set(groups, k, b))
  {
    if groups != [] && groups[0].0 != k {
      PutFillsBuckets(groups[1..], k, b);
    }
  }

  lemma {:induction false} SetChangesTotal<K, T>(groups: Groups<K, T>, k: K, b: seq<T>, f: T -> real)
    ensures Total(Set(groups, k, b), f) == Total(groups, f) - Sum(Bucket(groups, k), f) + Sum(b, f)
  {
    if groups == [] {
      assert Total([(k, b)], f) == Sum(b, f) + Total<K, T>([], f);
    } else if groups[0].0 == k {
      assert Set(groups, k, b)[1..] == groups[1..];
    } else {
      SetChangesTotal(groups[1..], k, b, f);
      assert Set(groups, k, b)[1..] == Set(groups[1..], k, b);
    }
  }

  /** Keys are distinct, no bucket is empty, and a key's bucket holds exactly its elements in order. */
  lemma {:induction false} GroupsPartition<K, T>(s: seq<T>, key: T -> K, k: K)
    ensures UniqueKeys(GroupBy(s, key)) && NoneEmpty(GroupBy(s, key))
    ensures Bucket(GroupBy(s, key), k) == WithKey(s, key, k)
  {
    if s != [] {
      var n := |s| - 1;
      var before := GroupBy(s[..n], key);
      var pushed := Bucket(before, key(s[n])) + [s[n]];
      GroupsPartition(s[..n], key, k);
      SetKeepsUnique(before, key(s[n]), pushed);
      PutFillsBuckets(before, key(s[n]), pushed);
      GetAfterSet(before, key(s[n]), pushed, k);
    }
  }

  /** Nothing is lost or counted twice. */
  lemma {:induction false} GroupTotals<K, T>(s: seq<T>, key: T -> K, f: T -> real)
    ensures Total(GroupBy(s, key), f) == Sum(s, f)
  {
    if s != [] {
      var n := |s| - 1;
      var before := GroupBy(s[..n], key);
      GroupTotals(s[..n], key, f);
      SetChangesTotal(before, key(s[n]), Bucket(before, key(s[n])) + [s[n]], f);
      SumConcat(Bucket(before, key(s[n])), [s[n]], f);
      SumConcat(s[..n], [s[n]], f);
      assert s == s[..n] + [s[n]];
    }
  }

  /** A bucket holds the elements of s with its own key. */
  lemma {:induction false} WithKeyElements<K, T>(s: seq<T>, key: T -> K, k: K, x: T)
    ensures x in WithKey(s, key, k) <==> x in s && key(x) == k
  {
    if s != [] {
      var n := |s| - 1;
      WithKeyElements(s[..n], key, k, x);
      assert s == s[..n] + [s[n]];
    }
  }

  lemma {:induction false} WithKeyCounts<K, T>(s: seq<T>, key: T -> K, k: K, x: T)
    ensures multiset(WithKey(s, key, k))[x] == if key(x) == k then multiset(s)[x] else 0
  {
    if s != [] {
      var n := |s| - 1;
      WithKeyCounts(s[..n], key, k, x);
      assert s == s[..n] + [s[n]];
    }
  }
}
