/**
 * The two list reconciliations every table component performs after a
 * successful request, over records identified by a key (a `uuid` or an `id`):
 * drop the records with a given key, and rewrite the records with a given key.
 */
module Keyed {
  import ArrayOps

  /** The filter condition `x => key(x) !== k`. */
  function KeyDiffers<T, K(==)>(key: T -> K, k: K): T -> bool {
    x => key(x) != k
  }

  /** The map callback `x => key(x) === k ? f(x) : x`. */
  function RewriteIfKey<T, K(==)>(key: T -> K, k: K, f: T -> T): T -> T {
    x => if key(x) == k then f(x) else x
  }

  /** `s.filter(x => key(x) !== k)`. */
  function RemoveKey<T, K(==)>(s: seq<T>, key: T -> K, k: K): (r: seq<T>)
    ensures |r| <= |s|
    ensures forall i :: 0 <= i < |r| ==> key(r[i]) != k && r[i] in s
    ensures forall i :: 0 <= i < |s| && key(s[i]) != k ==> s[i] in r
  {
    ArrayOps.Filter(s, KeyDiffers(key, k))
  }

  /** `s.map(x => key(x) === k ? f(x) : x)`. */
  function UpdateKey<T, K(==)>(s: seq<T>, key: T -> K, k: K, f: T -> T): (r: seq<T>)
    ensures |r| == |s|
    ensures forall i :: 0 <= i < |s| && key(s[i]) == k ==> r[i] == f(s[i])
    ensures forall i :: 0 <= i < |s| && key(s[i]) != k ==> r[i] == s[i]
  {
    ArrayOps.Map(s, RewriteIfKey(key, k, f))
  }

  /** The keys of `s`, in order. */
  function Keys<T, K>(s: seq<T>, key: T -> K): (ks: seq<K>)
    ensures |ks| == |s|
    ensures forall i :: 0 <= i < |s| ==> ks[i] == key(s[i])
  {
    ArrayOps.Map(s, key)
  }

  /** No two records share a key. */
  ghost predicate UniqueKeys<T, K>(s: seq<T>, key: T -> K) {
    forall i, j :: 0 <= i < j < |s| ==> key(s[i]) != key(s[j])
  }

  /** A rewrite that keeps the key of every record it touches. */
  ghost predicate KeepsKey<T, K>(s: seq<T>, key: T -> K, k: K, f: T -> T) {
    forall i :: 0 <= i < |s| && key(s[i]) == k ==> key(f(s[i])) == k
  }

  /** The records kept by a removal keep their relative order. */
  lemma RemoveKeyConcat<T, K>(a: seq<T>, b: seq<T>, key: T -> K, k: K)
    ensures RemoveKey(a + b, key, k) == RemoveKey(a, key, k) + RemoveKey(b, key, k)
  {
    ArrayOps.FilterConcat(a, b, KeyDiffers(key, k));
  }

  /** A removal keeps every other record as many times as it occurred. */
  lemma RemoveKeyCount<T, K>(s: seq<T>, key: T -> K, k: K, x: T)
    ensures multiset(RemoveKey(s, key, k))[x] == if key(x) != k then multiset(s)[x] else 0
  {
    ArrayOps.FilterCount(s, KeyDiffers(key, k), x);
  }

  /** Removing a key that no record has changes nothing. */
  lemma RemoveAbsentKey<T, K>(s: seq<T>, key: T -> K, k: K)
    requires forall i :: 0 <= i < |s| ==> key(s[i]) != k
    ensures RemoveKey(s, key, k) == s
  {
    ArrayOps.FilterKeepsAll(s, KeyDiffers(key, k));
  }

  /** Removing the same key twice is removing it once. */
  lemma RemoveKeyTwice<T, K>(s: seq<T>, key: T -> K, k: K)
    ensures RemoveKey(RemoveKey(s, key, k), key, k) == RemoveKey(s, key, k)
  {
    ArrayOps.FilterIdempotent(s, KeyDiffers(key, k));
  }

  /** A removal cannot make two records share a key. */
  lemma {:induction false} RemoveKeyPreservesUnique<T, K>(s: seq<T>, key: T -> K, k: K)
    requires UniqueKeys(s, key)
    ensures UniqueKeys(RemoveKey(s, key, k), key)
  {
    if s != [] {
      var rest := RemoveKey(s[1..], key, k);
      assert UniqueKeys(s[1..], key) by {
        forall i, j | 0 <= i < j < |s[1..]| ensures key(s[1..][i]) != key(s[1..][j]) {
          assert s[1..][i] == s[i + 1] && s[1..][j] == s[j + 1];
        }
      }
      RemoveKeyPreservesUnique(s[1..], key, k);
      if key(s[0]) != k {
        assert RemoveKey(s, key, k) == [s[0]] + rest;
        forall j | 0 <= j < |rest| ensures key(s[0]) != key(rest[j]) {
          var m :| 0 <= m < |s[1..]| && s[1..][m] == rest[j];
          assert s[m + 1] == rest[j];
        }
      }
    }
  }

  /** Rewriting the records of a key that no record has changes nothing. */
  lemma UpdateAbsentKey<T, K>(s: seq<T>, key: T -> K, k: K, f: T -> T)
    requires forall i :: 0 <= i < |s| ==> key(s[i]) != k
    ensures UpdateKey(s, key, k, f) == s
  {
  }

  /** A rewrite that keeps keys leaves the key column as it was. */
  lemma UpdateKeyKeepsKeys<T, K>(s: seq<T>, key: T -> K, k: K, f: T -> T)
    requires KeepsKey(s, key, k, f)
    ensures Keys(UpdateKey(s, key, k, f), key) == Keys(s, key)
  {
  }

  /** Such a rewrite cannot make two records share a key. */
  lemma UpdateKeyPreservesUnique<T, K>(s: seq<T>, key: T -> K, k: K, f: T -> T)
    requires KeepsKey(s, key, k, f)
    requires UniqueKeys(s, key)
    ensures UniqueKeys(UpdateKey(s, key, k, f), key)
  {
    UpdateKeyKeepsKeys(s, key, k, f);
    var r := UpdateKey(s, key, k, f);
    forall i, j | 0 <= i < j < |r| ensures key(r[i]) != key(r[j]) {
      assert Keys(r, key)[i] == key(r[i]) && Keys(r, key)[j] == key(r[j]);
    }
  }

  /** Applying an update a second time changes nothing when its rewrite is idempotent. */
  lemma UpdateKeyTwice<T, K>(s: seq<T>, key: T -> K, k: K, f: T -> T)
    requires KeepsKey(s, key, k, f)
    requires forall i :: 0 <= i < |s| && key(s[i]) == k ==> f(f(s[i])) == f(s[i])
    ensures UpdateKey(UpdateKey(s, key, k, f), key, k, f) == UpdateKey(s, key, k, f)
  {
  }

  /** Removing a key right after rewriting its records gives what the removal alone gives. */
  lemma RemoveAfterUpdate<T, K>(s: seq<T>, key: T -> K, k: K, f: T -> T)
    requires KeepsKey(s, key, k, f)
    ensures RemoveKey(UpdateKey(s, key, k, f), key, k) == RemoveKey(s, key, k)
  {
    ArrayOps.FilterAfterMap(s, RewriteIfKey(key, k, f), KeyDiffers(key, k));
  }

  /** Rewriting the records of a key right after removing it changes nothing. */
  lemma UpdateAfterRemove<T, K>(s: seq<T>, key: T -> K, k: K, f: T -> T)
    ensures UpdateKey(RemoveKey(s, key, k), key, k, f) == RemoveKey(s, key, k)
  {
    UpdateAbsentKey(RemoveKey(s, key, k), key, k, f);
  }
}
