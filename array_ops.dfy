/**
 * `Array.prototype.filter` and `Array.prototype.map` as the components use
 * them: applied to the previous state array inside a state setter, producing
 * a fresh array and leaving the old one alone.
 */
module ArrayOps {

  /** `s.filter(p)`: the elements of `s` that satisfy `p`, in their original order. */
  function Filter<T>(s: seq<T>, p: T -> bool): (r: seq<T>)
    ensures |r| <= |s|
    ensures forall i :: 0 <= i < |r| ==> r[i] in s && p(r[i])
    ensures forall i :: 0 <= i < |s| && p(s[i]) ==> s[i] in r
  {
    if s == [] then []
    else if p(s[0]) then [s[0]] + Filter(s[1..], p)
    else Filter(s[1..], p)
  }

  /** `s.map(f)`: one result per element, position by position. */
  function Map<T, U>(s: seq<T>, f: T -> U): (r: seq<U>)
    ensures |r| == |s|
    ensures forall i :: 0 <= i < |s| ==> r[i] == f(s[i])
  {
    if s == [] then [] else [f(s[0])] + Map(s[1..], f)
  }

  /** Filtering splits over concatenation: the survivors keep their relative order. */
  lemma {:induction false} FilterConcat<T>(a: seq<T>, b: seq<T>, p: T -> bool)
    ensures Filter(a + b, p) == Filter(a, p) + Filter(b, p)
  {
    if a == [] {
      assert a + b == b;
    } else {
      assert (a + b)[0] == a[0];
      assert (a + b)[1..] == a[1..] + b;
      FilterConcat(a[1..], b, p);
    }
  }

  /** Every survivor occurs as often as in the input; the others not at all. */
  lemma {:induction false} FilterCount<T>(s: seq<T>, p: T -> bool, x: T)
    ensures multiset(Filter(s, p))[x] == if p(x) then multiset(s)[x] else 0
  {
    if s != [] {
      assert s == [s[0]] + s[1..];
      FilterCount(s[1..], p, x);
    }
  }

  /** A filter that keeps every element returns the input itself. */
  lemma {:induction false} FilterKeepsAll<T>(s: seq<T>, p: T -> bool)
    requires forall i :: 0 <= i < |s| ==> p(s[i])
    ensures Filter(s, p) == s
  {
    if s != [] {
      FilterKeepsAll(s[1..], p);
    }
  }

  /** Filtering twice by the same condition is filtering once. */
  lemma FilterIdempotent<T>(s: seq<T>, p: T -> bool)
    ensures Filter(Filter(s, p), p) == Filter(s, p)
  {
    FilterKeepsAll(Filter(s, p), p);
  }

  /**
   * Mapping with `f` and then filtering by `p` is filtering by `p` alone when
   * `f` does not change `p` and fixes every element `p` keeps.
   */
  lemma {:induction false} FilterAfterMap<T>(s: seq<T>, f: T -> T, p: T -> bool)
    requires forall i :: 0 <= i < |s| ==> p(f(s[i])) == p(s[i])
    requires forall i :: 0 <= i < |s| && p(s[i]) ==> f(s[i]) == s[i]
    ensures Filter(Map(s, f), p) == Filter(s, p)
  {
    if s != [] {
      var m := Map(s, f);
      assert m == [f(s[0])] + Map(s[1..], f);
      assert m[1..] == Map(s[1..], f);
      FilterAfterMap(s[1..], f, p);
    }
  }
}
