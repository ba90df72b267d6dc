/** The two array idioms the data layer is built from: `Array.prototype.filter`
    and the first-occurrence de-duplication
    `xs.filter((v, i) => xs.indexOf(v) == i)`. */
module Seqs {

  /** `s.filter(p)`: the elements satisfying `p`, in their original order. */
  function Filter<T(!new)>(s: seq<T>, p: T -> bool): (r: seq<T>)
    ensures |r| <= |s|
    ensures forall x :: x in r <==> x in s && p(x)
  {
    if s == [] then [] else (if p(s[0]) then [s[0]] else []) + Filter(s[1..], p)
  }

  /** Filtering distributes over concatenation: the relative order of the
      kept elements is the order of the input. */
  lemma {:induction false} FilterConcat<T(!new)>(a: seq<T>, b: seq<T>, p: T -> bool)
    ensures Filter(a + b, p) == Filter(a, p) + Filter(b, p)
  {
    if a != [] {
      var h := if p(a[0]) then [a[0]] else [];
      assert (a + b)[0] == a[0] && (a + b)[1..] == a[1..] + b;
      FilterConcat(a[1..], b, p);
      calc {
        Filter(a + b, p);
        h + Filter(a[1..] + b, p);
        h + (Filter(a[1..], p) + Filter(b, p));
        (h + Filter(a[1..], p)) + Filter(b, p);
      }
    } else {
      assert a + b == b;
    }
  }

  /** Each element is kept as often as it occurs, when it satisfies `p`. */
  lemma {:induction false} FilterCount<T(!new)>(s: seq<T>, p: T -> bool, x: T)
    ensures multiset(Filter(s, p))[x] == if p(x) then multiset(s)[x] else 0
  {
    if s != [] {
      FilterCount(s[1..], p, x);
      assert s == [s[0]] + s[1..];
    }
  }

  /** When every element satisfies `p`, nothing is removed. */
  lemma {:induction false} FilterKeepsAll<T(!new)>(s: seq<T>, p: T -> bool)
    requires forall i :: 0 <= i < |s| ==> p(s[i])
    ensures Filter(s, p) == s
  {
    if s != [] {
      FilterKeepsAll(s[1..], p);
    }
  }

  /** When no element satisfies `p`, nothing is kept. */
  lemma {:induction false} FilterKeepsNone<T(!new)>(s: seq<T>, p: T -> bool)
    requires forall i :: 0 <= i < |s| ==> !p(s[i])
    ensures Filter(s, p) == []
  {
    if s != [] {
      FilterKeepsNone(s[1..], p);
    }
  }

  /** Two successive filters are one filter by the conjunction. */
  lemma {:induction false} FilterTwice<T(!new)>(s: seq<T>, p: T -> bool, q: T -> bool, pq: T -> bool)
    requires forall x :: pq(x) == (p(x) && q(x))
    ensures Filter(Filter(s, p), q) == Filter(s, pq)
  {
    if s != [] {
      FilterTwice(s[1..], p, q, pq);
      var fs := Filter(s, p);
      if p(s[0]) {
        assert fs == [s[0]] + Filter(s[1..], p);
        assert fs[0] == s[0] && fs[1..] == Filter(s[1..], p);
      } else {
        assert fs == Filter(s[1..], p);
      }
    }
  }

  /** `s.indexOf(x)`: the first position of `x`, or -1. */
  function IndexOf<T(==)>(s: seq<T>, x: T): (i: int)
    ensures -1 <= i < |s|
    ensures i == -1 <==> x !in s
    ensures 0 <= i ==> s[i] == x && x !in s[..i]
  {
    if s == [] then -1
    else if s[0] == x then 0
    else
      var j := IndexOf(s[1..], x);
      if j == -1 then -1 else j + 1
  }

  /** The positions `i <= k` of `s` kept by
      `filter((v, i) => s.indexOf(v) == i)`. */
  function KeepFirstFrom<T(==,!new)>(s: seq<T>, i: nat): (r: seq<T>)
    requires i <= |s|
    ensures |r| <= |s| - i
    ensures forall x :: x in r <==> x in s && IndexOf(s, x) >= i
    ensures forall a :: 0 <= a < |r| ==> IndexOf(s, r[a]) >= i
    ensures forall a, b :: 0 <= a < b < |r| ==> IndexOf(s, r[a]) < IndexOf(s, r[b])
    decreases |s| - i
  {
    if i == |s| then []
    else
      var rest := KeepFirstFrom(s, i + 1);
      if IndexOf(s, s[i]) == i then [s[i]] + rest else rest
  }

  /** First-occurrence de-duplication. */
  function Distinct<T(==,!new)>(s: seq<T>): (r: seq<T>)
  {
    KeepFirstFrom(s, 0)
  }

  predicate NoDuplicates<T(==)>(s: seq<T>) {
    forall a, b :: 0 <= a < b < |s| ==> s[a] != s[b]
  }

  /** The de-duplicated list holds every value of the input, once each, in
      the order of first occurrence, and is no longer than the input. */
  lemma DistinctSpec<T(!new)>(s: seq<T>)
    ensures forall x :: x in Distinct(s) <==> x in s
    ensures NoDuplicates(Distinct(s))
    ensures forall a, b :: 0 <= a < b < |Distinct(s)| ==>
      IndexOf(s, Distinct(s)[a]) < IndexOf(s, Distinct(s)[b])
    ensures |Distinct(s)| <= |s|
  {
    var r := Distinct(s);
    forall a, b | 0 <= a < b < |r| ensures r[a] != r[b] {
      assert IndexOf(s, r[a]) < IndexOf(s, r[b]);
    }
  }
}
