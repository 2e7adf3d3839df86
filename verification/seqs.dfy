/** `Array.prototype.filter` and counting, as functions on sequences. */
module Seqs {

  /** `s.filter(p)`: the elements satisfying `p`, in their original order. */
  function Filter<T>(s: seq<T>, p: T -> bool): (r: seq<T>)
    ensures |r| <= |s|
    ensures forall i :: 0 <= i < |r| ==> r[i] in s && p(r[i])
    ensures forall i :: 0 <= i < |s| && p(s[i]) ==> s[i] in r
    ensures multiset(r) <= multiset(s)
    decreases |s|
  {
    if s == [] then []
    else
      assert s == [s[0]] + s[1..];
      (if p(s[0]) then [s[0]] else []) + Filter(s[1..], p)
  }

  /** Filtering distributes over concatenation, so filtering keeps relative order. */
  lemma {:induction false} FilterAppend<T>(a: seq<T>, b: seq<T>, p: T -> bool)
    ensures Filter(a + b, p) == Filter(a, p) + Filter(b, p)
    decreases |a|
  {
    if a != [] {
      var head: seq<T> := if p(a[0]) then [a[0]] else [];
      var ab := a + b;
      assert ab[0] == a[0] && ab[1..] == a[1..] + b;
      assert Filter(ab, p) == head + Filter(a[1..] + b, p);
      FilterAppend(a[1..], b, p);
      ConcatAssoc(head, Filter(a[1..], p), Filter(b, p));
    } else {
      assert a + b == b;
    }
  }

  lemma ConcatAssoc<T>(x: seq<T>, y: seq<T>, z: seq<T>)
    ensures x + (y + z) == (x + y) + z
  {
  }

  /** A filter that keeps every element is the identity. */
  lemma {:induction false} FilterAll<T>(s: seq<T>, p: T -> bool)
    requires forall i :: 0 <= i < |s| ==> p(s[i])
    ensures Filter(s, p) == s
    decreases |s|
  {
    if s != [] {
      FilterAll(s[1..], p);
    }
  }

  /** A filter that keeps no element is empty. */
  lemma {:induction false} FilterNone<T>(s: seq<T>, p: T -> bool)
    requires forall i :: 0 <= i < |s| ==> !p(s[i])
    ensures Filter(s, p) == []
    decreases |s|
  {
    if s != [] {
      FilterNone(s[1..], p);
    }
  }

  /** A filter that keeps exactly one element yields just that element. */
  lemma {:induction false} FilterSingle<T>(s: seq<T>, p: T -> bool, i: int)
    requires 0 <= i < |s| && p(s[i])
    requires forall j :: 0 <= j < |s| && j != i ==> !p(s[j])
    ensures Filter(s, p) == [s[i]]
    decreases |s|
  {
    var tail := s[1..];
    if i == 0 {
      forall j | 0 <= j < |tail|
        ensures !p(tail[j])
      {
        assert tail[j] == s[j + 1];
      }
      FilterNone(tail, p);
    } else {
      forall j | 0 <= j < |tail| && j != i - 1
        ensures !p(tail[j])
      {
        assert tail[j] == s[j + 1];
      }
      FilterSingle(tail, p, i - 1);
    }
  }

  /** A filter keeps every occurrence of a passing element and none of a failing one. */
  lemma {:induction false} FilterMultiplicity<T>(s: seq<T>, p: T -> bool, x: T)
    ensures multiset(Filter(s, p))[x] == if p(x) then multiset(s)[x] else 0
    decreases |s|
  {
    if s != [] {
      FilterMultiplicity(s[1..], p, x);
      FilterHeadCount(s, p, x);
    }
  }

  /** Peeling the first element off a filtered sequence, counted for one value `x`. */
  lemma FilterHeadCount<T>(s: seq<T>, p: T -> bool, x: T)
    requires s != []
    ensures multiset(s)[x] == (if s[0] == x then 1 else 0) + multiset(s[1..])[x]
    ensures multiset(Filter(s, p))[x] ==
              (if p(s[0]) && s[0] == x then 1 else 0) + multiset(Filter(s[1..], p))[x]
  {
    var rest := Filter(s[1..], p);
    assert s == [s[0]] + s[1..];
    if p(s[0]) {
      assert Filter(s, p) == [s[0]] + rest;
    } else {
      assert Filter(s, p) == rest;
    }
  }

  /** Filtering by `p` and then by `q` is filtering by their conjunction `both`. */
  lemma {:induction false} FilterFilter<T>(s: seq<T>, p: T -> bool, q: T -> bool, both: T -> bool)
    requires forall x :: both(x) == (p(x) && q(x))
    ensures Filter(Filter(s, p), q) == Filter(s, both)
    decreases |s|
  {
    if s != [] {
      FilterFilter(s[1..], p, q, both);
      var rest := Filter(s[1..], p);
      var kept: seq<T> := if q(s[0]) then [s[0]] else [];
      if p(s[0]) {
        var once := [s[0]] + rest;
        assert Filter(s, p) == once;
        assert once[0] == s[0] && once[1..] == rest;
        assert Filter(once, q) == kept + Filter(rest, q);
        assert Filter(s, both) == kept + Filter(s[1..], both);
      } else {
        assert Filter(s, p) == rest;
        assert Filter(s, both) == Filter(s[1..], both);
      }
    }
  }

  /** How many elements of `s` satisfy `p`. */
  function Count<T>(s: seq<T>, p: T -> bool): nat
  {
    |Filter(s, p)|
  }

  /** Counting over an appended element. */
  lemma CountSnoc<T>(s: seq<T>, x: T, p: T -> bool)
    ensures Count(s + [x], p) == Count(s, p) + (if p(x) then 1 else 0)
  {
    FilterAppend(s, [x], p);
  }
}
