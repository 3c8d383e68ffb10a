/** Sequence helpers shared by the model: order-preserving filtering (Swift's
    `filter`), the subsequence relation, duplicate-freedom, and turning a set
    into an array (Swift's `Array(set)`). */
module Seqs {
  import opened Wrappers

  /** `r` can be obtained from `s` by deleting elements, keeping the order. */
  predicate SubseqOf<T(==)>(r: seq<T>, s: seq<T>)
    decreases |s|
  {
    if r == [] then true
    else if s == [] then false
    else if r[0] == s[0] then SubseqOf(r[1..], s[1..])
    else SubseqOf(r, s[1..])
  }

  predicate NoDup<T(==)>(s: seq<T>) {
    forall i, j :: 0 <= i < j < |s| ==> s[i] != s[j]
  }

  function Elems<T>(s: seq<T>): set<T> {
    set x | x in s
  }

  /** Swift's `firstIndex(of:)`: the position of the first `x` in `s`. */
  function IndexOf<T(==)>(s: seq<T>, x: T): (r: Option<nat>)
    ensures r.None? <==> x !in s
    ensures r.Some? ==> r.value < |s| && s[r.value] == x && x !in s[..r.value]
  {
    if s == [] then None
    else if s[0] == x then Some(0)
    else match IndexOf(s[1..], x)
      case None => None
      case Some(i) => assert s[..i + 1] == [s[0]] + s[1..][..i]; Some(i + 1)
  }

  /** The elements of `s` that satisfy `p`, in the order of `s`. */
  function Filter<T>(s: seq<T>, p: T -> bool): (r: seq<T>)
    ensures |r| <= |s|
    ensures forall i :: 0 <= i < |r| ==> r[i] in s && p(r[i])
    ensures forall i :: 0 <= i < |s| && p(s[i]) ==> s[i] in r
  {
    if s == [] then []
    else (if p(s[0]) then [s[0]] else []) + Filter(s[1..], p)
  }

  lemma {:induction false} FilterIsSubseq<T>(s: seq<T>, p: T -> bool)
    ensures SubseqOf(Filter(s, p), s)
  {
    if s != [] {
      FilterIsSubseq(s[1..], p);
      if p(s[0]) {
        assert Filter(s, p) == [s[0]] + Filter(s[1..], p);
      } else {
        assert Filter(s, p) == Filter(s[1..], p);
        DropHeadKeepsSubseq(Filter(s[1..], p), s);
      }
    }
  }

  lemma {:induction false} DropHeadKeepsSubseq<T>(r: seq<T>, s: seq<T>)
    requires s != [] && SubseqOf(r, s[1..])
    ensures SubseqOf(r, s)
    decreases |s|, 0
  {
    if r != [] && r[0] == s[0] {
      SubseqOfTail(r, s[1..]);
    }
  }

  lemma {:induction false} SubseqOfTail<T>(r: seq<T>, s: seq<T>)
    requires r != [] && SubseqOf(r, s)
    ensures SubseqOf(r[1..], s)
    decreases |s|, 1
  {
    if r[0] == s[0] {
      if r[1..] != [] {
        SubseqOfTail(r[1..], s[1..]);
        DropHeadKeepsSubseq(r[1..], s);
      }
    } else {
      SubseqOfTail(r, s[1..]);
      if r[1..] != [] {
        DropHeadKeepsSubseq(r[1..], s);
      }
    }
  }

  /** Filtering keeps every occurrence of an element that passes and none of
      one that does not: with `FilterIsSubseq`, this pins the result down to
      "exactly the passing elements, in their original order". */
  lemma {:induction false} FilterMultiplicity<T>(s: seq<T>, p: T -> bool, x: T)
    ensures multiset(Filter(s, p))[x] == if p(x) then multiset(s)[x] else 0
  {
    if s != [] {
      var head, tail := s[0], s[1..];
      FilterMultiplicity(tail, p, x);
      assert s == [head] + tail;
      var kept := if p(head) then [head] else [];
      assert Filter(s, p) == kept + Filter(tail, p);
      assert multiset(Filter(s, p)) == multiset(kept) + multiset(Filter(tail, p));
      assert multiset(s) == multiset([head]) + multiset(tail);
    }
  }

  lemma {:induction false} FilterAllPass<T>(s: seq<T>, p: T -> bool)
    requires forall x :: x in s ==> p(x)
    ensures Filter(s, p) == s
  {
    if s != [] {
      FilterAllPass(s[1..], p);
      assert [s[0]] + s[1..] == s;
    }
  }

  lemma {:induction false} FilterAppend<T>(a: seq<T>, b: seq<T>, p: T -> bool)
    ensures Filter(a + b, p) == Filter(a, p) + Filter(b, p)
  {
    if a == [] {
      assert a + b == b;
    } else {
      assert (a + b)[1..] == a[1..] + b;
      FilterAppend(a[1..], b, p);
    }
  }

  /** Swift's `Array(set)`: each element of the set exactly once, in an
      order the model leaves open. */
  method ListOf<T>(s: set<T>) returns (r: seq<T>)
    ensures NoDup(r)
    ensures forall x :: x in r <==> x in s
    ensures |r| == |s|
  {
    var rest := s;
    r := [];
    while rest != {}
      invariant rest <= s
      invariant NoDup(r)
      invariant forall x :: x in r <==> x in s && x !in rest
      invariant |r| + |rest| == |s|
      decreases |rest|
    {
      var x :| x in rest;
      r := r + [x];
      rest := rest - {x};
    }
  }
}
