/** Sorting as Swift's `sorted()` and `sorted(by:)` provide it: an ordering
    predicate, an insertion sort specified by "ordered and a permutation", and
    the default ordering of strings (lexicographic on characters). */
module Sorting {
  import opened Seqs

  /** `lt` is a strict weak ordering, the requirement `sorted(by:)` places on
      its predicate: asymmetric, and "not before" is transitive. */
  ghost predicate StrictWeakOrder<T(!new)>(lt: (T, T) -> bool) {
    && (forall a, b :: lt(a, b) ==> !lt(b, a))
    && (forall a, b, c :: lt(a, b) ==> lt(a, c) || lt(c, b))
  }

  /** No element is strictly before an earlier one. */
  predicate SortedBy<T>(s: seq<T>, lt: (T, T) -> bool) {
    forall i, j :: 0 <= i < j < |s| ==> !lt(s[j], s[i])
  }

  /** `x` placed before the first element of `s` that is not before it. */
  function InsertBy<T>(x: T, s: seq<T>, lt: (T, T) -> bool): (r: seq<T>)
    ensures multiset(r) == multiset(s) + multiset{x}
    ensures |r| == |s| + 1
  {
    if s == [] || !lt(s[0], x) then [x] + s
    else
      assert s == [s[0]] + s[1..];
      [s[0]] + InsertBy(x, s[1..], lt)
  }

  function SortBy<T>(s: seq<T>, lt: (T, T) -> bool): (r: seq<T>)
    ensures multiset(r) == multiset(s)
    ensures |r| == |s|
  {
    if s == [] then []
    else
      assert s == [s[0]] + s[1..];
      InsertBy(s[0], SortBy(s[1..], lt), lt)
  }

  lemma {:induction false} InsertBySorted<T(!new)>(x: T, s: seq<T>, lt: (T, T) -> bool)
    requires StrictWeakOrder(lt) && SortedBy(s, lt)
    ensures SortedBy(InsertBy(x, s, lt), lt)
  {
    var r := InsertBy(x, s, lt);
    if s == [] || !lt(s[0], x) {
      forall i, j | 0 <= i < j < |r|
        ensures !lt(r[j], r[i])
      {
        if i == 0 {
          // r[j] = s[j-1] is not before s[0], and s[0] is not before x
          assert r[j] == s[j - 1];
        } else {
          assert r[i] == s[i - 1] && r[j] == s[j - 1];
        }
      }
    } else {
      var t := InsertBy(x, s[1..], lt);
      InsertBySorted(x, s[1..], lt);
      assert r == [s[0]] + t;
      NoneBeforeHead(x, s, t, lt);
      forall i, j | 0 <= i < j < |r|
        ensures !lt(r[j], r[i])
      {
        if i == 0 {
          assert r[j] == t[j - 1];
        } else {
          assert r[i] == t[i - 1] && r[j] == t[j - 1];
        }
      }
    }
  }

  /** Nothing in `t`, which holds the tail of `s` and an `x` that `s[0]`
      is before, is before `s[0]`. */
  lemma NoneBeforeHead<T(!new)>(x: T, s: seq<T>, t: seq<T>, lt: (T, T) -> bool)
    requires StrictWeakOrder(lt) && SortedBy(s, lt) && s != [] && lt(s[0], x)
    requires multiset(t) == multiset(s[1..]) + multiset{x}
    ensures forall k :: 0 <= k < |t| ==> !lt(t[k], s[0])
  {
    forall k | 0 <= k < |t|
      ensures !lt(t[k], s[0])
    {
      assert t[k] in multiset(t);
      if t[k] != x {
        assert t[k] in multiset(s[1..]);
        var m :| 0 <= m < |s[1..]| && s[1..][m] == t[k];
        assert s[m + 1] == t[k];
      }
    }
  }

  /** Sorting with a strict weak ordering gives an ordered permutation. */
  lemma {:induction false} SortBySorted<T(!new)>(s: seq<T>, lt: (T, T) -> bool)
    requires StrictWeakOrder(lt)
    ensures SortedBy(SortBy(s, lt), lt)
  {
    if s != [] {
      SortBySorted(s[1..], lt);
      InsertBySorted(s[0], SortBy(s[1..], lt), lt);
    }
  }

  /** Swift's `<` on strings, modelled as lexicographic order on characters:
      a proper prefix comes first. */
  predicate LexLt(a: string, b: string)
    decreases |a|
  {
    |b| > 0 && (|a| == 0 || a[0] < b[0] || (a[0] == b[0] && LexLt(a[1..], b[1..])))
  }

  lemma {:induction false} LexLtAsymmetric(a: string, b: string)
    ensures LexLt(a, b) ==> !LexLt(b, a)
    decreases |a|
  {
    if |a| > 0 && |b| > 0 && a[0] == b[0] {
      LexLtAsymmetric(a[1..], b[1..]);
    }
  }

  lemma {:induction false} LexLtTransitive(a: string, b: string, c: string)
    requires LexLt(a, b) && LexLt(b, c)
    ensures LexLt(a, c)
    decreases |a|
  {
    if |a| > 0 && a[0] == b[0] && b[0] == c[0] {
      LexLtTransitive(a[1..], b[1..], c[1..]);
    }
  }

  lemma {:induction false} LexLtTotal(a: string, b: string)
    requires a != b
    ensures LexLt(a, b) || LexLt(b, a)
    decreases |a|
  {
    if |a| > 0 && |b| > 0 && a[0] == b[0] {
      assert a == [a[0]] + a[1..] && b == [b[0]] + b[1..];
      LexLtTotal(a[1..], b[1..]);
    }
  }

  lemma LexLtIsStrictWeakOrder()
    ensures StrictWeakOrder(LexLt)
  {
    forall a, b | LexLt(a, b)
      ensures !LexLt(b, a)
    {
      LexLtAsymmetric(a, b);
    }
    forall a, b, c | LexLt(a, b)
      ensures LexLt(a, c) || LexLt(c, b)
    {
      if !LexLt(a, c) && !LexLt(c, b) {
        if a != c { LexLtTotal(a, c); }
        if c != b { LexLtTotal(c, b); }
        if a == c {
        } else if c == b {
        } else {
          LexLtTransitive(b, c, a);
        }
        LexLtAsymmetric(a, b);
      }
    }
  }

  /** Ordered by `<` without duplicates means strictly increasing. */
  lemma SortedNoDupIsStrict(s: seq<string>)
    requires SortedBy(s, LexLt) && NoDup(s)
    ensures forall i, j :: 0 <= i < j < |s| ==> LexLt(s[i], s[j])
  {
    forall i, j | 0 <= i < j < |s|
      ensures LexLt(s[i], s[j])
    {
      LexLtTotal(s[i], s[j]);
    }
  }

  /** An ordered permutation of duplicate-free strings has no duplicates. */
  lemma {:induction false} PermutationKeepsNoDup<T>(s: seq<T>, r: seq<T>)
    requires NoDup(s) && multiset(r) == multiset(s)
    ensures NoDup(r)
  {
    forall i, j | 0 <= i < j < |r|
      ensures r[i] != r[j]
    {
      if r[i] == r[j] {
        assert r == r[..i] + [r[i]] + r[i + 1..];
        assert r[i + 1..] == r[i + 1..j] + [r[j]] + r[j + 1..];
        assert multiset(r)[r[i]] >= 2;
        NoDupMultiplicity(s, r[i]);
        assert false;
      }
    }
  }

  lemma {:induction false} NoDupMultiplicity<T>(s: seq<T>, x: T)
    requires NoDup(s)
    ensures multiset(s)[x] <= 1
  {
    if s != [] {
      assert s == [s[0]] + s[1..];
      assert NoDup(s[1..]) by {
        forall i, j | 0 <= i < j < |s[1..]| ensures s[1..][i] != s[1..][j] {
          assert s[1..][i] == s[i + 1] && s[1..][j] == s[j + 1];
        }
      }
      NoDupMultiplicity(s[1..], x);
      if s[0] == x {
        forall k | 0 <= k < |s[1..]|
          ensures s[1..][k] != x
        {
          assert s[1..][k] == s[k + 1];
        }
      }
    }
  }
}
