/** `normalizedNonEmpty`: a string trimmed of surrounding white space and
    newlines, or nothing when that leaves it empty. */
module Normalized {
  import opened Wrappers

  /** The Unicode White_Space characters, which the white-space-and-newlines
      set consists of. */
  predicate IsWhitespace(c: char) {
    var n := c as int;
    n == 0x20 || 0x09 <= n <= 0x0D || n == 0x85 || n == 0xA0 || n == 0x1680
    || 0x2000 <= n <= 0x200A || n == 0x2028 || n == 0x2029 || n == 0x202F
    || n == 0x205F || n == 0x3000
  }

  predicate AllWhitespace(s: string) {
    forall i :: 0 <= i < |s| ==> IsWhitespace(s[i])
  }

  /** Neither end of `s` is white space. */
  predicate IsTrimmed(s: string) {
    s == [] || (!IsWhitespace(s[0]) && !IsWhitespace(s[|s| - 1]))
  }

  function TrimStart(s: string): (r: string)
    ensures |r| <= |s| && r == s[|s| - |r|..]
    ensures AllWhitespace(s[..|s| - |r|])
    ensures r == [] || !IsWhitespace(r[0])
    decreases |s|
  {
    if s != [] && IsWhitespace(s[0]) then
      var t := s[1..];
      var r := TrimStart(t);
      assert s[..|s| - |r|] == [s[0]] + t[..|t| - |r|];
      assert s[|s| - |r|..] == t[|t| - |r|..];
      r
    else s
  }

  function TrimEnd(s: string): (r: string)
    ensures |r| <= |s| && r == s[..|r|]
    ensures AllWhitespace(s[|r|..])
    ensures r == [] || !IsWhitespace(r[|r| - 1])
    decreases |s|
  {
    if s != [] && IsWhitespace(s[|s| - 1]) then
      var t := s[..|s| - 1];
      var r := TrimEnd(t);
      assert s[|r|..] == t[|r|..] + [s[|s| - 1]];
      assert s[..|r|] == t[..|r|];
      r
    else s
  }

  /** `trimmingCharacters(in: .whitespacesAndNewlines)` */
  function Trim(s: string): string {
    TrimEnd(TrimStart(s))
  }

  /** `normalizedNonEmpty` */
  function NormalizedNonEmpty(s: string): Option<string> {
    var t := Trim(s);
    if t == [] then None else Some(t)
  }

  /** The trimmed string is a slice of the original with only white space
      cut away on either side, and neither of its ends is white space. */
  lemma TrimIsCoreSlice(s: string)
    ensures IsTrimmed(Trim(s))
    ensures exists i, j :: 0 <= i <= j <= |s| && Trim(s) == s[i..j]
                           && AllWhitespace(s[..i]) && AllWhitespace(s[j..])
  {
    var a := TrimStart(s);
    var b := TrimEnd(a);
    CoreSlice(s, a, b);
  }

  /** The slicing argument of `TrimIsCoreSlice`, over the two trims' own
      guarantees. */
  lemma CoreSlice(s: string, a: string, b: string)
    requires |a| <= |s| && a == s[|s| - |a|..] && AllWhitespace(s[..|s| - |a|])
    requires a == [] || !IsWhitespace(a[0])
    requires |b| <= |a| && b == a[..|b|] && AllWhitespace(a[|b|..])
    requires b == [] || !IsWhitespace(b[|b| - 1])
    ensures IsTrimmed(b)
    ensures exists i, j :: 0 <= i <= j <= |s| && b == s[i..j]
                           && AllWhitespace(s[..i]) && AllWhitespace(s[j..])
  {
    var i := |s| - |a|;
    var j := i + |b|;
    assert b == s[i..j];
    assert a[|b|..] == s[j..];
    if b != [] {
      assert b[0] == a[0];
    }
  }

  /** Only white space trims to nothing. */
  lemma TrimEmptyIffBlank(s: string)
    ensures Trim(s) == [] <==> AllWhitespace(s)
  {
    var a := TrimStart(s);
    assert a != [] ==> a[0] == s[|s| - |a|];
  }

  /** A string without white space at either end trims to itself. */
  lemma TrimmedIsFixed(s: string)
    requires IsTrimmed(s)
    ensures Trim(s) == s
  {
  }

  /** No result is nothing exactly when the string is blank. */
  lemma NormalizedNoneIffBlank(s: string)
    ensures NormalizedNonEmpty(s).None? <==> AllWhitespace(s)
  {
    TrimEmptyIffBlank(s);
  }

  /** A result is non-empty, trimmed, and normalizes to itself. */
  lemma NormalizedIsIdempotent(s: string)
    requires NormalizedNonEmpty(s).Some?
    ensures NormalizedNonEmpty(s).value != [] && IsTrimmed(NormalizedNonEmpty(s).value)
    ensures NormalizedNonEmpty(NormalizedNonEmpty(s).value) == NormalizedNonEmpty(s)
  {
    TrimIsCoreSlice(s);
    TrimmedIsFixed(Trim(s));
  }

  /** An already trimmed, non-empty string comes back unchanged. */
  lemma NormalizedKeepsTrimmed(s: string)
    requires s != [] && IsTrimmed(s)
    ensures NormalizedNonEmpty(s) == Some(s)
  {
    TrimmedIsFixed(s);
  }

  /** White space added around a string does not change its trimmed form. */
  lemma {:induction false} TrimIgnoresPadding(pre: string, s: string, post: string)
    requires AllWhitespace(pre) && AllWhitespace(post)
    ensures Trim(pre + s + post) == Trim(s)
  {
    var padded := pre + s + post;
    var tail := s + post;
    assert padded == pre + tail;
    TrimStartIgnoresPrefix(pre, tail);
    TrimEndOfPadded(TrimStart(tail), s, post);
  }

  lemma {:induction false} TrimStartIgnoresPrefix(pre: string, s: string)
    requires AllWhitespace(pre)
    ensures TrimStart(pre + s) == TrimStart(s)
    decreases |pre|
  {
    if pre != [] {
      assert (pre + s)[1..] == pre[1..] + s;
      TrimStartIgnoresPrefix(pre[1..], s);
    } else {
      assert pre + s == s;
    }
  }

  lemma {:induction false} TrimEndIgnoresSuffix(s: string, post: string)
    requires AllWhitespace(post)
    ensures TrimEnd(s + post) == TrimEnd(s)
    decreases |post|
  {
    if post != [] {
      var p := post[..|post| - 1];
      assert (s + post)[..|s + post| - 1] == s + p;
      TrimEndIgnoresSuffix(s, p);
    } else {
      assert s + post == s;
    }
  }

  /** `TrimStart(s + post)` is `TrimStart(s) + post` unless `s` is blank,
      in which case both trim to nothing at the end. */
  lemma {:induction false} TrimEndOfPadded(a: string, s: string, post: string)
    requires AllWhitespace(post) && a == TrimStart(s + post)
    ensures TrimEnd(a) == TrimEnd(TrimStart(s))
    decreases |s|
  {
    if s == [] {
      assert s + post == post;
      TrimStartOfBlank(post);
      assert TrimStart(s) == [];
    } else if IsWhitespace(s[0]) {
      assert (s + post)[1..] == s[1..] + post;
      TrimEndOfPadded(a, s[1..], post);
    } else {
      assert TrimStart(s + post) == s + post;
      TrimEndIgnoresSuffix(s, post);
    }
  }

  lemma {:induction false} TrimStartOfBlank(s: string)
    requires AllWhitespace(s)
    ensures TrimStart(s) == []
    decreases |s|
  {
    if s != [] {
      TrimStartOfBlank(s[1..]);
    }
  }
}
