/** Pulling the first top-level JSON object out of a model's reply: from
    the first '{', the shortest span whose braces balance, kept only when
    it is valid JSON. Braces are counted without regard to string
    literals. JSON validity is a parameter of the model. */
module JsonExtract {
  import opened Wrappers
  import opened Seqs

  /** What one character adds to the brace depth. */
  function Delta(c: char): int {
    if c == '{' then 1 else if c == '}' then -1 else 0
  }

  /** The count of '{' minus the count of '}'. */
  function Balance(s: string): int
    decreases |s|
  {
    if s == [] then 0 else Balance(s[..|s| - 1]) + Delta(s[|s| - 1])
  }

  /** The span `text[f..e]` is the first, counting from `f`, to balance. */
  predicate FirstBalancedSpan(text: string, f: nat, e: nat) {
    f < e <= |text| && Balance(text[f..e]) == 0
    && forall k :: f < k < e ==> Balance(text[f..k]) != 0
  }

  /** The first end `e >= j` at which `text[f..e]` balances. */
  function CloseFrom(text: string, f: nat, j: nat): (r: Option<nat>)
    requires f < j
    ensures r.Some? ==> j <= r.value <= |text| && Balance(text[f..r.value]) == 0
    ensures r.Some? ==> forall k :: j <= k < r.value ==> Balance(text[f..k]) != 0
    ensures r.None? ==> forall k :: j <= k <= |text| ==> Balance(text[f..k]) != 0
    decreases |text| + 1 - j
  {
    if j > |text| then None
    else if Balance(text[f..j]) == 0 then Some(j)
    else CloseFrom(text, f, j + 1)
  }

  /** The reference for `extractJSONObject(from:)`. */
  function Extracted(text: string, isValid: string -> bool): Option<string> {
    match IndexOf(text, '{')
    case None => None
    case Some(f) =>
      match CloseFrom(text, f, f + 1)
      case None => None
      case Some(e) => if isValid(text[f..e]) then Some(text[f..e]) else None
  }

  lemma BalanceStep(s: string, i: nat)
    requires i < |s|
    ensures Balance(s[..i + 1]) == Balance(s[..i]) + Delta(s[i])
  {
    assert s[..i + 1][..i] == s[..i];
  }

  /** The result is the first balanced span from the first '{', when it is
      valid, and nothing otherwise. */
  lemma ExtractedIsFirstValidSpan(text: string, isValid: string -> bool, c: string)
    ensures Extracted(text, isValid) == Some(c) <==>
      exists f: nat, e: nat :: IndexOf(text, '{') == Some(f) && FirstBalancedSpan(text, f, e)
                     && c == text[f..e] && isValid(c)
  {
    if exists f: nat, e: nat :: IndexOf(text, '{') == Some(f) && FirstBalancedSpan(text, f, e)
                      && c == text[f..e] && isValid(c) {
      var f: nat, e: nat :| IndexOf(text, '{') == Some(f) && FirstBalancedSpan(text, f, e)
                  && c == text[f..e] && isValid(c);
      var r := CloseFrom(text, f, f + 1);
      assert f + 1 <= e <= |text|;
      assert r.Some? && r.value == e;
    }
  }

  /** No '{', no result. */
  lemma NoBraceNoObject(text: string, isValid: string -> bool)
    requires '{' !in text
    ensures Extracted(text, isValid) == None
  {
  }

  /** Every proper non-empty prefix of the first balanced span has more
      '{' than '}'. */
  lemma {:induction false} PrefixDepthsPositive(text: string, f: nat, e: nat, k: nat)
    requires f < |text| && text[f] == '{'
    requires FirstBalancedSpan(text, f, e)
    requires f < k < e
    ensures Balance(text[f..k]) > 0
    decreases k
  {
    if k == f + 1 {
      assert text[f..k] == [text[f]];
      assert text[f..k][..0] == [];
    } else {
      PrefixDepthsPositive(text, f, e, k - 1);
      BalanceStep(text[f..], k - 1 - f);
      assert text[f..][..k - f] == text[f..k];
      assert text[f..][..k - 1 - f] == text[f..k - 1];
    }
  }

  /** A returned object starts with '{', balances, and has positive depth
      at every proper prefix. */
  lemma ExtractedIsBalancedObject(text: string, isValid: string -> bool)
    requires Extracted(text, isValid).Some?
    ensures var c := Extracted(text, isValid).value;
      c != [] && c[0] == '{' && Balance(c) == 0 && isValid(c)
      && forall k :: 0 < k < |c| ==> Balance(c[..k]) > 0
  {
    var f := IndexOf(text, '{').value;
    var e := CloseFrom(text, f, f + 1).value;
    assert FirstBalancedSpan(text, f, e);
    SpanIsBalancedObject(text, f, e);
  }

  /** The first balanced span from a '{' starts with it, balances, and has
      positive depth at every proper prefix. */
  lemma SpanIsBalancedObject(text: string, f: nat, e: nat)
    requires f < |text| && text[f] == '{' && FirstBalancedSpan(text, f, e)
    ensures var c := text[f..e];
      c != [] && c[0] == '{' && Balance(c) == 0
      && forall k :: 0 < k < |c| ==> Balance(c[..k]) > 0
  {
    var c := text[f..e];
    forall k | 0 < k < |c|
      ensures Balance(c[..k]) > 0
    {
      assert c[..k] == text[f..f + k];
      PrefixDepthsPositive(text, f, e, f + k);
    }
  }

  /** Braces inside string literals count: in `'{' + a + '}' + b` with no
      brace in `a`, the span ends at that first '}', quotes or not. */
  lemma FirstCloseEndsSpan(a: string, b: string)
    requires '{' !in a && '}' !in a
    ensures FirstBalancedSpan("{" + a + "}" + b, 0, |a| + 2)
  {
    var text := "{" + a + "}" + b;
    forall k | 0 < k <= |a| + 1
      ensures Balance(text[0..k]) == 1
    {
      BalanceOfOpenThenPlain(a, text, k);
    }
    BalanceStep(text, |a| + 1);
    assert text[..|a| + 2] == text[0..|a| + 2];
    assert text[..|a| + 1] == text[0..|a| + 1];
  }

  lemma {:induction false} BalanceOfOpenThenPlain(a: string, text: string, k: nat)
    requires '{' !in a && '}' !in a
    requires |text| >= |a| + 1 && text[0] == '{' && text[1..|a| + 1] == a
    requires 0 < k <= |a| + 1
    ensures Balance(text[0..k]) == 1
    decreases k
  {
    if k == 1 {
      assert text[0..1] == [text[0]];
      assert text[0..1][..0] == [];
    } else {
      BalanceOfOpenThenPlain(a, text, k - 1);
      BalanceStep(text, k - 1);
      assert text[..k] == text[0..k];
      assert text[..k - 1] == text[0..k - 1];
      assert text[k - 1] == a[k - 2];
    }
  }

  /** One step of the scan: the depth after `text[i]`, and where the first
      balancing end lies. */
  lemma ScanStep(text: string, f: nat, i: nat, j: nat, depth: int)
    requires f <= i < |text| && j == i + 1 && depth == Balance(text[f..i])
    ensures Balance(text[f..j]) == depth + Delta(text[i])
    ensures depth + Delta(text[i]) == 0 ==> CloseFrom(text, f, i + 1) == Some(i + 1)
    ensures depth + Delta(text[i]) != 0 ==> CloseFrom(text, f, i + 1) == CloseFrom(text, f, j + 1)
  {
    DepthStep(text, f, i, j, depth);
    CloseStep(text, f, j);
  }

  lemma DepthStep(text: string, f: nat, i: nat, j: nat, depth: int)
    requires f <= i < |text| && j == i + 1 && depth == Balance(text[f..i])
    ensures Balance(text[f..j]) == depth + Delta(text[i])
  {
    var t := text[f..];
    BalanceStep(t, i - f);
    assert t[..j - f] == text[f..j];
    assert t[..i - f] == text[f..i];
    assert t[i - f] == text[i];
  }

  /** The search for a balancing end stops at `j` or moves on to `j + 1`. */
  lemma CloseStep(text: string, f: nat, j: nat)
    requires f < j <= |text|
    ensures Balance(text[f..j]) == 0 ==> CloseFrom(text, f, j) == Some(j)
    ensures Balance(text[f..j]) != 0 ==> CloseFrom(text, f, j) == CloseFrom(text, f, j + 1)
  {
  }

  /** `Extracted` once the first '{' is known: what the balancing search
      from it finds, if valid. */
  lemma ExtractedFromClose(text: string, isValid: string -> bool, f: nat)
    requires IndexOf(text, '{') == Some(f)
    ensures var close := CloseFrom(text, f, f + 1);
      && (close.None? ==> Extracted(text, isValid) == None)
      && (close.Some? ==>
            Extracted(text, isValid) == (if isValid(text[f..close.value]) then Some(text[f..close.value]) else None))
  {
  }

  /** `extractJSONObject(from:)` */
  method ExtractJsonObject(text: string, isValid: string -> bool) returns (r: Option<string>)
    ensures r == Extracted(text, isValid)
  {
    var firstBrace := IndexOf(text, '{');
    if firstBrace.None? {
      return None;
    }
    var f := firstBrace.value;
    ghost var close := CloseFrom(text, f, f + 1);
    ExtractedFromClose(text, isValid, f);
    var depth := 0;
    var start: Option<nat> := None;
    var i := f;
    while i < |text|
      invariant f <= i <= |text|
      invariant depth == Balance(text[f..i])
      invariant i == f ==> depth == 0 && start == None
      invariant i > f ==> depth > 0 && start == Some(f)
      invariant close == CloseFrom(text, f, i + 1)
    {
      var ch := text[i];
      ghost var next := depth + Delta(ch);
      var j := i + 1;
      ScanStep(text, f, i, j, depth);
      if ch == '{' {
        if depth == 0 {
          start := Some(i);
        }
        depth := depth + 1;
      } else if ch == '}' {
        if depth > 0 {
          depth := depth - 1;
          if depth == 0 && start.Some? {
            var candidate := text[start.value..i + 1];
            assert close == Some(i + 1);
            if isValid(candidate) {
              return Some(candidate);
            } else {
              return None;
            }
          }
        }
      }
      assert depth == next;
      i := j;
    }
    assert close == None;
    return None;
  }
}
