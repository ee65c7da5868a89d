/** String operations the pipeline relies on: ASCII lower-casing
    (`str.lower`), substring search (`in`), first-occurrence replacement
    (`str.replace(old, new, 1)`) and decimal rendering (`str(n)`). */
module Text {
  import opened Wrappers

  function LowerChar(c: char): char {
    if 'A' <= c <= 'Z' then (c as int + 32) as char else c
  }

  /** `s.lower()`, restricted to the ASCII letters. */
  function Lower(s: string): (r: string)
    ensures |r| == |s|
    ensures forall i :: 0 <= i < |r| ==> !('A' <= r[i] <= 'Z')
    ensures forall i :: 0 <= i < |s| && !('A' <= s[i] <= 'Z') ==> r[i] == s[i]
    ensures forall i :: 0 <= i < |s| && 'A' <= s[i] <= 'Z' ==> r[i] == (s[i] as int + 32) as char
  {
    seq(|s|, i requires 0 <= i < |s| => LowerChar(s[i]))
  }

  /** Lower-cased text stays as it is when lower-cased again. */
  lemma LowerIdempotent(s: string)
    ensures Lower(Lower(s)) == Lower(s)
  {
  }

  /** `pat` starts at index `i` of `s`. */
  predicate OccursAt(s: string, pat: string, i: int) {
    0 <= i && i + |pat| <= |s| && s[i..i + |pat|] == pat
  }

  /** An occurrence of `p + q` is an occurrence of `p`. */
  lemma OccursPrefix(s: string, p: string, q: string, i: int)
    ensures OccursAt(s, p + q, i) ==> OccursAt(s, p, i)
  {
    if OccursAt(s, p + q, i) {
      assert s[i..i + |p|] == s[i..i + |p + q|][..|p|];
    }
  }

  /** Python's `pat in s`. */
  predicate Contains(s: string, pat: string) {
    exists i | 0 <= i <= |s| :: OccursAt(s, pat, i)
  }

  /** `k` is the leftmost index at which `pat` occurs in `s`. */
  predicate FirstOccurrence(s: string, pat: string, k: int) {
    OccursAt(s, pat, k) && forall j :: 0 <= j < k ==> !OccursAt(s, pat, j)
  }

  /** The leftmost occurrence of `pat` at or after index `i`. */
  function FindFrom(s: string, pat: string, i: nat): (r: Option<nat>)
    decreases |s| - i
    ensures r.Some? ==> i <= r.value && OccursAt(s, pat, r.value)
    ensures r.Some? ==> forall j :: i <= j < r.value ==> !OccursAt(s, pat, j)
    ensures r.None? ==> forall j :: i <= j ==> !OccursAt(s, pat, j)
  {
    if i + |pat| > |s| then None
    else if s[i..i + |pat|] == pat then Some(i)
    else FindFrom(s, pat, i + 1)
  }

  /** `s.replace(pat, rep, 1)`: only the leftmost occurrence is replaced,
      and a string without an occurrence comes back unchanged. */
  function ReplaceFirst(s: string, pat: string, rep: string): (r: string)
    ensures !Contains(s, pat) ==> r == s
    ensures forall k :: FirstOccurrence(s, pat, k) ==> r == s[..k] + rep + s[k + |pat|..]
  {
    match FindFrom(s, pat, 0)
    case None => s
    case Some(k) => s[..k] + rep + s[k + |pat|..]
  }

  function DigitChar(d: nat): char
    requires d < 10
  {
    ('0' as int + d) as char
  }

  /** `str(n)` for a natural number: decimal digits, no leading zero. */
  function NatToDecimal(n: nat): (r: string)
    ensures |r| >= 1
    ensures forall i :: 0 <= i < |r| ==> '0' <= r[i] <= '9'
    ensures n >= 10 ==> |r| >= 2
  {
    if n < 10 then [DigitChar(n)] else NatToDecimal(n / 10) + [DigitChar(n % 10)]
  }

  /** Distinct numbers have distinct decimal renderings. */
  lemma {:induction false} DecimalInjective(a: nat, b: nat)
    requires NatToDecimal(a) == NatToDecimal(b)
    ensures a == b
  {
    if a >= 10 && b >= 10 {
      var x, y := NatToDecimal(a / 10), NatToDecimal(b / 10);
      assert NatToDecimal(a) == x + [DigitChar(a % 10)];
      assert NatToDecimal(b) == y + [DigitChar(b % 10)];
      assert |x| == |y|;
      assert x == NatToDecimal(a)[..|x|];
      assert y == NatToDecimal(b)[..|y|];
      DecimalInjective(a / 10, b / 10);
      assert NatToDecimal(a)[|x|] == DigitChar(a % 10);
      assert NatToDecimal(b)[|y|] == DigitChar(b % 10);
    }
  }

  /** Equal strings with a common prefix and suffix agree in the middle. */
  lemma CancelAffixes(x: string, m: string, n: string, y: string)
    requires x + m + y == x + n + y
    ensures m == n
  {
    assert |m| == |n|;
    assert m == (x + m + y)[|x|..|x| + |m|];
    assert n == (x + n + y)[|x|..|x| + |n|];
  }
}
