/** String helpers standing for the .NET string operations the core uses:
    ordinal case-insensitive comparison (modelled as ASCII case folding),
    `string.IsNullOrWhiteSpace`, prefix and substring tests, and invariant
    decimal formatting of integers. */
module Text {
  import opened Wrappers

  /** `char.IsWhiteSpace`: the ASCII and Unicode space characters. */
  predicate IsWhiteSpace(c: char) {
    c == ' ' || ('\t' <= c <= '\r') || c == '\U{85}' || c == '\U{A0}' || c == '\U{1680}'
    || ('\U{2000}' <= c <= '\U{200A}') || c == '\U{2028}' || c == '\U{2029}'
    || c == '\U{202F}' || c == '\U{205F}' || c == '\U{3000}'
  }

  /** `string.IsNullOrWhiteSpace` for a non-null string. */
  predicate IsBlank(s: string) {
    forall i :: 0 <= i < |s| ==> IsWhiteSpace(s[i])
  }

  /** `string.IsNullOrWhiteSpace` for a nullable string. */
  predicate IsNullOrBlank(s: Option<string>) {
    s.None? || IsBlank(s.value)
  }

  function LowerChar(c: char): (r: char)
    ensures 'A' <= c <= 'Z' ==> 'a' <= r <= 'z'
    ensures !('A' <= c <= 'Z') ==> r == c
  {
    if 'A' <= c <= 'Z' then (c as int + 32) as char else c
  }

  /** Case folding as used by `StringComparison.OrdinalIgnoreCase` and
      `ToLowerInvariant`, restricted to ASCII letters. */
  function Lower(s: string): (r: string)
    ensures |r| == |s|
    ensures forall i :: 0 <= i < |s| ==> r[i] == LowerChar(s[i])
  {
    seq(|s|, i requires 0 <= i < |s| => LowerChar(s[i]))
  }

  /** Text without upper-case ASCII letters is its own folding. */
  lemma LowerIsIdentity(s: string)
    requires forall i :: 0 <= i < |s| ==> !('A' <= s[i] <= 'Z')
    ensures Lower(s) == s
  {
  }

  lemma LowerAppend(a: string, b: string)
    ensures Lower(a + b) == Lower(a) + Lower(b)
  {
  }

  lemma LowerSlice(s: string, i: int, j: int)
    requires 0 <= i <= j <= |s|
    ensures Lower(s[i..j]) == Lower(s)[i..j]
  {
  }

  /** `string.Equals(a, b, StringComparison.OrdinalIgnoreCase)`. */
  predicate EqualsIgnoreCase(a: string, b: string) {
    Lower(a) == Lower(b)
  }

  predicate IsPrefix(p: string, s: string) {
    |p| <= |s| && s[..|p|] == p
  }

  /** `s.StartsWith(p, StringComparison.OrdinalIgnoreCase)`. */
  predicate StartsWithIgnoreCase(s: string, p: string) {
    IsPrefix(Lower(p), Lower(s))
  }

  /** `s.StartsWith(p, StringComparison.Ordinal)`. */
  predicate StartsWithOrdinal(s: string, p: string) {
    IsPrefix(p, s)
  }

  predicate IsInfix(n: string, s: string) {
    exists i :: 0 <= i <= |s| - |n| && IsPrefix(n, s[i..])
  }

  /** `s.Contains(n, StringComparison.OrdinalIgnoreCase)`. */
  predicate ContainsIgnoreCase(s: string, n: string) {
    IsInfix(Lower(n), Lower(s))
  }

  /** `n` occurs in `s` at position `i`, ignoring case. */
  predicate OccursAt(s: string, n: string, i: int) {
    0 <= i && i + |n| <= |s| && EqualsIgnoreCase(s[i..i + |n|], n)
  }

  /** The case-insensitive substring test finds `n` exactly when some window
      of `s` equals `n` up to case. */
  lemma ContainsIgnoreCaseMeans(s: string, n: string)
    ensures ContainsIgnoreCase(s, n) <==> exists i :: OccursAt(s, n, i)
  {
    if ContainsIgnoreCase(s, n) {
      var i :| 0 <= i <= |Lower(s)| - |Lower(n)| && IsPrefix(Lower(n), Lower(s)[i..]);
      LowerSlice(s, i, i + |n|);
      assert OccursAt(s, n, i);
    }
    if exists i :: OccursAt(s, n, i) {
      var i :| OccursAt(s, n, i);
      LowerSlice(s, i, i + |n|);
      assert Lower(s)[i..][..|n|] == Lower(s)[i..i + |n|];
      assert 0 <= i <= |Lower(s)| - |Lower(n)| && IsPrefix(Lower(n), Lower(s)[i..]);
    }
  }

  /** The case-insensitive prefix test compares the first |p| characters. */
  lemma StartsWithIgnoreCaseMeans(s: string, p: string)
    ensures StartsWithIgnoreCase(s, p) <==> |p| <= |s| && EqualsIgnoreCase(s[..|p|], p)
  {
    if |p| <= |s| {
      LowerSlice(s, 0, |p|);
      assert s[0..|p|] == s[..|p|];
    }
  }

  // ------------------------------------------------------------------
  // Invariant-culture decimal formatting (`int.ToString()`, `long.ToString()`)
  // ------------------------------------------------------------------

  predicate IsDigit(c: char) {
    '0' <= c <= '9'
  }

  function DigitChar(d: nat): (c: char)
    requires d < 10
    ensures IsDigit(c)
  {
    ('0' as int + d) as char
  }

  function NatToString(n: nat): (r: string)
    ensures |r| >= 1
    ensures forall i :: 0 <= i < |r| ==> IsDigit(r[i])
    ensures (|r| == 1) == (n < 10)
  {
    if n < 10 then [DigitChar(n)] else NatToString(n / 10) + [DigitChar(n % 10)]
  }

  function IntToString(n: int): (r: string)
    ensures |r| >= 1
  {
    if n < 0 then "-" + NatToString(-n) else NatToString(n)
  }

  /** Distinct numbers have distinct decimal texts. */
  lemma {:induction false} NatToStringInjective(a: nat, b: nat)
    requires NatToString(a) == NatToString(b)
    ensures a == b
  {
    var sa, sb := NatToString(a), NatToString(b);
    if a >= 10 && b >= 10 {
      assert sa[|sa| - 1] == DigitChar(a % 10) && sb[|sb| - 1] == DigitChar(b % 10);
      assert NatToString(a / 10) == sa[..|sa| - 1] == sb[..|sb| - 1] == NatToString(b / 10);
      NatToStringInjective(a / 10, b / 10);
    }
  }

  /** The text of a number starts with '-' exactly when it is negative. */
  lemma IntToStringSign(n: int)
    ensures (IntToString(n)[0] == '-') == (n < 0)
  {
  }

  lemma IntToStringInjective(a: int, b: int)
    requires IntToString(a) == IntToString(b)
    ensures a == b
  {
    IntToStringSign(a);
    IntToStringSign(b);
    if a < 0 && b < 0 {
      assert NatToString(-a) == IntToString(a)[1..] == IntToString(b)[1..] == NatToString(-b);
      NatToStringInjective(-a, -b);
    } else if a >= 0 && b >= 0 {
      NatToStringInjective(a, b);
    }
  }

  /** Left padding with a fill character, as `"D2"`/`"0000"` format strings do. */
  function PadLeft(s: string, width: nat, fill: char): (r: string)
    ensures |r| == if |s| < width then width else |s|
    ensures IsPrefix(s, r[|r| - |s|..])
  {
    if |s| < width then seq(width - |s|, _ => fill) + s else s
  }
}
