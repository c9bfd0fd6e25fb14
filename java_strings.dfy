/**
 * The handful of java.lang.String and java.lang.Integer operations that the
 * corpus parser and the search driver rely on, over Dafny's `string`: a
 * sequence of Unicode scalar values, where a Java string is a sequence of
 * UTF-16 code units. The two agree on every string without supplementary
 * characters.
 */
module JavaStrings {

  /** A Java reference that may be null. */
  datatype Option<+T> = None | Some(value: T)

  /** `s.startsWith(prefix)` */
  predicate StartsWith(s: string, prefix: string)
  {
    |prefix| <= |s| && s[..|prefix|] == prefix
  }

  /** `String.trim` strips every character whose code is at most U+0020. */
  predicate IsTrimmable(c: char)
  {
    c <= ' '
  }

  /** The number of trimmable characters `s` starts with. */
  function LeadingBlanks(s: string): (n: nat)
    ensures n <= |s|
    ensures forall k :: 0 <= k < n ==> IsTrimmable(s[k])
    ensures n == |s| || !IsTrimmable(s[n])
    decreases |s|
  {
    if s != [] && IsTrimmable(s[0]) then 1 + LeadingBlanks(s[1..]) else 0
  }

  /** The number of trimmable characters `s` ends with. */
  function TrailingBlanks(s: string): (n: nat)
    ensures n <= |s|
    ensures forall k :: |s| - n <= k < |s| ==> IsTrimmable(s[k])
    ensures n == |s| || !IsTrimmable(s[|s| - 1 - n])
    decreases |s|
  {
    if s != [] && IsTrimmable(s[|s| - 1]) then 1 + TrailingBlanks(s[..|s| - 1]) else 0
  }

  /** `s.trim()`: `s` without the trimmable characters at either end. */
  function Trim(s: string): string
  {
    var lo := LeadingBlanks(s);
    if lo == |s| then ""
    else
      var hi := |s| - TrailingBlanks(s);
      assert lo < hi;
      s[lo..hi]
  }

  /**
   * What `trim` promises: its result is the factor of `s` left after cutting
   * trimmable characters at both ends; it neither starts nor ends with one,
   * and it is empty exactly when `s` holds nothing but trimmable characters.
   */
  lemma TrimmedFactor(s: string)
    ensures var r := Trim(s);
      r == [] || (!IsTrimmable(r[0]) && !IsTrimmable(r[|r| - 1]))
    ensures var r, lo := Trim(s), LeadingBlanks(s);
      && lo + |r| <= |s|
      && r == s[lo..lo + |r|]
      && (forall k :: 0 <= k < lo ==> IsTrimmable(s[k]))
      && (forall k :: lo + |r| <= k < |s| ==> IsTrimmable(s[k]))
    ensures Trim(s) == [] <==> forall k :: 0 <= k < |s| ==> IsTrimmable(s[k])
  {
    var lo := LeadingBlanks(s);
    if lo < |s| {
      var hi := |s| - TrailingBlanks(s);
      var r := s[lo..hi];
      assert Trim(s) == r && |r| == hi - lo;
      assert r[0] == s[lo] && r[|r| - 1] == s[hi - 1];
      assert !IsTrimmable(s[lo]);
    }
  }

  /** The decimal digit character for `d`. */
  function DigitChar(d: nat): (c: char)
    requires d < 10
    ensures '0' <= c <= '9' && c as int - '0' as int == d
  {
    (d + '0' as int) as char
  }

  predicate IsDigits(s: string)
  {
    forall k :: 0 <= k < |s| ==> '0' <= s[k] <= '9'
  }

  /** The decimal value of a string of digits, most significant first. */
  function ParseNat(s: string): nat
    requires IsDigits(s)
    decreases |s|
  {
    if s == [] then 0
    else ParseNat(s[..|s| - 1]) * 10 + (s[|s| - 1] as int - '0' as int)
  }

  /**
   * `Integer.toString(n)` for a non-negative `n`: the shortest decimal
   * numeral of `n`, which reads back as `n`.
   */
  function NatToString(n: nat): (r: string)
    ensures r != [] && IsDigits(r)
    ensures r[0] == '0' ==> r == "0"
    ensures ParseNat(r) == n
    decreases n
  {
    if n < 10 then [DigitChar(n)]
    else
      var prefix := NatToString(n / 10);
      var r := prefix + [DigitChar(n % 10)];
      assert r[..|r| - 1] == prefix;
      r
  }
}
