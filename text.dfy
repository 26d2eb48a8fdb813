/**
 * Python's `str()` of an integer and `"sep".join(parts)`, the two string
 * operations the unique ids and the model name are built from.
 */
module Text {

  predicate IsDigit(c: char)
  {
    '0' <= c <= '9'
  }

  function DigitChar(d: nat): (c: char)
    requires d < 10
    ensures IsDigit(c)
  {
    "0123456789"[d]
  }

  /** The decimal notation of `n`, as `str(n)` prints it. */
  function NatToString(n: nat): (s: string)
    ensures |s| >= 1
    ensures forall i :: 0 <= i < |s| ==> IsDigit(s[i])
  {
    if n < 10 then [DigitChar(n)] else NatToString(n / 10) + [DigitChar(n % 10)]
  }

  /** `str(i)` for any integer: a minus sign before the digits of `-i`. */
  function IntToString(i: int): string
  {
    if i < 0 then "-" + NatToString(-i) else NatToString(i)
  }

  /** Distinct numbers have distinct decimal notations. */
  lemma {:induction false} NatToStringInjective(a: nat, b: nat)
    requires NatToString(a) == NatToString(b)
    ensures a == b
  {
    var sa, sb := NatToString(a), NatToString(b);
    if a < 10 && b < 10 {
      assert "0123456789"[a] == sa[0] == sb[0] == "0123456789"[b];
    } else if a >= 10 && b >= 10 {
      var n := |sa| - 1;
      assert sa[n] == DigitChar(a % 10) && sb[n] == DigitChar(b % 10);
      assert "0123456789"[a % 10] == "0123456789"[b % 10];
      assert sa[..n] == NatToString(a / 10) && sb[..n] == NatToString(b / 10);
      NatToStringInjective(a / 10, b / 10);
    }
  }

  predicate AllDigits(s: string)
  {
    forall i :: 0 <= i < |s| ==> IsDigit(s[i])
  }

  /**
   * A run of digits followed by a text that starts with a non-digit is
   * split in one way only: the digits end where the first non-digit is.
   */
  lemma DigitsPrefixUnique(d1: string, r1: string, d2: string, r2: string)
    requires AllDigits(d1) && AllDigits(d2)
    requires r1 != [] && !IsDigit(r1[0]) && r2 != [] && !IsDigit(r2[0])
    requires d1 + r1 == d2 + r2
    ensures d1 == d2 && r1 == r2
  {
    assert d1 == (d1 + r1)[..|d1|] && d2 == (d2 + r2)[..|d2|];
    assert r1 == (d1 + r1)[|d1|..] && r2 == (d2 + r2)[|d2|..];
  }

  /** `sep.join(parts)`. */
  function Join(sep: string, parts: seq<string>): string
  {
    if parts == [] then ""
    else if |parts| == 1 then parts[0]
    else parts[0] + sep + Join(sep, parts[1..])
  }
}
