/** Decimal text of numbers: `std::to_string` and `std::stoi` as the server uses them. */
module Decimal {

  predicate IsDigit(c: char) {
    '0' <= c <= '9'
  }

  predicate AllDigits(s: string) {
    forall i :: 0 <= i < |s| ==> IsDigit(s[i])
  }

  function DigitChar(d: nat): (c: char)
    requires d < 10
    ensures IsDigit(c) && c as int == '0' as int + d
  {
    ('0' as int + d) as char
  }

  function ToString(n: nat): (s: string)
    ensures s != [] && AllDigits(s)
  {
    if n < 10 then [DigitChar(n)] else ToString(n / 10) + [DigitChar(n % 10)]
  }

  /** `to_string` of a signed number, used for cache keys of unchecked addresses. */
  function IntToString(n: int): string {
    if n < 0 then "-" + ToString(-n) else ToString(n)
  }

  function Stoi(s: string): nat
    requires AllDigits(s)
  {
    if s == [] then 0
    else 10 * Stoi(s[..|s| - 1]) + (s[|s| - 1] as int - '0' as int)
  }

  lemma {:induction false} StoiToString(n: nat)
    ensures Stoi(ToString(n)) == n
  {
    var s := ToString(n);
    if n < 10 {
      assert s[..|s| - 1] == [];
    } else {
      assert s[..|s| - 1] == ToString(n / 10);
      StoiToString(n / 10);
    }
  }

  function Pow10(k: nat): (p: nat)
    ensures p > 0
  {
    if k == 0 then 1 else 10 * Pow10(k - 1)
  }

  /** The digit of weight 10^k. */
  function DigitOf(n: nat, k: nat): nat {
    if k == 0 then n % 10 else DigitOf(n / 10, k - 1)
  }

  /** As many digits as the number has, the most significant first. */
  lemma {:induction false} DigitsOfToString(n: nat)
    ensures var s := ToString(n);
            && n < Pow10(|s|) && (n >= 10 ==> Pow10(|s| - 1) <= n) && (n < 10 ==> |s| == 1)
            && forall k :: 0 <= k < |s| ==> s[|s| - 1 - k] as int == '0' as int + DigitOf(n, k)
  {
    if n >= 10 {
      var s, t := ToString(n), ToString(n / 10);
      DigitsOfToString(n / 10);
      assert Pow10(|s| - 1) == 10 * Pow10(|t| - 1);
      forall k | 0 <= k < |s|
        ensures s[|s| - 1 - k] as int == '0' as int + DigitOf(n, k)
      {
        if k > 0 {
          assert s[|s| - 1 - k] == t[|t| - 1 - (k - 1)];
        }
      }
    } else {
      assert Pow10(1) == 10 * Pow10(0);
    }
  }

  lemma {:induction false} ToStringInjective(m: nat, n: nat)
    requires ToString(m) == ToString(n)
    ensures m == n
  {
    StoiToString(m);
    StoiToString(n);
  }

  lemma {:induction false} IntToStringInjective(m: int, n: int)
    requires IntToString(m) == IntToString(n)
    ensures m == n
  {
    assert (IntToString(m)[0] == '-') == (m < 0);
    assert (IntToString(n)[0] == '-') == (n < 0);
    if m < 0 {
      assert ToString(-m) == IntToString(m)[1..] == IntToString(n)[1..] == ToString(-n);
      ToStringInjective(-m, -n);
    } else {
      ToStringInjective(m, n);
    }
  }
}
