/**
 * Decimal rendering of integers, as std::to_string and an int written to a
 * std::stringstream produce it.
 */
module Text {

  function DigitChar(d: nat): (c: char)
    requires d < 10
    ensures '0' <= c <= '9'
  {
    (d + '0' as int) as char
  }

  predicate IsDecimalDigit(c: char) { '0' <= c <= '9' }

  /** Decimal digits of n, most significant first, without leading zeros. */
  function NatToString(n: nat): (s: string)
    decreases n
  {
    if n < 10 then [DigitChar(n)] else NatToString(n / 10) + [DigitChar(n % 10)]
  }

  /** std::to_string(int): a minus sign, then the digits of the magnitude. */
  function IntToString(i: int): string {
    if i < 0 then "-" + NatToString(-i) else NatToString(i)
  }

  lemma {:induction false} NatToStringShape(n: nat)
    ensures |NatToString(n)| >= 1
    ensures forall k :: 0 <= k < |NatToString(n)| ==> IsDecimalDigit(NatToString(n)[k])
    ensures n >= 10 ==> |NatToString(n)| >= 2
    ensures NatToString(n)[|NatToString(n)| - 1] == DigitChar(n % 10)
    decreases n
  {
    if n >= 10 {
      NatToStringShape(n / 10);
    }
  }

  lemma DigitCharInjective(a: nat, b: nat)
    requires a < 10 && b < 10 && DigitChar(a) == DigitChar(b)
    ensures a == b
  {
  }

  /** Distinct numbers have distinct renderings, so names such as "T" + n are fresh. */
  lemma {:induction false} NatToStringInjective(a: nat, b: nat)
    requires NatToString(a) == NatToString(b)
    ensures a == b
    decreases a
  {
    NatToStringShape(a);
    NatToStringShape(b);
    var s := NatToString(a);
    DigitCharInjective(a % 10, b % 10);
    if a >= 10 && b >= 10 {
      assert NatToString(a / 10) == s[..|s| - 1] == NatToString(b / 10);
      NatToStringInjective(a / 10, b / 10);
    }
  }

  /** The rendering starts with '-' exactly for a negative number. */
  lemma SignShown(i: int)
    ensures |IntToString(i)| > 0 && (i < 0 <==> IntToString(i)[0] == '-')
  {
    NatToStringShape(if i < 0 then -i else i);
    if i >= 0 {
      assert IsDecimalDigit(NatToString(i)[0]);
    }
  }

  lemma IntToStringInjective(a: int, b: int)
    requires IntToString(a) == IntToString(b)
    ensures a == b
  {
    SignShown(a);
    SignShown(b);
    if a < 0 {
      var na, nb := NatToString(-a), NatToString(-b);
      assert IntToString(a) == "-" + na && IntToString(b) == "-" + nb;
      assert na == IntToString(a)[1..] && nb == IntToString(b)[1..];
      NatToStringInjective(-a, -b);
    } else {
      NatToStringInjective(a, b);
    }
  }

  /** The name of the temporary minted from counter value n. */
  function TempName(n: int): string {
    "T" + IntToString(n)
  }

  /** Temporaries minted from different counter values have different names. */
  lemma TempNamesDistinct(m: int, n: int)
    requires m != n
    ensures TempName(m) != TempName(n)
  {
    if TempName(m) == TempName(n) {
      assert IntToString(m) == TempName(m)[1..] == TempName(n)[1..] == IntToString(n);
      IntToStringInjective(m, n);
    }
  }
}
