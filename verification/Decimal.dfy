/** Decimal numerals, as strconv and fmt print them. */
module Decimal {

  predicate IsDigit(c: char) {
    '0' <= c <= '9'
  }

  predicate AllDigits(s: string) {
    forall i :: 0 <= i < |s| ==> IsDigit(s[i])
  }

  function Numeral(n: nat): (s: string)
    ensures s != "" && AllDigits(s)
  {
    var last := ['0' + (n % 10) as char];
    if n < 10 then last else Numeral(n / 10) + last
  }

  function Signed(n: int): string {
    if n < 0 then "-" + Numeral(-n) else Numeral(n)
  }

  function Value(s: string): nat
    requires AllDigits(s)
  {
    if s == "" then 0 else 10 * Value(s[..|s| - 1]) + (s[|s| - 1] - '0') as nat
  }

  lemma {:induction false} NumeralRoundTrip(n: nat)
    ensures Value(Numeral(n)) == n
  {
    var s := Numeral(n);
    if n < 10 {
      assert s[..|s| - 1] == "";
    } else {
      NumeralRoundTrip(n / 10);
      assert s[..|s| - 1] == Numeral(n / 10);
    }
  }

  lemma {:induction false} NumeralInjective(m: nat, n: nat)
    requires Numeral(m) == Numeral(n)
    ensures m == n
  {
    NumeralRoundTrip(m);
    NumeralRoundTrip(n);
  }

  lemma {:induction false} SignedInjective(m: int, n: int)
    requires Signed(m) == Signed(n)
    ensures m == n
  {
    assert m < 0 ==> Signed(m)[0] == '-';
    assert n < 0 ==> Signed(n)[0] == '-';
    assert m >= 0 ==> IsDigit(Signed(m)[0]);
    assert n >= 0 ==> IsDigit(Signed(n)[0]);
    if m < 0 {
      assert Signed(m)[1..] == Numeral(-m) && Signed(n)[1..] == Numeral(-n);
      NumeralInjective(-m, -n);
    } else {
      NumeralInjective(m, n);
    }
  }

  function Pow10(k: nat): (p: nat)
    ensures p > 0
  {
    if k == 0 then 1 else 10 * Pow10(k - 1)
  }

  lemma {:induction false} DivideTwice(n: nat, p: nat)
    requires p > 0
    ensures (n / 10) / p == n / (10 * p)
  {
    var q, r := n / 10, n % 10;
    var a, b := q / p, q % p;
    assert n == 10 * q + r && q == p * a + b;
    ExactQuotient(n, 10 * p, a, 10 * b + r);
  }

  lemma {:induction false} ExactQuotient(n: nat, d: nat, q: nat, r: nat)
    requires d > 0 && n == d * q + r && r < d
    ensures n / d == q
  {
    if n / d > q {
      Multiple(d, n / d, q + 1);
    } else if n / d < q {
      Multiple(d, q, n / d + 1);
    }
  }

  lemma {:induction false} Multiple(d: nat, a: nat, b: nat)
    requires a >= b
    ensures d * a >= d * b
  {
  }

  /** The digits, counted from the right, are those of the number, and the first is not an idle 0. */
  lemma {:induction false} NumeralDigits(n: nat, k: nat)
    requires k < |Numeral(n)|
    ensures var s := Numeral(n); s[|s| - 1 - k] == '0' + ((n / Pow10(k)) % 10) as char
    ensures Numeral(n)[0] == '0' ==> n == 0
    ensures n < Pow10(|Numeral(n)|)
    decreases n
  {
    if n >= 10 {
      var front := Numeral(n / 10);
      NumeralDigits(n / 10, if k == 0 then 0 else k - 1);
      assert Numeral(n)[0] == front[0];
      if k > 0 {
        DivideTwice(n, Pow10(k - 1));
        assert Numeral(n)[|front| - k] == front[|front| - 1 - (k - 1)];
      }
    } else {
      assert |Numeral(n)| == 1 && Pow10(0) == 1 && Pow10(1) == 10;
    }
  }
}
