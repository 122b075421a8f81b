/** Counter-derived identifiers: a fixed prefix followed by a decimal counter. */
module Decimal {

  function Digit(d: nat): (c: char)
    requires d < 10
  {
    ['0', '1', '2', '3', '4', '5', '6', '7', '8', '9'][d]
  }

  function Numeral(n: nat): (s: string)
    ensures s != []
  {
    if n < 10 then [Digit(n)] else Numeral(n / 10) + [Digit(n % 10)]
  }

  function DigitValue(c: char): nat {
    if '0' <= c <= '9' then c as nat - '0' as nat else 0
  }

  function Value(s: string): nat {
    if s == "" then 0 else 10 * Value(s[..|s| - 1]) + DigitValue(s[|s| - 1])
  }

  // A numeral reads back as its number, and has no leading zero.
  lemma {:induction false} NumeralReadsBack(n: nat)
    ensures Value(Numeral(n)) == n
    ensures n > 0 ==> Numeral(n)[0] != '0'
  {
    if n < 10 {
      assert Value([Digit(n)][..0]) == 0;
    } else {
      NumeralReadsBack(n / 10);
      assert (Numeral(n / 10) + [Digit(n % 10)])[..|Numeral(n / 10)|] == Numeral(n / 10);
    }
  }

  // The identifier that formatting `{prefix}-{n}` yields.
  function Id(prefix: string, n: nat): string {
    prefix + "-" + Numeral(n)
  }

  lemma {:induction false} NumeralInjective(m: nat, n: nat)
    requires Numeral(m) == Numeral(n)
    ensures m == n
  {
    var s := Numeral(m);
    assert s[|s| - 1] == Digit(m % 10) == Digit(n % 10);
    if m < 10 || n < 10 {
      assert m < 10 ==> |s| == 1;
      assert n < 10 ==> |s| == 1;
    } else {
      assert Numeral(m / 10) == s[..|s| - 1] == Numeral(n / 10);
      NumeralInjective(m / 10, n / 10);
    }
  }

  lemma IdInjective(prefix: string, m: nat, n: nat)
    requires Id(prefix, m) == Id(prefix, n)
    ensures m == n
  {
    var head := prefix + "-";
    assert Numeral(m) == Id(prefix, m)[|head|..] == Numeral(n);
    NumeralInjective(m, n);
  }
}
