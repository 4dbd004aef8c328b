/** Decimal numerals, as digits, as text and as bytes. */
module Decimals {

  newtype byte = b: int | 0 <= b < 256

  type Bytes = seq<byte>

  /** The decimal digits of a number, most significant first, without leading zeros. */
  function Digits(n: nat): (d: seq<nat>)
    ensures |d| > 0 && forall k :: 0 <= k < |d| ==> d[k] < 10
  {
    if n < 10 then [n] else Digits(n / 10) + [n % 10]
  }

  function Value(d: seq<nat>): nat {
    if |d| == 0 then 0 else Value(d[..|d| - 1]) * 10 + d[|d| - 1]
  }

  lemma {:induction false} DigitsHaveValue(n: nat)
    ensures Value(Digits(n)) == n
  {
    if n >= 10 {
      DigitsHaveValue(n / 10);
      assert Digits(n)[..|Digits(n)| - 1] == Digits(n / 10);
    } else {
      assert [n][..0] == [];
    }
  }

  function Text(n: nat): (t: string)
    ensures |t| > 0
  {
    seq(|Digits(n)|, k requires 0 <= k < |Digits(n)| => '0' + Digits(n)[k] as char)
  }

  function Numeral(n: nat): (b: Bytes)
    ensures |b| > 0 && forall k :: 0 <= k < |b| ==> 48 <= b[k] <= 57
  {
    seq(|Digits(n)|, k requires 0 <= k < |Digits(n)| => 48 + Digits(n)[k] as byte)
  }

  /** Different numbers have different texts. */
  lemma TextsDiffer(a: nat, b: nat)
    requires Text(a) == Text(b)
    ensures a == b
  {
    var d, e := Digits(a), Digits(b);
    assert |d| == |Text(a)| && |e| == |Text(b)|;
    forall k | 0 <= k < |d| ensures d[k] == e[k] {
      assert Text(a)[k] == '0' + d[k] as char && Text(b)[k] == '0' + e[k] as char;
    }
    assert d == e;
    DigitsHaveValue(a);
    DigitsHaveValue(b);
  }

  lemma NumeralsDiffer(a: nat, b: nat)
    requires Numeral(a) == Numeral(b)
    ensures a == b
  {
    var d, e := Digits(a), Digits(b);
    assert |d| == |Numeral(a)| && |e| == |Numeral(b)|;
    forall k | 0 <= k < |d| ensures d[k] == e[k] {
      assert Numeral(a)[k] == 48 + d[k] as byte && Numeral(b)[k] == 48 + e[k] as byte;
    }
    assert d == e;
    DigitsHaveValue(a);
    DigitsHaveValue(b);
  }
}
