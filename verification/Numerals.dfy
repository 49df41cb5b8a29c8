/**
 Zero-padded fixed-width numbers, as fmt prints them for %020d and %016x.
 */
module Numerals {
  import opened Lex

  const UINT64: nat := 0x1_0000_0000_0000_0000

  datatype Base = Decimal | Hex {
    function Times(n: nat): nat { if this == Decimal then 10 * n else 16 * n }
    function Quot(n: nat): nat { if this == Decimal then n / 10 else n / 16 }
    function Rem(n: nat): (r: nat)
      ensures r < 16
    { if this == Decimal then n % 10 else n % 16 }
  }

  function DigitOf(d: nat): char
    requires d < 16
  {
    if d < 10 then ('0' as int + d) as char else ('a' as int + d - 10) as char
  }

  /** The w lowest digits of n. */
  function Digits(n: nat, b: Base, w: nat): (r: string)
    ensures |r| == w
    decreases w, n
  {
    if w == 0 then "" else Digits(b.Quot(n), b, w - 1) + [DigitOf(b.Rem(n))]
  }

  function Pow(b: Base, w: nat): nat {
    if w == 0 then 1 else b.Times(Pow(b, w - 1))
  }

  lemma {:induction false} QuotientBelow(b: Base, n: nat, p: nat)
    requires n < b.Times(p)
    ensures b.Quot(n) < p
  {
  }

  /** The order of two numbers from their quotients and remainders. */
  lemma {:induction false} QuotientDecides(b: Base, m: nat, n: nat)
    ensures m < n <==> b.Quot(m) < b.Quot(n) || (b.Quot(m) == b.Quot(n) && b.Rem(m) < b.Rem(n))
    ensures b.Quot(m) == b.Quot(n) && b.Rem(m) == b.Rem(n) ==> m == n
  {
  }

  lemma {:induction false} SnocOrder(p: string, q: string, d: nat, e: nat)
    requires |p| == |q| && d < 16 && e < 16
    ensures Less(p + [DigitOf(d)], q + [DigitOf(e)]) <==> if p == q then d < e else Less(p, q)
    ensures p + [DigitOf(d)] == q + [DigitOf(e)] ==> p == q && d == e
  {
    var x, y := [DigitOf(d)], [DigitOf(e)];
    assert (p + x)[..|p|] == p && (q + y)[..|q|] == q && (p + x)[|p|] == x[0] && (q + y)[|q|] == y[0];
    if p == q {
      CommonPrefix(p, x, y);
      assert x[1..] == "" == y[1..];
      assert Less(x, y) <==> x[0] < y[0];
    } else {
      HeadDecides(p, q, x, y);
    }
  }

  /** Zero-padded numbers of one width sort as strings the way they sort as numbers. */
  lemma {:induction false} DigitsOrder(m: nat, n: nat, b: Base, w: nat)
    requires m < Pow(b, w) && n < Pow(b, w)
    ensures Less(Digits(m, b, w), Digits(n, b, w)) <==> m < n
    ensures Digits(m, b, w) == Digits(n, b, w) ==> m == n
    decreases w
  {
    if w > 0 {
      QuotientBelow(b, m, Pow(b, w - 1));
      QuotientBelow(b, n, Pow(b, w - 1));
      QuotientDecides(b, m, n);
      var p, q := Digits(b.Quot(m), b, w - 1), Digits(b.Quot(n), b, w - 1);
      DigitsOrder(b.Quot(m), b.Quot(n), b, w - 1);
      SnocOrder(p, q, b.Rem(m), b.Rem(n));
      if p == q { Irreflexive(p); }
    }
  }
}
