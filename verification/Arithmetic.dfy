/** 64- and 256-bit numbers, maximum, and floor division by a variable divisor. */
module Arithmetic {

  const U64_MODULUS: nat := 0x1_0000_0000_0000_0000

  type U64 = x: nat | x < U64_MODULUS

  const U256_MODULUS: nat := 0x10000000000000000000000000000000000000000000000000000000000000000

  type U256 = x: nat | x < U256_MODULUS

  function Max(a: int, b: int): int {
    if a >= b then a else b
  }

  /** Floor division; its two bounds determine it. */
  function Div(x: nat, d: nat): (q: nat)
    requires d > 0
    ensures q * d <= x < q * d + d
  {
    x / d
  }

  function Mod(x: nat, d: nat): (r: nat)
    requires d > 0
    ensures r < d && x == Div(x, d) * d + r
  {
    x % d
  }

  lemma ScaledIsMonotone(x: int, y: int, scale: nat)
    requires x <= y
    ensures x * scale <= y * scale
  {
    assert (y - x) * scale >= 0;
  }

  lemma DivIsUnique(x: nat, d: nat, k: nat)
    requires d > 0 && k * d <= x < k * d + d
    ensures Div(x, d) == k
  {
    hide Div;
    var q := Div(x, d);
    if q < k {
      ScaledIsMonotone(q + 1, k, d);
    } else if q > k {
      ScaledIsMonotone(k + 1, q, d);
    }
  }

  lemma DivIsMonotone(x: nat, y: nat, d: nat)
    requires x <= y && d > 0
    ensures Div(x, d) <= Div(y, d)
  {
    hide Div;
    var p, q := Div(x, d), Div(y, d);
    if p > q {
      ScaledIsMonotone(q + 1, p, d);
    }
  }

  lemma DivideTwice(x: nat, a: nat, b: nat)
    requires a > 0 && b > 0
    ensures a * b > 0 && Div(Div(x, a), b) == Div(x, a * b)
  {
    hide Div;
    var q := Div(x, a);
    var k := Div(q, b);
    assert k * (a * b) == k * b * a;
    ScaledIsMonotone(k * b, q, a);
    ScaledIsMonotone(q + 1, k * b + b, a);
    assert (k * b + b) * a == k * (a * b) + a * b;
    ScaledIsMonotone(1, a, b);
    DivIsUnique(x, a * b, k);
  }

  lemma DivIsBelow(x: nat, d: nat, bound: nat)
    requires d > 0 && x < bound * d
    ensures Div(x, d) < bound
  {
    hide Div;
    if bound <= Div(x, d) {
      ScaledIsMonotone(bound, Div(x, d), d);
    }
  }

  lemma RemaindersOfClose(low: nat, high: nat, m: nat)
    requires m > 0 && low <= high < low + m
    ensures Div(low, m) == Div(high, m) ==> Mod(high, m) - Mod(low, m) == high - low
    ensures Div(low, m) != Div(high, m) ==> Mod(high, m) - Mod(low, m) == high - low - m
  {
    hide Div, Mod;
    var p, q := Div(low, m), Div(high, m);
    DivIsMonotone(low, high, m);
    if q > p + 1 {
      ScaledIsMonotone(p + 2, q, m);
    } else if q == p + 1 {
      assert q * m == p * m + m;
    }
  }

  /** Two numbers less than a modulus apart: their remainders, raised to a minimum, are
      ordered as they are if and only if the numbers have the same quotient. */
  lemma RemaindersCompare(low: nat, high: nat, m: nat, minimum: nat)
    requires m > 0 && low <= high && high - low + minimum < m
    ensures Max(minimum, Mod(low, m)) <= Max(minimum, Mod(high, m)) <==> Div(low, m) == Div(high, m)
    ensures Max(minimum, Mod(high, m)) <= Max(minimum, Mod(low, m))
       <==> Div(low, m) != Div(high, m) || low == high || Mod(high, m) <= minimum
  {
    RemaindersOfClose(low, high, m);
    RemainderBounds(low, m);
    RemainderBounds(high, m);
    hide *;
    RaisedCompare(Mod(low, m), Mod(high, m), minimum);
  }

  lemma RemainderBounds(x: nat, m: nat)
    requires m > 0
    ensures 0 <= Mod(x, m) < m
  {
  }

  lemma RaisedCompare(x: nat, y: nat, minimum: nat)
    ensures Max(minimum, x) <= Max(minimum, y) <==> x <= y || x <= minimum
    ensures Max(minimum, y) <= Max(minimum, x) <==> y <= x || y <= minimum
  {
  }
}
