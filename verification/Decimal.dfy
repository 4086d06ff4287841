/** Rendering of wei amounts with at most four decimals. */
module Decimal {
  import opened Arithmetic
  import opened Prelude

  const MAX_DECIMALS: nat := 4

  /** The code subtracts four from the exponent, and computes ten to that power in 256
      bits: `PowersFit`. */
  type Exponent = e: nat | 4 <= e <= 77 witness 4

  function Pow10(n: nat): (r: nat)
    ensures r > 0
  {
    if n == 0 then 1 else 10 * Pow10(n - 1)
  }

  type Digit = c: char | '0' <= c <= '9' witness '0'

  function DigitOf(d: nat): Digit
    requires d < 10
  {
    '0' + d as char
  }

  function ValueOf(c: Digit): nat {
    (c - '0') as nat
  }

  /** The decimal numeral of `n`, as `to_string` writes it. */
  function Numeral(n: nat): (r: seq<Digit>)
    ensures r != []
    ensures n > 0 ==> ValueOf(r[0]) > 0
  {
    if n < 10 then [DigitOf(n)] else Numeral(n / 10) + [DigitOf(n % 10)]
  }

  /** The number a digit string stands for. */
  function Parse(s: seq<Digit>): nat {
    if s == [] then 0 else 10 * Parse(s[..|s| - 1]) + ValueOf(s[|s| - 1])
  }

  function TrimZeros(s: seq<Digit>): seq<Digit> {
    if s == [] || s[|s| - 1] != '0' then s else TrimZeros(s[..|s| - 1])
  }

  /** The four-digit fraction of value / 10^exponent, truncated. */
  function Fraction(value: U256, exponent: Exponent): nat {
    Div(Mod(value, Pow10(exponent)), Pow10(exponent - MAX_DECIMALS))
  }

  function ToDecimalString(value: U256, exponent: Exponent): string {
    var whole := Div(value, Pow10(exponent));
    var decimal := Fraction(value, exponent);
    Numeral(whole) + "." + TrimZeros(Numeral(decimal))
  }

  // ----- what a text denotes -----

  /** The position of the first dot. */
  function DotAt(s: string): (i: nat)
    ensures i <= |s|
    ensures forall j | 0 <= j < i :: s[j] != '.'
    ensures i < |s| ==> s[i] == '.'
  {
    if s == "" || s[0] == '.' then 0 else 1 + DotAt(s[1..])
  }

  predicate AllDigits(s: string) {
    forall k | 0 <= k < |s| :: '0' <= s[k] <= '9'
  }

  /** The number a text with at most four decimals denotes, in units of 10^-4: digits, a
      dot, digits. */
  function Denotation(s: string): Option<nat> {
    var i := DotAt(s);
    if i == 0 || i == |s| || !AllDigits(s[..i]) || !AllDigits(s[i + 1..]) || |s| - i - 1 > MAX_DECIMALS then None
    else Some(Denoted(s[..i], s[i + 1..]))
  }

  function Denoted(whole: seq<Digit>, decimals: seq<Digit>): nat
    requires |decimals| <= MAX_DECIMALS
  {
    Parse(whole) * 10_000 + Parse(decimals) * Pow10(MAX_DECIMALS - |decimals|)
  }

  /** There is one way to read digits, a dot and digits. */
  lemma ReadingIsUnique(whole: seq<Digit>, decimals: seq<Digit>)
    requires whole != [] && |decimals| <= MAX_DECIMALS
    ensures Denotation(whole + "." + decimals) == Some(Denoted(whole, decimals))
  {
    hide Denoted;
    var s: string := whole + "." + decimals;
    assert forall j | 0 <= j < |whole| :: s[j] == whole[j];
    assert s[|whole|] == '.';
    assert DotAt(s) == |whole|;
    assert s[..|whole|] == whole && s[|whole| + 1..] == decimals;
  }

  lemma {:induction false} ParseNumeral(n: nat)
    ensures Parse(Numeral(n)) == n
  {
    if n >= 10 {
      ParseNumeral(n / 10);
      assert Numeral(n)[..|Numeral(n)| - 1] == Numeral(n / 10);
    } else {
      assert Numeral(n)[..0] == [];
    }
  }

  lemma {:induction false} NumeralLength(n: nat, k: nat)
    requires n > 0
    ensures |Numeral(n)| <= k <==> n < Pow10(k)
  {
    if n < 10 {
      if k > 0 {
        Pow10Grows(1, k);
      }
    } else if k > 0 {
      NumeralLength(n / 10, k - 1);
    }
  }

  lemma {:induction false} Pow10Grows(m: nat, n: nat)
    requires m <= n
    ensures Pow10(m) <= Pow10(n)
  {
    if m < n {
      Pow10Grows(m, n - 1);
    }
  }

  /** Trimming zeros scales the number by the zeros trimmed. */
  lemma {:induction false} TrimScales(s: seq<Digit>)
    ensures |TrimZeros(s)| <= |s| && TrimZeros(s) == s[..|TrimZeros(s)|]
    ensures Parse(s) == Parse(TrimZeros(s)) * Pow10(|s| - |TrimZeros(s)|)
  {
    if s != [] && s[|s| - 1] == '0' {
      var shorter := s[..|s| - 1];
      TrimScales(shorter);
      var zeros := |shorter| - |TrimZeros(shorter)|;
      assert Parse(s) == 10 * Parse(shorter);
      assert Pow10(zeros + 1) == 10 * Pow10(zeros);
      ScaleByTen(Parse(TrimZeros(s)), Pow10(zeros));
    } else {
      assert s[..|s|] == s;
    }
  }

  lemma ScaleByTen(x: nat, y: nat)
    ensures 10 * (x * y) == x * (10 * y)
  {
  }

  lemma TrimIsShortest(s: seq<Digit>)
    ensures var t := TrimZeros(s); t == [] || t[|t| - 1] != '0'
  {
  }

  lemma FourPlaces(exponent: Exponent)
    ensures Pow10(exponent) == 10_000 * Pow10(exponent - 4)
  {
    assert Pow10(exponent) == 10 * Pow10(exponent - 1);
    assert Pow10(exponent - 1) == 10 * Pow10(exponent - 2);
    assert Pow10(exponent - 2) == 10 * Pow10(exponent - 3);
    assert Pow10(exponent - 3) == 10 * Pow10(exponent - 4);
  }

  /** Whole part and fraction together are the value in units of 10^-4, truncated. */
  lemma WholeAndFraction(value: U256, exponent: Exponent)
    ensures Div(value, Pow10(exponent - 4)) == Div(value, Pow10(exponent)) * 10_000 + Fraction(value, exponent)
  {
    hide Pow10, Div, Mod;
    FourPlaces(exponent);
    var small := Pow10(exponent - 4);
    var whole, fraction := Div(value, Pow10(exponent)), Fraction(value, exponent);
    assert (whole * 10_000 + fraction) * small == whole * (10_000 * small) + fraction * small;
    DivIsUnique(value, small, whole * 10_000 + fraction);
  }

  lemma FractionHasFourDigits(value: U256, exponent: Exponent)
    ensures Fraction(value, exponent) < 10_000
  {
    hide Pow10, Div, Mod;
    FourPlaces(exponent);
    DivIsBelow(Mod(value, Pow10(exponent)), Pow10(exponent - 4), 10_000);
  }

  /**
    * The text always reads as a number with at most four decimals and never ends in a zero.
    * It denotes value / 10^exponent truncated to four decimals exactly when the four-digit
    * fraction is zero or has no leading zero: leading zeros of the fraction are lost.
    */
  lemma DecimalStringIsTruncationIff(value: U256, exponent: Exponent)
    ensures var text := ToDecimalString(value, exponent);
            && Denotation(text).Some?
            && text[|text| - 1] != '0'
            && (Denotation(text) == Some(Div(value, Pow10(exponent - MAX_DECIMALS)))
                <==> Fraction(value, exponent) == 0 || Fraction(value, exponent) >= 1000)
  {
    hide Numeral, TrimZeros, Denotation, Denoted, Fraction, Div, Pow10;
    var whole, fraction := Div(value, Pow10(exponent)), Fraction(value, exponent);
    FractionHasFourDigits(value, exponent);
    WholeAndFraction(value, exponent);
    DenotedIff(whole, fraction);
    ReadingIsUnique(Numeral(whole), TrimZeros(Numeral(fraction)));
  }

  lemma DenotedIff(whole: nat, fraction: nat)
    requires fraction < 10_000
    ensures var decimals := TrimZeros(Numeral(fraction));
            && |decimals| <= MAX_DECIMALS
            && (decimals == [] || decimals[|decimals| - 1] != '0')
            && (Denoted(Numeral(whole), decimals) == whole * 10_000 + fraction <==> fraction == 0 || fraction >= 1000)
  {
    hide Numeral, Parse, TrimZeros;
    var digits := Numeral(fraction);
    ParseNumeral(whole);
    ParseNumeral(fraction);
    TrimScales(digits);
    TrimIsShortest(digits);
    FractionDigits(fraction);
    PaddedFractionIff(fraction, |digits|, Parse(TrimZeros(digits)), |TrimZeros(digits)|);
  }

  lemma FractionDigits(fraction: nat)
    requires fraction < 10_000
    ensures 1 <= |Numeral(fraction)| <= 4
    ensures fraction >= 1000 <==> |Numeral(fraction)| == 4
  {
    PowersOfTen();
    hide Pow10;
    if fraction > 0 {
      NumeralLength(fraction, 4);
      NumeralLength(fraction, 3);
    }
  }

  lemma PowersOfTen()
    ensures Pow10(0) == 1 && Pow10(1) == 10 && Pow10(2) == 100 && Pow10(3) == 1000 && Pow10(4) == 10_000
  {
    assert Pow10(2) == 100;
    assert Pow10(3) == 1000;
  }

  /** `short` digits read as `trimmed`, out of `length` digits that read as `fraction`. */
  lemma PaddedFractionIff(fraction: nat, length: nat, trimmed: nat, short: nat)
    requires 1 <= length <= 4 && short <= length && (fraction >= 1000 <==> length == 4)
    requires fraction == trimmed * Pow10(length - short)
    ensures trimmed * Pow10(4 - short) == fraction <==> fraction == 0 || fraction >= 1000
  {
    PowersOfTen();
    hide Pow10;
    Pow10Adds(length - short, 4 - length);
    var p := Pow10(4 - length);
    assert trimmed * Pow10(4 - short) == fraction * p by {
      assert trimmed * (Pow10(length - short) * p) == trimmed * Pow10(length - short) * p;
    }
    if length < 4 && fraction > 0 {
      assert p >= 10;
      assert fraction * p >= fraction * 10;
    }
  }

  lemma {:induction false} Pow10Adds(m: nat, n: nat)
    ensures Pow10(m + n) == Pow10(m) * Pow10(n)
  {
    if m > 0 {
      Pow10Adds(m - 1, n);
      ScaleByTen(Pow10(n), Pow10(m - 1));
    }
  }

  /** 77 is the largest exponent whose power of ten is a 256-bit number. */
  lemma PowersFit()
    ensures Pow10(77) < U256_MODULUS <= Pow10(78)
  {
    PowersOfTen();
    hide Pow10;
    Pow10Adds(4, 4);
    Pow10Adds(8, 8);
    Pow10Adds(16, 3);
    Pow10Adds(19, 19);
    Pow10Adds(38, 38);
    Pow10Adds(76, 1);
    Pow10Adds(76, 2);
  }

  lemma Render(value: U256, exponent: Exponent, whole: nat, fraction: nat)
    requires whole * Pow10(exponent) <= value < whole * Pow10(exponent) + Pow10(exponent)
    requires var rest := value - whole * Pow10(exponent);
             var unit := Pow10(exponent - MAX_DECIMALS);
             fraction * unit <= rest < fraction * unit + unit
    ensures ToDecimalString(value, exponent) == Numeral(whole) + "." + TrimZeros(Numeral(fraction))
    ensures Fraction(value, exponent) == fraction
  {
    hide Pow10, Div, Mod, Numeral, TrimZeros;
    DivIsUnique(value, Pow10(exponent), whole);
    DivIsUnique(value - whole * Pow10(exponent), Pow10(exponent - MAX_DECIMALS), fraction);
  }

  /** 1.05 gwei prints as "1.5", which denotes 1.5. */
  lemma LeadingZeroIsLost()
    ensures ToDecimalString(1_050_000_000, 9) == "1.5"
    ensures Denotation("1.5") == Some(15_000) && Div(1_050_000_000, Pow10(9 - MAX_DECIMALS)) == 10_500
  {
    PowersOfTen();
    Pow10Adds(4, 1);
    Pow10Adds(4, 5);
    Render(1_050_000_000, 9, 1, 500);
    assert Numeral(1) == ['1'] && Numeral(5) == ['5'] && Numeral(50) == ['5', '0'];
    assert Numeral(500) == ['5', '0', '0'];
    assert ['5', '0', '0'][..2] == ['5', '0'] && ['5', '0'][..1] == ['5'] && ['5'][..0] == [] && ['1'][..0] == [];
    assert TrimZeros(['5', '0']) == ['5'] && TrimZeros(['5', '0', '0']) == ['5'];
    ReadingIsUnique(['1'], ['5']);
    assert Parse(['1']) == 1 && Parse(['5']) == 5;
    DivIsUnique(1_050_000_000, 100_000, 10_500);
  }
}
