/** OP stack: base-fee parameters in a block's extra data, and the next base fee. A
    computation that panics is modelled as `None`. */
module OpFees {
  import opened Prelude
  import opened Bytes
  import opened Arithmetic

  const HOLOCENE_VERSION: byte := 0x0
  const JOVIAN_VERSION: byte := 0x1
  const INITIAL_BASE_FEE: nat := 1_000_000_000
  const U128_MODULUS: nat := 0x1_0000_0000_0000_0000_0000_0000_0000_0000

  datatype Params = Params(denominator: nat, elasticity: nat)

  datatype Era = PreHolocene | Holocene | Jovian

  datatype Parent = Parent(gasLimit: nat, gasUsed: nat, blobGasUsed: Option<nat>, baseFee: Option<nat>,
                           extraData: seq<byte>)

  // ----- extra data -----

  predicate Encodable(params: Params) {
    params.denominator < Pow256(4) && params.elasticity < Pow256(4)
  }

  function ParamBytes(params: Params): seq<byte> {
    BigEndian(params.denominator, 4) + BigEndian(params.elasticity, 4)
  }

  function HoloceneData(params: Params): seq<byte> {
    [HOLOCENE_VERSION] + ParamBytes(params)
  }

  function JovianData(params: Params, minBaseFee: nat): seq<byte> {
    [JOVIAN_VERSION] + ParamBytes(params) + BigEndian(minBaseFee, 8)
  }

  method CopySlice(bytes: array<byte>, at: nat, slice: seq<byte>)
    requires at + |slice| <= bytes.Length
    modifies bytes
    ensures bytes[..] == old(bytes[..at]) + slice + old(bytes[at + |slice|..])
  {
    var i := 0;
    while i < |slice|
      invariant 0 <= i <= |slice|
      invariant bytes[..] == old(bytes[..at]) + slice[..i] + old(bytes[at + i..])
    {
      bytes[at + i] := slice[i];
      i := i + 1;
    }
    assert slice[..i] == slice;
  }

  method CopyBaseFeeParams(bytes: array<byte>, params: Params) returns (ok: bool)
    requires bytes.Length >= 9
    modifies bytes
    ensures ok <==> Encodable(params)
    ensures ok ==> bytes[..] == old(bytes[..1]) + ParamBytes(params) + old(bytes[9..])
  {
    if !Encodable(params) {
      return false;
    }
    CopySlice(bytes, 1, BigEndian(params.denominator, 4));
    CopySlice(bytes, 5, BigEndian(params.elasticity, 4));
    return true;
  }

  method EncodeHolocene(params: Params) returns (extraData: Option<seq<byte>>)
    ensures extraData == if Encodable(params) then Some(HoloceneData(params)) else None
  {
    var bytes := new byte[9](_ => 0);
    bytes[0] := HOLOCENE_VERSION;
    var ok := CopyBaseFeeParams(bytes, params);
    if !ok {
      return None;
    }
    assert bytes[..] == HoloceneData(params);
    return Some(bytes[..]);
  }

  method EncodeJovian(params: Params, minBaseFee: nat) returns (extraData: Option<seq<byte>>)
    ensures extraData
         == if Encodable(params) && minBaseFee < Pow256(8) then Some(JovianData(params, minBaseFee)) else None
  {
    if minBaseFee >= Pow256(8) {
      return None;
    }
    var bytes := new byte[17](_ => 0);
    bytes[0] := JOVIAN_VERSION;
    var ok := CopyBaseFeeParams(bytes, params);
    if !ok {
      return None;
    }
    assert bytes[..9] == [JOVIAN_VERSION] + ParamBytes(params);
    CopySlice(bytes, 9, BigEndian(minBaseFee, 8));
    assert bytes[..] == JovianData(params, minBaseFee);
    return Some(bytes[..]);
  }

  function DecodeParams(extraData: seq<byte>): Option<Params> {
    if |extraData| < 9 || extraData[0] > JOVIAN_VERSION then None
    else Some(Params(FromBigEndian(extraData[1..5]), FromBigEndian(extraData[5..9])))
  }

  /** `None` is a panic; `Some(None)` is extra data without a minimum. */
  function DecodeMinBaseFee(extraData: seq<byte>): Option<Option<nat>> {
    if extraData == [] || extraData[0] == HOLOCENE_VERSION then Some(None)
    else if extraData[0] == JOVIAN_VERSION && |extraData| >= 17 then Some(Some(FromBigEndian(extraData[9..17])))
    else None
  }

  /** The parameters and, from Jovian on, the minimum fee are read back as written. */
  lemma ExtraDataRoundTrip(params: Params, minBaseFee: nat)
    requires Encodable(params) && minBaseFee < Pow256(8)
    ensures |HoloceneData(params)| == 9 && DecodeParams(HoloceneData(params)) == Some(params)
    ensures DecodeMinBaseFee(HoloceneData(params)) == Some(None)
    ensures |JovianData(params, minBaseFee)| == 17 && DecodeParams(JovianData(params, minBaseFee)) == Some(params)
    ensures DecodeMinBaseFee(JovianData(params, minBaseFee)) == Some(Some(minBaseFee))
  {
    hide Pow256, FromBigEndian, BigEndian;
    BigEndianRoundTrip(params.denominator, 4);
    BigEndianRoundTrip(params.elasticity, 4);
    BigEndianRoundTrip(minBaseFee, 8);
    var h, j := HoloceneData(params), JovianData(params, minBaseFee);
    assert h[1..5] == j[1..5] == BigEndian(params.denominator, 4);
    assert h[5..9] == j[5..9] == BigEndian(params.elasticity, 4);
    assert j[9..17] == BigEndian(minBaseFee, 8);
  }

  /** Every version-1 extra data of 17 bytes is the encoding of what it decodes to: the
      encoding loses nothing and the decoder admits nothing else. */
  lemma JovianDataIsCanonical(extraData: seq<byte>)
    requires |extraData| == 17 && extraData[0] == JOVIAN_VERSION
    ensures DecodeParams(extraData).Some?
    ensures DecodeMinBaseFee(extraData).Some? && DecodeMinBaseFee(extraData).value.Some?
    ensures Encodable(DecodeParams(extraData).value) && DecodeMinBaseFee(extraData).value.value < Pow256(8)
    ensures JovianData(DecodeParams(extraData).value, DecodeMinBaseFee(extraData).value.value) == extraData
  {
    hide Pow256, FromBigEndian, BigEndian;
    FromBigEndianRoundTrip(extraData[1..5]);
    FromBigEndianRoundTrip(extraData[5..9]);
    FromBigEndianRoundTrip(extraData[9..17]);
    assert extraData == [extraData[0]] + (extraData[1..5] + extraData[5..9]) + extraData[9..17];
  }

  /** Extra data of either version tells parameters and minimum apart. */
  lemma ExtraDataIsInjective(p: Params, pMin: nat, q: Params, qMin: nat)
    requires Encodable(p) && Encodable(q) && pMin < Pow256(8) && qMin < Pow256(8)
    ensures HoloceneData(p) == HoloceneData(q) <==> p == q
    ensures JovianData(p, pMin) == JovianData(q, qMin) <==> p == q && pMin == qMin
  {
    hide HoloceneData, JovianData, DecodeParams, DecodeMinBaseFee;
    ExtraDataRoundTrip(p, pMin);
    ExtraDataRoundTrip(q, qMin);
  }

  /** Version, denominator, elasticity and, from Jovian on, minimum, each big-endian. */
  lemma ExtraDataExample()
    ensures HoloceneData(Params(250, 6)) == [0, 0, 0, 0, 250, 0, 0, 0, 6]
    ensures JovianData(Params(250, 6), 258) == [1, 0, 0, 0, 250, 0, 0, 0, 6, 0, 0, 0, 0, 0, 0, 1, 2]
  {
    hide BigEndian;
    BigEndianOfByte(250, 4);
    BigEndianOfByte(6, 4);
    BigEndianOfByte(1, 7);
    BigEndianStep(258, 8);
  }

  // ----- the EIP-1559 update -----

  /** The update of EIP-1559's specification, which divides by the target and then by the
      denominator. */
  function Eip1559BaseFee(target: nat, baseFee: nat, gasUsed: nat, denominator: nat): int
    requires gasUsed != target ==> target > 0 && denominator > 0
  {
    if gasUsed == target then baseFee
    else if gasUsed > target then
      baseFee + Max(Div(Div(baseFee * (gasUsed - target), target), denominator), 1)
    else
      baseFee - Div(Div(baseFee * (target - gasUsed), target), denominator)
  }

  /** A 128-bit result: where it does not fit, a build that checks for overflow panics and
      any other wraps. */
  function U128(checked: bool, x: nat): Option<nat> {
    if x < U128_MODULUS then Some(x) else if checked then None else Some(Mod(x, U128_MODULUS))
  }

  function Distance(x: nat, y: nat): nat {
    if x > y then x - y else y - x
  }

  /** The code's update: one division by a product. */
  function NextBaseFee(checked: bool, target: nat, baseFee: nat, gasUsed: nat, denominator: nat): Option<nat> {
    if gasUsed == target then Some(baseFee)
    else
      var product := U128(checked, baseFee * Distance(gasUsed, target));
      var divisor := U128(checked, target * denominator);
      if product.None? || divisor.None? || divisor.value == 0 then None
      else
        var change := Div(product.value, divisor.value);
        if gasUsed > target then U128(checked, baseFee + Max(1, change))
        else Some(if change <= baseFee then baseFee - change else 0)
  }

  /** No division by zero, and every intermediate result and the fee itself fit 128 bits. */
  predicate FeeFits(target: nat, baseFee: nat, gasUsed: nat, denominator: nat) {
    gasUsed != target ==>
      && target > 0 && denominator > 0 && 0 < target * denominator < U128_MODULUS
      && baseFee * Distance(gasUsed, target) < U128_MODULUS
      && Eip1559BaseFee(target, baseFee, gasUsed, denominator) < U128_MODULUS
  }

  function BaseFeeOf(parent: Parent): nat {
    if parent.baseFee.Some? then parent.baseFee.value else INITIAL_BASE_FEE
  }

  function CalculateNextBaseFee(checked: bool, parent: Parent, gasUsed: nat, params: Params): Option<nat> {
    if params.elasticity == 0 then None
    else NextBaseFee(checked, Div(parent.gasLimit, params.elasticity), BaseFeeOf(parent), gasUsed, params.denominator)
  }

  /** Less than the target was used: the reduction is at most the fee itself, so the code's
      saturating subtraction never saturates. */
  lemma ReductionIsBounded(baseFee: nat, delta: nat, target: nat, denominator: nat)
    requires delta <= target && target > 0 && denominator > 0
    ensures Div(Div(baseFee * delta, target), denominator) <= baseFee
  {
    hide Div;
    var q := Div(baseFee * delta, target);
    assert baseFee * delta <= baseFee * target by {
      ScaledIsMonotone(delta, target, baseFee);
    }
    DivIsMonotone(baseFee * delta, baseFee * target, target);
    DivIsUnique(baseFee * target, target, baseFee);
    ScaledIsMonotone(1, denominator, Div(q, denominator));
  }

  /** One division by the product is the two divisions, and nothing saturates. */
  lemma ChangeIsEip1559(target: nat, baseFee: nat, gasUsed: nat, denominator: nat)
    requires gasUsed != target && target > 0 && denominator > 0
    ensures target * denominator > 0
    ensures var change := Div(baseFee * Distance(gasUsed, target), target * denominator);
            Eip1559BaseFee(target, baseFee, gasUsed, denominator)
            == (if gasUsed > target then baseFee + Max(1, change) else baseFee - change)
            && (gasUsed < target ==> change <= baseFee)
  {
    hide Div;
    DivideTwice(baseFee * Distance(gasUsed, target), target, denominator);
    if gasUsed < target {
      ReductionIsBounded(baseFee, target - gasUsed, target, denominator);
    }
  }

  /** Where everything fits, both builds compute the EIP-1559 update; where something does
      not, a build that checks for overflow computes nothing. */
  lemma NextBaseFeeIsEip1559(checked: bool, target: nat, baseFee: nat, gasUsed: nat, denominator: nat)
    ensures FeeFits(target, baseFee, gasUsed, denominator) ==>
              NextBaseFee(checked, target, baseFee, gasUsed, denominator)
              == Some(Eip1559BaseFee(target, baseFee, gasUsed, denominator))
    ensures checked ==>
              (NextBaseFee(checked, target, baseFee, gasUsed, denominator).Some?
               <==> FeeFits(target, baseFee, gasUsed, denominator))
  {
    if gasUsed != target && target > 0 && denominator > 0 {
      ChangeIsEip1559(target, baseFee, gasUsed, denominator);
    }
    hide Div, Eip1559BaseFee;
    if gasUsed != target && (target == 0 || denominator == 0) {
      assert target * denominator == 0;
    }
  }

  /** A build without overflow checks computes the EIP-1559 update exactly where everything
      fits: a wrapped product changes the fee. The target is a 64-bit and the denominator a
      32-bit number, so their product fits. */
  lemma UncheckedFeeIsEip1559Iff(target: nat, baseFee: nat, gasUsed: nat, denominator: nat)
    requires baseFee < U128_MODULUS && 0 < target < U64_MODULUS && 0 < denominator < Pow256(4)
    ensures NextBaseFee(false, target, baseFee, gasUsed, denominator)
         == Some(Eip1559BaseFee(target, baseFee, gasUsed, denominator))
       <==> FeeFits(target, baseFee, gasUsed, denominator)
  {
    if gasUsed != target {
      ChangeIsEip1559(target, baseFee, gasUsed, denominator);
      DivisorIsSmall(target, denominator);
      var product, divisor := baseFee * Distance(gasUsed, target), target * denominator;
      hide Div, Mod, Eip1559BaseFee;
      if product >= U128_MODULUS {
        WrappedChange(product, divisor);
      }
    }
  }

  lemma DivisorIsSmall(target: nat, denominator: nat)
    requires target < U64_MODULUS && denominator < Pow256(4)
    ensures target * denominator <= U128_MODULUS / 2
  {
    assert Pow256(4) == 0x1_0000_0000;
    ScaledIsMonotone(target, U64_MODULUS, denominator);
  }

  lemma WrappedChange(product: nat, divisor: nat)
    requires product >= U128_MODULUS && 0 < divisor <= U128_MODULUS / 2
    ensures Div(Mod(product, U128_MODULUS), divisor) + 2 <= Div(product, divisor)
  {
    hide Div, Mod;
    var rest := Mod(product, U128_MODULUS);
    assert Div(product, U128_MODULUS) >= 1 by {
      DivIsMonotone(U128_MODULUS, product, U128_MODULUS);
      DivIsUnique(U128_MODULUS, U128_MODULUS, 1);
    }
    ScaledIsMonotone(1, Div(product, U128_MODULUS), U128_MODULUS);
    assert rest + 2 * divisor <= product;
    var q := Div(rest, divisor);
    assert (q + 2) * divisor == q * divisor + 2 * divisor;
    DivIsUnique(rest + 2 * divisor, divisor, q + 2);
    DivIsMonotone(rest + 2 * divisor, product, divisor);
  }

  /** There the fee can fall as gas rises: from 2 to 3 units of gas at target 1, a base fee
      of 2 ^ 127 makes the product wrap to zero. */
  lemma WrappedFeeCanFall()
    ensures var baseFee := U128_MODULUS / 2;
            && NextBaseFee(false, 1, baseFee, 2, 8) == Some(baseFee + baseFee / 8)
            && NextBaseFee(false, 1, baseFee, 3, 8) == Some(baseFee + 1)
  {
    var baseFee := U128_MODULUS / 2;
    DivIsUnique(baseFee, 8, baseFee / 8);
    DivIsUnique(0, 8, 0);
  }

  lemma ScaledDivIsMonotone(baseFee: nat, x: nat, y: nat, target: nat, denominator: nat)
    requires x <= y && target > 0 && denominator > 0
    ensures Div(Div(baseFee * x, target), denominator) <= Div(Div(baseFee * y, target), denominator)
  {
    hide Div;
    assert baseFee * x <= baseFee * y by {
      ScaledIsMonotone(x, y, baseFee);
    }
    DivIsMonotone(baseFee * x, baseFee * y, target);
    DivIsMonotone(Div(baseFee * x, target), Div(baseFee * y, target), denominator);
  }

  /** More gas never lowers the next fee: in a build with overflow checks wherever there are
      fees to compare, in any build where both fit. */
  lemma NextBaseFeeIsMonotone(checked: bool, target: nat, baseFee: nat, less: nat, more: nat, denominator: nat)
    requires less <= more
    ensures var low := NextBaseFee(checked, target, baseFee, less, denominator);
            var high := NextBaseFee(checked, target, baseFee, more, denominator);
            low.Some? && high.Some?
            && (checked || (FeeFits(target, baseFee, less, denominator) && FeeFits(target, baseFee, more, denominator)))
            ==> low.value <= high.value
  {
    hide NextBaseFee, Div;
    NextBaseFeeIsEip1559(checked, target, baseFee, less, denominator);
    NextBaseFeeIsEip1559(checked, target, baseFee, more, denominator);
    if target > 0 && denominator > 0 {
      if less < more <= target {
        ScaledDivIsMonotone(baseFee, target - more, target - less, target, denominator);
      } else if target < less < more {
        ScaledDivIsMonotone(baseFee, less - target, more - target, target, denominator);
      }
    }
  }

  // ----- the OP rule -----

  /** `defaults` is what the chain's schedule gives for the block, if anything. */
  function ParamsForBlock(parent: Parent, era: Era, defaults: Option<Params>): Option<Params> {
    if era.PreHolocene? then defaults else DecodeParams(parent.extraData)
  }

  /** A parent without blob gas counts as one with none. */
  function BlobGasOf(parent: Parent): nat {
    if parent.blobGasUsed.Some? then parent.blobGasUsed.value else 0
  }

  function GasMetered(parent: Parent): nat {
    Max(parent.gasUsed, BlobGasOf(parent))
  }

  /** The next fee under given parameters. */
  function FeeUnder(checked: bool, parent: Parent, era: Era, params: Params): Option<nat> {
    if era.Jovian? then
      var fee := CalculateNextBaseFee(checked, parent, GasMetered(parent), params);
      var minimum := DecodeMinBaseFee(parent.extraData);
      if fee.None? || minimum.None? || minimum.value.None? then None
      else Some(Max(fee.value, minimum.value.value))
    else
      CalculateNextBaseFee(checked, parent, parent.gasUsed, params)
  }

  /** The next fee as the provider announces it. */
  function OpNextBaseFee(checked: bool, parent: Parent, era: Era, defaults: Option<Params>): Option<nat> {
    var params := ParamsForBlock(parent, era, defaults);
    if params.None? then None else FeeUnder(checked, parent, era, params.value)
  }

  /** The parent's fee; the first block with one starts from one gwei. */
  function ParentFee(parent: Parent): nat {
    match parent.baseFee
    case Some(fee) => fee
    case None => 1_000_000_000
  }

  /** The gas and the blob gas of the parent, of which Jovian takes the larger. */
  predicate IsMetered(parent: Parent, gas: nat) {
    match parent.blobGasUsed
    case None => gas == parent.gasUsed
    case Some(blob) => gas >= parent.gasUsed && gas >= blob && (gas == parent.gasUsed || gas == blob)
  }

  /** The EIP-1559 update exists and is computed without overflow. */
  predicate UpdateFits(parent: Parent, gasUsed: nat, params: Params) {
    params.elasticity > 0
    && FeeFits(Div(parent.gasLimit, params.elasticity), ParentFee(parent), gasUsed, params.denominator)
  }

  function Update(parent: Parent, gasUsed: nat, params: Params): int
    requires UpdateFits(parent, gasUsed, params)
  {
    Eip1559BaseFee(Div(parent.gasLimit, params.elasticity), ParentFee(parent), gasUsed, params.denominator)
  }

  lemma CalculatesUpdate(checked: bool, parent: Parent, gasUsed: nat, params: Params)
    ensures UpdateFits(parent, gasUsed, params) ==>
              CalculateNextBaseFee(checked, parent, gasUsed, params) == Some(Update(parent, gasUsed, params))
    ensures checked ==>
              (CalculateNextBaseFee(checked, parent, gasUsed, params).Some? <==> UpdateFits(parent, gasUsed, params))
  {
    hide NextBaseFee, Div, Eip1559BaseFee, FeeFits;
    if params.elasticity > 0 {
      NextBaseFeeIsEip1559(checked, Div(parent.gasLimit, params.elasticity), BaseFeeOf(parent), gasUsed,
                           params.denominator);
    }
  }

  /** From Jovian on, what was encoded into the parent's extra data governs the next fee: it
      is the EIP-1559 update at the larger of gas and blob gas, under the encoded
      parameters, raised to the encoded minimum. It is never below that minimum, even where
      a build without overflow checks wraps; one with them computes nothing there. */
  lemma JovianFeeObeysExtraData(checked: bool, parent: Parent, defaults: Option<Params>, params: Params,
                                minBaseFee: nat)
    requires Encodable(params) && minBaseFee < Pow256(8)
    requires parent.extraData == JovianData(params, minBaseFee)
    ensures var fee := OpNextBaseFee(checked, parent, Jovian, defaults);
            var gas := GasMetered(parent);
            && IsMetered(parent, gas)
            && (UpdateFits(parent, gas, params) ==>
                  var update := Update(parent, gas, params);
                  fee == Some(if update >= minBaseFee then update else minBaseFee))
            && (checked ==> (fee.Some? <==> UpdateFits(parent, gas, params)))
            && (fee.Some? ==> fee.value >= minBaseFee)
  {
    hide CalculateNextBaseFee, DecodeParams, DecodeMinBaseFee, JovianData, UpdateFits, Update;
    ExtraDataRoundTrip(params, minBaseFee);
    CalculatesUpdate(checked, parent, GasMetered(parent), params);
  }

  /** Before Jovian the blob gas plays no part and there is no floor. */
  lemma PreJovianFeeIsEip1559(checked: bool, parent: Parent, era: Era, defaults: Option<Params>)
    requires !era.Jovian?
    ensures var params := ParamsForBlock(parent, era, defaults);
            var fee := OpNextBaseFee(checked, parent, era, defaults);
            && (params.Some? && UpdateFits(parent, parent.gasUsed, params.value) ==>
                  fee == Some(Update(parent, parent.gasUsed, params.value)))
            && (checked ==> (fee.Some? <==> params.Some? && UpdateFits(parent, parent.gasUsed, params.value)))
  {
    hide CalculateNextBaseFee, DecodeParams, UpdateFits, Update;
    var params := ParamsForBlock(parent, era, defaults);
    if params.Some? {
      CalculatesUpdate(checked, parent, parent.gasUsed, params.value);
    }
  }

  /** Parents that differ only in gas and blob gas: more of either never lowers the fee, in
      a build with overflow checks wherever there are fees to compare, in any build where
      both updates fit. */
  lemma JovianFeeIsMonotone(checked: bool, parent: Parent, gasUsed: nat, blobGasUsed: Option<nat>,
                            defaults: Option<Params>)
    requires var fuller := parent.(gasUsed := gasUsed, blobGasUsed := blobGasUsed);
             parent.gasUsed <= gasUsed && BlobGasOf(parent) <= BlobGasOf(fuller)
    ensures var fuller := parent.(gasUsed := gasUsed, blobGasUsed := blobGasUsed);
            var params := DecodeParams(parent.extraData);
            var low := OpNextBaseFee(checked, parent, Jovian, defaults);
            var high := OpNextBaseFee(checked, fuller, Jovian, defaults);
            low.Some? && high.Some?
            && (checked || (UpdateFits(parent, GasMetered(parent), params.value)
                            && UpdateFits(fuller, GasMetered(fuller), params.value)))
            ==> low.value <= high.value
  {
    hide NextBaseFee, DecodeParams, DecodeMinBaseFee, Div, FeeFits;
    var fuller := parent.(gasUsed := gasUsed, blobGasUsed := blobGasUsed);
    var params := DecodeParams(parent.extraData);
    if params.Some? && params.value.elasticity > 0 {
      NextBaseFeeIsMonotone(checked, Div(parent.gasLimit, params.value.elasticity), BaseFeeOf(parent),
                            GasMetered(parent), GasMetered(fuller), params.value.denominator);
    }
  }
}
