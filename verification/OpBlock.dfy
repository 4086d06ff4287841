/** OP stack: the extra data and the base fee of a new block. The hardfork of a chain's new
    blocks is fixed, but the block they start on may be of an earlier one, so the parent's
    era and the new block's are two parameters. A computation that panics is `None`. */
module OpBlock {
  import opened Prelude
  import opened Bytes
  import opened Arithmetic
  import opened OpFees

  /** Base-fee parameters by block number. */
  type Schedule = nat -> Option<Params>

  datatype Overrides = Overrides(extraData: Option<seq<byte>>, params: Option<Schedule>, baseFee: Option<nat>)

  const NO_OVERRIDES := Overrides(None, None, None)

  datatype NewBlock = NewBlock(extraData: seq<byte>, baseFee: nat)

  /** Block `number + 1` announces the parameters of the block after it. */
  function NewExtraData(number: nat, parent: Parent, era: Era, schedule: Schedule, given: Option<seq<byte>>)
    : Option<seq<byte>>
  {
    if given.Some? then given
    else if era.PreHolocene? then Some([])
    else
      var params, minimum := schedule(number + 2), DecodeMinBaseFee(parent.extraData);
      if params.None? || !Encodable(params.value) then None
      else if era.Holocene? then Some(HoloceneData(params.value))
      else if minimum.None? || minimum.value.None? then None
      else Some(JovianData(params.value, minimum.value.value))
  }

  /** `Some(None)` leaves the choice of parameters to the chain's schedule. */
  function FeeParams(parent: Parent, parentEra: Era, era: Era, given: Option<Schedule>): Option<Option<Schedule>> {
    if era.PreHolocene? || given.Some? then Some(given)
    else if parentEra.PreHolocene? then Some(None)
    else
      var params := DecodeParams(parent.extraData);
      if params.None? then None else Some(Some(_ => params))
  }

  function NewBaseFee(checked: bool, number: nat, parent: Parent, era: Era, chain: Schedule, params: Option<Schedule>)
    : Option<nat>
  {
    var current := if params.Some? then params.value(number + 1) else chain(number + 1);
    if current.None? then None
    else if era.Jovian? && params.Some? then FeeUnder(checked, parent, Jovian, current.value)
    else CalculateNextBaseFee(checked, parent, parent.gasUsed, current.value)
  }

  /** The block on top of `parent`, which has the given number. */
  function Build(checked: bool, number: nat, parent: Parent, parentEra: Era, era: Era, chain: Schedule,
                 overrides: Overrides)
    : Option<NewBlock>
  {
    var schedule := if overrides.params.Some? then overrides.params.value else chain;
    var extraData := NewExtraData(number, parent, era, schedule, overrides.extraData);
    var params := FeeParams(parent, parentEra, era, overrides.params);
    if extraData.None? || params.None? then None
    else
      var fee := if overrides.baseFee.Some? then overrides.baseFee
                 else NewBaseFee(checked, number, parent, era, chain, params.value);
      if fee.None? then None else Some(NewBlock(extraData.value, fee.value))
  }

  // ----- when a block can be built -----

  /** Extra data that carries a minimum base fee. */
  predicate CarriesMinimum(extraData: seq<byte>) {
    |extraData| >= 17 && extraData[0] == JOVIAN_VERSION
  }

  function MinimumOf(extraData: seq<byte>): nat
    requires CarriesMinimum(extraData)
  {
    FromBigEndian(extraData[9..17])
  }

  /** The update can be computed: a build without overflow checks only avoids dividing by
      zero. */
  predicate UpdateExists(checked: bool, parent: Parent, gasUsed: nat, params: Params) {
    if checked then UpdateFits(parent, gasUsed, params)
    else
      params.elasticity > 0
      && var target := Div(parent.gasLimit, params.elasticity);
         gasUsed == target || U128(false, target * params.denominator) != Some(0)
  }

  lemma UpdateExistsIff(checked: bool, parent: Parent, gasUsed: nat, params: Params)
    ensures CalculateNextBaseFee(checked, parent, gasUsed, params).Some?
       <==> UpdateExists(checked, parent, gasUsed, params)
  {
    hide Div, Mod, UpdateFits;
    if checked {
      CalculatesUpdate(checked, parent, gasUsed, params);
    }
  }

  /** From Jovian on a block can be built, without overrides, exactly on a parent that
      carries a minimum fee, where the schedule has parameters that fit for the block after
      it, and the update can be computed. */
  lemma JovianBlockIsBuiltIff(checked: bool, number: nat, parent: Parent, parentEra: Era, chain: Schedule)
    ensures Build(checked, number, parent, parentEra, Jovian, chain, NO_OVERRIDES).Some? <==>
            && CarriesMinimum(parent.extraData)
            && chain(number + 2).Some? && Encodable(chain(number + 2).value)
            && (if parentEra.PreHolocene? then
                  var current := chain(number + 1);
                  current.Some? && UpdateExists(checked, parent, parent.gasUsed, current.value)
                else
                  UpdateExists(checked, parent, GasMetered(parent), DecodeParams(parent.extraData).value))
  {
    hide CalculateNextBaseFee, UpdateExists, FromBigEndian, BigEndian, Pow256;
    if parentEra.PreHolocene? {
      if chain(number + 1).Some? {
        UpdateExistsIff(checked, parent, parent.gasUsed, chain(number + 1).value);
      }
    } else if CarriesMinimum(parent.extraData) {
      UpdateExistsIff(checked, parent, GasMetered(parent), DecodeParams(parent.extraData).value);
    }
  }

  /** Before Jovian no minimum is needed; before Holocene, nothing of the parent's extra data
      is read and none is written. */
  lemma EarlierBlockIsBuiltIff(checked: bool, number: nat, parent: Parent, parentEra: Era, era: Era, chain: Schedule)
    requires !era.Jovian?
    ensures var block := Build(checked, number, parent, parentEra, era, chain, NO_OVERRIDES);
            var params := if era.PreHolocene? || parentEra.PreHolocene? then chain(number + 1)
                          else DecodeParams(parent.extraData);
            && (block.Some? <==>
                && (era.Holocene? ==> chain(number + 2).Some? && Encodable(chain(number + 2).value))
                && params.Some? && UpdateExists(checked, parent, parent.gasUsed, params.value))
            && (block.Some? && era.PreHolocene? ==> block.value.extraData == [])
  {
    hide CalculateNextBaseFee, UpdateExists, DecodeParams;
    var params := if era.PreHolocene? || parentEra.PreHolocene? then chain(number + 1)
                  else DecodeParams(parent.extraData);
    if params.Some? {
      UpdateExistsIff(checked, parent, parent.gasUsed, params.value);
    }
  }

  /** On a parent without a minimum, such as one with Holocene's extra data, a Jovian block
      can be built exactly where its extra data is given and its base fee too, or, on a
      parent before Holocene, can be computed as before. What is given is kept. */
  lemma JovianActivationNeedsOverrides(checked: bool, number: nat, parent: Parent, parentEra: Era, chain: Schedule,
                                       overrides: Overrides)
    requires !CarriesMinimum(parent.extraData)
    ensures var block := Build(checked, number, parent, parentEra, Jovian, chain, overrides);
            && (block.Some? <==>
                && overrides.extraData.Some?
                && (if overrides.baseFee.Some? then
                      overrides.params.Some? || parentEra.PreHolocene? || DecodeParams(parent.extraData).Some?
                    else
                      var current := chain(number + 1);
                      && overrides.params.None? && parentEra.PreHolocene?
                      && current.Some? && UpdateExists(checked, parent, parent.gasUsed, current.value)))
            && (block.Some? ==> block.value.extraData == overrides.extraData.value)
            && (block.Some? && overrides.baseFee.Some? ==> block.value.baseFee == overrides.baseFee.value)
  {
    hide CalculateNextBaseFee, UpdateExists, FromBigEndian, BigEndian;
    if chain(number + 1).Some? {
      UpdateExistsIff(checked, parent, parent.gasUsed, chain(number + 1).value);
    }
  }

  lemma HoloceneDataHasNoMinimum(params: Params)
    ensures !CarriesMinimum(HoloceneData(params))
  {
    hide BigEndian, FromBigEndian;
  }

  // ----- what the provider announces -----

  /** The fee announced for the next block is the one it is built with, if the parent is of
      Holocene or later, or the new block is not. */
  lemma AnnouncedFeeIsBuilt(checked: bool, number: nat, parent: Parent, parentEra: Era, era: Era, chain: Schedule)
    requires era.PreHolocene? || !parentEra.PreHolocene?
    ensures var block := Build(checked, number, parent, parentEra, era, chain, NO_OVERRIDES);
            block.Some? ==> OpNextBaseFee(checked, parent, era, chain(number + 1)) == Some(block.value.baseFee)
  {
    hide CalculateNextBaseFee, DecodeParams, DecodeMinBaseFee;
  }

  /** On the last block before Holocene, whose extra data is empty, announcing panics,
      although the Holocene block can be built, under the chain's own parameters. */
  lemma HoloceneActivationIsNotAnnounced(checked: bool, number: nat, parent: Parent, chain: Schedule)
    requires parent.extraData == []
    ensures OpNextBaseFee(checked, parent, Holocene, chain(number + 1)).None?
    ensures Build(checked, number, parent, PreHolocene, Holocene, chain, NO_OVERRIDES).Some? <==>
            && chain(number + 2).Some? && Encodable(chain(number + 2).value)
            && chain(number + 1).Some? && UpdateExists(checked, parent, parent.gasUsed, chain(number + 1).value)
  {
    hide Build, UpdateExists;
    EarlierBlockIsBuiltIff(checked, number, parent, PreHolocene, Holocene, chain);
  }

  // ----- chains of blocks -----

  predicate Follows(checked: bool, number: nat, parent: Parent, parentEra: Era, era: Era, chain: Schedule,
                    child: Parent) {
    var block := Build(checked, number, parent, parentEra, era, chain, NO_OVERRIDES);
    block.Some? && child.extraData == block.value.extraData && child.baseFee == Some(block.value.baseFee)
  }

  /** Blocks built on each other without overrides, on a first block of the given number and
      era. What happens inside them is arbitrary. */
  predicate IsChain(checked: bool, number: nat, blocks: seq<Parent>, firstEra: Era, era: Era, chain: Schedule) {
    |blocks| <= 1 ||
    var before := blocks[..|blocks| - 1];
    && IsChain(checked, number, before, firstEra, era, chain)
    && Follows(checked, number + |blocks| - 2, blocks[|blocks| - 2], if |blocks| == 2 then firstEra else era, era,
               chain, blocks[|blocks| - 1])
  }

  /** Block `number + i`: its extra data holds what is scheduled for the next block, and the
      minimum. */
  predicate KeepsSchedule(number: nat, i: nat, block: Parent, era: Era, chain: Schedule, minimum: nat) {
    var next := chain(number + i + 1);
    && next.Some? && Encodable(next.value)
    && block.extraData == if era.Jovian? then JovianData(next.value, minimum) else HoloceneData(next.value)
  }

  /** Its fee is the EIP-1559 update under `params`, and from Jovian on at the larger of gas
      and blob gas, and at least the minimum. */
  predicate PaysUpdate(checked: bool, parent: Parent, block: Parent, era: Era, params: Params, minimum: nat) {
    var gas := if era.Jovian? then GasMetered(parent) else parent.gasUsed;
    && block.baseFee.Some?
    && (era.Jovian? ==> block.baseFee.value >= minimum)
    && (checked ==> UpdateFits(parent, gas, params))
    && (UpdateFits(parent, gas, params) ==>
          var update := Update(parent, gas, params);
          block.baseFee.value == if era.Jovian? && update < minimum then minimum else update)
  }

  /** In every chain from Holocene or Jovian on, every block announces the parameters
      scheduled for the next and, from Jovian on, the first block's minimum, which therefore
      never changes. */
  lemma {:induction false} ChainKeepsSchedule(checked: bool, number: nat, blocks: seq<Parent>, firstEra: Era, era: Era,
                                              chain: Schedule)
    requires !era.PreHolocene? && |blocks| > 1 && IsChain(checked, number, blocks, firstEra, era, chain)
    ensures era.Jovian? ==> CarriesMinimum(blocks[0].extraData)
    ensures var minimum := if era.Jovian? then MinimumOf(blocks[0].extraData) else 0;
            && minimum < Pow256(8)
            && KeepsSchedule(number, |blocks| - 1, blocks[|blocks| - 1], era, chain, minimum)
  {
    hide KeepsSchedule, PaysUpdate, Follows, Pow256, FromBigEndian;
    var n := |blocks| - 1;
    if n == 1 {
      FirstBlockKeepsSchedule(checked, number, blocks[0], firstEra, era, chain, blocks[1]);
    } else {
      var before := blocks[..n];
      ChainKeepsSchedule(checked, number, before, firstEra, era, chain);
      var minimum := if era.Jovian? then MinimumOf(blocks[0].extraData) else 0;
      NextBlockKeepsSchedule(checked, number, n - 1, blocks[n - 1], era, chain, blocks[n], minimum);
    }
  }

  lemma FirstBlockKeepsSchedule(checked: bool, number: nat, first: Parent, firstEra: Era, era: Era, chain: Schedule,
                                block: Parent)
    requires !era.PreHolocene? && Follows(checked, number, first, firstEra, era, chain, block)
    ensures era.Jovian? ==> CarriesMinimum(first.extraData)
    ensures var minimum := if era.Jovian? then MinimumOf(first.extraData) else 0;
            minimum < Pow256(8) && KeepsSchedule(number, 1, block, era, chain, minimum)
  {
    hide CalculateNextBaseFee, DecodeParams, HoloceneData, JovianData, FromBigEndian, Pow256;
    assert Pow256(8) > 0;
    if era.Jovian? {
      FromBigEndianRoundTrip(first.extraData[9..17]);
    }
  }

  lemma NextBlockKeepsSchedule(checked: bool, number: nat, i: nat, parent: Parent, era: Era, chain: Schedule,
                               block: Parent, minimum: nat)
    requires !era.PreHolocene? && minimum < Pow256(8) && KeepsSchedule(number, i, parent, era, chain, minimum)
    requires Follows(checked, number + i, parent, era, era, chain, block)
    ensures KeepsSchedule(number, i + 1, block, era, chain, minimum)
    ensures chain(number + i + 1).Some?
    ensures PaysUpdate(checked, parent, block, era, chain(number + i + 1).value, minimum)
  {
    hide CalculateNextBaseFee, DecodeParams, DecodeMinBaseFee, HoloceneData, JovianData, Pow256, UpdateFits, Update;
    var params := chain(number + i + 1).value;
    ExtraDataRoundTrip(params, minimum);
    CalculatesUpdate(checked, parent, if era.Jovian? then GasMetered(parent) else parent.gasUsed, params);
  }

  /** From the second new block on, every fee is the update under the parameters scheduled
      for the very block, whatever the first block's extra data says. */
  lemma ChainPaysSchedule(checked: bool, number: nat, blocks: seq<Parent>, firstEra: Era, era: Era, chain: Schedule)
    requires !era.PreHolocene? && |blocks| > 2 && IsChain(checked, number, blocks, firstEra, era, chain)
    ensures era.Jovian? ==> CarriesMinimum(blocks[0].extraData)
    ensures var n := |blocks| - 1;
            var minimum := if era.Jovian? then MinimumOf(blocks[0].extraData) else 0;
            && chain(number + n).Some?
            && PaysUpdate(checked, blocks[n - 1], blocks[n], era, chain(number + n).value, minimum)
  {
    hide KeepsSchedule, PaysUpdate, Follows, Pow256, FromBigEndian;
    var n := |blocks| - 1;
    var before := blocks[..n];
    ChainKeepsSchedule(checked, number, before, firstEra, era, chain);
    var minimum := if era.Jovian? then MinimumOf(blocks[0].extraData) else 0;
    assert KeepsSchedule(number, n - 1, blocks[n - 1], era, chain, minimum);
    NextBlockKeepsSchedule(checked, number, n - 1, blocks[n - 1], era, chain, blocks[n], minimum);
  }

  /** Parameters that are given replace the parent's for the block's own fee and the chain's
      for what it announces, each at its own block. */
  lemma GivenParamsGovern(checked: bool, number: nat, parent: Parent, parentEra: Era, era: Era, chain: Schedule,
                          given: Schedule)
    requires !era.PreHolocene? && (era.Jovian? ==> CarriesMinimum(parent.extraData))
    ensures var block := Build(checked, number, parent, parentEra, era, chain, Overrides(None, Some(given), None));
            var minimum := if era.Jovian? then MinimumOf(parent.extraData) else 0;
            block.Some? ==>
              var header := parent.(extraData := block.value.extraData, baseFee := Some(block.value.baseFee));
              && KeepsSchedule(number, 1, header, era, given, minimum)
              && given(number + 1).Some?
              && PaysUpdate(checked, parent, header, era, given(number + 1).value, minimum)
  {
    hide CalculateNextBaseFee, HoloceneData, JovianData, FromBigEndian, Pow256, UpdateFits, Update;
    if given(number + 1).Some? {
      CalculatesUpdate(checked, parent, if era.Jovian? then GasMetered(parent) else parent.gasUsed,
                       given(number + 1).value);
    }
  }

  // ----- local chains -----

  /** A genesis block announces its own parameters, not those of the block after it, and
      from Jovian on a minimum of zero. */
  function GenesisExtraData(era: Era, chain: Schedule): Option<seq<byte>> {
    var params := chain(0);
    if era.PreHolocene? then Some([])
    else if params.None? || !Encodable(params.value) then None
    else Some(if era.Jovian? then JovianData(params.value, 0) else HoloceneData(params.value))
  }

  /** When a genesis block can be made, and what it announces. */
  lemma GenesisAnnounces(era: Era, chain: Schedule)
    ensures var data := GenesisExtraData(era, chain);
            && (data.Some? <==> era.PreHolocene? || (chain(0).Some? && Encodable(chain(0).value)))
            && (era.PreHolocene? ==> data == Some([]))
            && (data.Some? && !era.PreHolocene? ==>
                  && DecodeParams(data.value) == chain(0)
                  && DecodeMinBaseFee(data.value) == Some(if era.Jovian? then Some(0) else None))
  {
    hide HoloceneData, JovianData, DecodeParams, DecodeMinBaseFee;
    if chain(0).Some? && Encodable(chain(0).value) {
      assert Pow256(8) > 0;
      ExtraDataRoundTrip(chain(0).value, 0);
    }
  }

  /** On a chain from its own genesis the minimum never takes effect, and the first block
      pays under the genesis block's parameters, every later one under its own. */
  lemma LocalChainPaysSchedule(checked: bool, blocks: seq<Parent>, era: Era, chain: Schedule)
    requires !era.PreHolocene? && |blocks| > 1 && IsChain(checked, 0, blocks, era, era, chain)
    requires GenesisExtraData(era, chain) == Some(blocks[0].extraData)
    ensures var n := |blocks| - 1;
            var scheduled := if n == 1 then chain(0) else chain(n);
            && scheduled.Some?
            && PaysUpdate(checked, blocks[n - 1], blocks[n], era, scheduled.value, 0)
  {
    hide KeepsSchedule, PaysUpdate, Follows, HoloceneData, JovianData, FromBigEndian;
    assert Pow256(8) > 0;
    ExtraDataRoundTrip(chain(0).value, 0);
    if |blocks| == 2 {
      GenesisFee(checked, blocks[0], era, chain, blocks[1]);
    } else {
      ChainPaysSchedule(checked, 0, blocks, era, era, chain);
    }
  }

  lemma GenesisFee(checked: bool, genesis: Parent, era: Era, chain: Schedule, block: Parent)
    requires !era.PreHolocene? && GenesisExtraData(era, chain) == Some(genesis.extraData)
    requires Follows(checked, 0, genesis, era, era, chain, block)
    ensures PaysUpdate(checked, genesis, block, era, chain(0).value, 0)
  {
    hide CalculateNextBaseFee, DecodeParams, DecodeMinBaseFee, HoloceneData, JovianData, UpdateFits, Update;
    assert Pow256(8) > 0;
    ExtraDataRoundTrip(chain(0).value, 0);
    CalculatesUpdate(checked, genesis, if era.Jovian? then GasMetered(genesis) else genesis.gasUsed, chain(0).value);
  }
}
