/**
  * OP execution receipts: EIP-658 receipts and deposit receipts, whose RLP layout may end
  * in a nonce and a version. These two fields follow the rule of alloy-rlp's derive macro
  * for trailing options: an absent field is left out, or written as the empty string if
  * the other one follows; reading, a field is absent if the list is at its end or the next
  * byte is the empty string's.
  */
module OpReceipt {
  import opened Prelude
  import opened Bytes
  import opened Rlp
  import opened Bloom
  import R = Receipt

  const EMPTY_STRING: byte := 0x80

  datatype OpExecution =
    | Eip658(status: bool, cumulativeGasUsed: nat, logsBloom: seq<byte>, logs: seq<Log>)
    | Deposit(status: bool, cumulativeGasUsed: nat, logsBloom: seq<byte>, logs: seq<Log>,
              nonce: nat, version: Option<nat>)

  /** The EIP-658 receipt with the fields both kinds share. */
  function Shared(r: OpExecution): R.Execution {
    R.Eip658(r.status, r.cumulativeGasUsed, r.logsBloom, r.logs)
  }

  // ----- encoding -----

  /** The two fields `Encodable` makes of a receipt: a deposit without version, from before
      Canyon, is written without its nonce. */
  function TrailingNonce(r: OpExecution): Option<nat> {
    if r.Deposit? && r.version.Some? then Some(r.nonce) else None
  }

  function TrailingVersion(r: OpExecution): Option<nat> {
    if r.Deposit? then r.version else None
  }

  ghost predicate FitsOption(n: Option<nat>, width: nat) {
    n.Some? ==> n.value < Pow256(width) && Fits(n.value)
  }

  function EncodeTrailing(nonce: Option<nat>, version: Option<nat>): seq<byte>
    requires FitsOption(nonce, 8) && FitsOption(version, 1)
  {
    (if nonce.Some? then EncodeUint(nonce.value) else if version.Some? then [EMPTY_STRING] else [])
    + if version.Some? then EncodeUint(version.value) else []
  }

  ghost predicate Encodable(r: OpExecution) {
    && R.Encodable(Shared(r))
    && FitsOption(TrailingNonce(r), 8) && FitsOption(TrailingVersion(r), 1)
    && (r.Deposit? ==> r.nonce < Pow256(8))
    && Fits(|Payload(r)|)
  }

  function Payload(r: OpExecution): seq<byte>
    requires R.Encodable(Shared(r)) && FitsOption(TrailingNonce(r), 8) && FitsOption(TrailingVersion(r), 1)
  {
    R.Payload(Shared(r)) + EncodeTrailing(TrailingNonce(r), TrailingVersion(r))
  }

  function Encode(r: OpExecution): seq<byte>
    requires Encodable(r)
  {
    EncodeList(Payload(r))
  }

  /** A deposit from Canyon on ends in its nonce and version. */
  function Fields(r: OpExecution): seq<Tree> {
    R.Fields(Shared(r))
    + if r.Deposit? && r.version.Some? then [Leaf(Trimmed(r.nonce)), Leaf(Trimmed(r.version.value))] else []
  }

  /** Every receipt is written as the Yellow Paper's encoding of its fields. */
  lemma ReceiptFollowsYellowPaper(r: OpExecution)
    requires Encodable(r)
    ensures Encode(r) == YellowPaper(Node(Fields(r)))
  {
    hide EncodeUint, EncodeList, YellowPaper, YellowPaperItems, R.Fields, R.Payload, Pow256, Trimmed;
    R.PayloadFollowsYellowPaper(Shared(r));
    if r.Deposit? && r.version.Some? {
      var nonce, version := Leaf(Trimmed(r.nonce)), Leaf(Trimmed(r.version.value));
      UintFollowsYellowPaper(r.nonce);
      UintFollowsYellowPaper(r.version.value);
      R.OneItem(nonce);
      R.OneItem(version);
      assert [nonce, version] == [nonce] + [version];
      YellowPaperConcat([nonce], [version]);
      YellowPaperConcat(R.Fields(Shared(r)), [nonce, version]);
    } else {
      assert Fields(r) == R.Fields(Shared(r)) && Payload(r) == R.Payload(Shared(r));
    }
    ListFollowsYellowPaper(Payload(r), Fields(r));
  }

  // ----- decoding -----

  /** An optional field, with `left` bytes of the list unread. */
  function DecodeOption(buf: seq<byte>, left: int, width: nat): Result<Option<nat>> {
    if left <= 0 then Ok(None, buf)
    else if buf != [] && buf[0] == EMPTY_STRING then Ok(None, buf[1..])
    else
      var n := DecodeUint(buf, width);
      if n.Err? then Err else Ok(Some(n.value), n.rest)
  }

  datatype Trailing = Trailing(nonce: Option<nat>, version: Option<nat>)

  function DecodeTrailing(buf: seq<byte>, left: int): Result<Trailing> {
    var nonce := DecodeOption(buf, left, 8);
    if nonce.Err? then Err else
    var version := DecodeOption(nonce.rest, left - (|buf| - |nonce.rest|), 1);
    if version.Err? then Err else Ok(Trailing(nonce.value, version.value), version.rest)
  }

  /** A nonce makes the receipt a deposit. */
  function FromFields(status: bool, shared: R.Shared, trailing: Trailing): OpExecution {
    if trailing.nonce.Some? then
      Deposit(status, shared.cumulativeGasUsed, shared.logsBloom, shared.logs, trailing.nonce.value, trailing.version)
    else
      Eip658(status, shared.cumulativeGasUsed, shared.logsBloom, shared.logs)
  }

  function DecodeEip658OrDeposit(buf: seq<byte>): Result<OpExecution> {
    var h := DecodeHeader(buf);
    if h.Err? || !h.value.list then Err else
    var status := DecodeBool(h.rest);
    if status.Err? then Err else
    var shared := R.DecodeOtherFields(status.rest);
    if shared.Err? then Err else
    var trailing := DecodeTrailing(shared.rest, h.value.length - (|h.rest| - |shared.rest|));
    if trailing.Err? || |h.rest| - |trailing.rest| != h.value.length then Err
    else Ok(FromFields(status.value, shared.value, trailing.value), trailing.rest)
  }

  /** A legacy receipt counts as a successful one. */
  function FromLegacy(r: R.Execution): OpExecution {
    Eip658(true, r.cumulativeGasUsed, r.logsBloom, r.logs)
  }

  function Decode(buf: seq<byte>): Result<OpExecution> {
    var outer := DecodeHeader(buf);
    if outer.Err? then Err else
    var first := DecodeHeader(outer.rest);
    if first.Err? then Err
    else if first.value.length == 1 then DecodeEip658OrDeposit(buf)
    else
      var legacy := R.DecodeLegacy(buf);
      if legacy.Err? then Err else Ok(FromLegacy(legacy.value), legacy.rest)
  }

  // ----- trailing fields -----

  /** What is read back of an optional field: a zero is taken for absent. */
  function ReadBack(n: Option<nat>): Option<nat> {
    if n == Some(0) then None else n
  }

  lemma UintStart(n: nat)
    requires Fits(n)
    ensures n == 0 ==> EncodeUint(n) == [EMPTY_STRING]
    ensures n > 0 ==> EncodeUint(n) != [] && EncodeUint(n)[0] != EMPTY_STRING
  {
    TrimmedProperties(n, 8);
    SmallFits(|Trimmed(n)|);
    hide Trimmed;
    if n == 0 {
      assert Trimmed(0) == [];
      assert EncodeHeader(false, 0) + [] == [0x80];
    }
  }

  /** One field that was written, or whose place is kept by the empty string. */
  lemma OptionRoundTrip(n: nat, width: nat, rest: seq<byte>, left: int)
    requires n < Pow256(width) && width <= 8 && Fits(n) && left > 0
    ensures DecodeOption(EncodeUint(n) + rest, left, width) == Ok(ReadBack(Some(n)), rest)
    ensures |EncodeUint(n)| > 0
  {
    hide EncodeUint, DecodeUint, Pow256;
    UintStart(n);
    UintRoundTrip(n, width, rest);
    if n == 0 {
      assert ([EMPTY_STRING] + rest)[1..] == rest;
    }
  }

  /** Reading back any two trailing fields gives them with zeros for absent. */
  lemma TrailingRoundTrip(nonce: Option<nat>, version: Option<nat>, rest: seq<byte>)
    requires FitsOption(nonce, 8) && FitsOption(version, 1)
    ensures var bytes := EncodeTrailing(nonce, version);
            DecodeTrailing(bytes + rest, |bytes|) == Ok(Trailing(ReadBack(nonce), ReadBack(version)), rest)
  {
    hide EncodeUint, DecodeOption, Pow256, Fits;
    var bytes := EncodeTrailing(nonce, version);
    var v := if version.Some? then EncodeUint(version.value) else [];
    VersionRoundTrip(version, v, rest);
    NonceRoundTrip(nonce, version, v, rest);
  }

  lemma VersionRoundTrip(version: Option<nat>, v: seq<byte>, rest: seq<byte>)
    requires FitsOption(version, 1) && v == if version.Some? then EncodeUint(version.value) else []
    ensures DecodeOption(v + rest, |v|, 1) == Ok(ReadBack(version), rest)
  {
    hide EncodeUint, DecodeUint, Pow256;
    if version.Some? {
      UintStart(version.value);
      OptionRoundTrip(version.value, 1, rest, |v|);
    } else {
      assert v + rest == rest;
    }
  }

  lemma NonceRoundTrip(nonce: Option<nat>, version: Option<nat>, v: seq<byte>, rest: seq<byte>)
    requires FitsOption(nonce, 8) && FitsOption(version, 1)
    requires v == if version.Some? then EncodeUint(version.value) else []
    ensures var bytes := EncodeTrailing(nonce, version);
            DecodeOption(bytes + rest, |bytes|, 8) == Ok(ReadBack(nonce), v + rest)
  {
    hide EncodeUint, DecodeUint, Pow256;
    var bytes := EncodeTrailing(nonce, version);
    if nonce.Some? {
      UintStart(nonce.value);
      assert bytes + rest == EncodeUint(nonce.value) + (v + rest);
      OptionRoundTrip(nonce.value, 8, v + rest, |bytes|);
    } else if version.Some? {
      assert bytes + rest == [EMPTY_STRING] + (v + rest);
      assert (bytes + rest)[1..] == v + rest;
    } else {
      assert bytes + rest == rest == v + rest;
    }
  }

  // ----- round trips -----

  /** What an encoded receipt is read back as. */
  function ReadsAs(r: OpExecution): OpExecution {
    FromFields(r.status, R.Shared(r.cumulativeGasUsed, r.logsBloom, r.logs),
               Trailing(ReadBack(TrailingNonce(r)), ReadBack(TrailingVersion(r))))
  }

  lemma OuterHeader(r: OpExecution, rest: seq<byte>)
    requires Encodable(r)
    ensures var trailing := EncodeTrailing(TrailingNonce(r), TrailingVersion(r));
            DecodeHeader(Encode(r) + rest)
            == Ok(Header(true, |Payload(r)|),
                  EncodeBool(r.status) + (R.OtherFields(Shared(r)) + (trailing + rest)))
  {
    hide Trimmed, DecodeHeader, EncodeHeader, Pow256, Fits, EncodeTrailing, R.OtherFields, R.EncodableLog, Rlp.Concat,
         R.EncodedLogs;
    var fields, trailing := R.OtherFields(Shared(r)), EncodeTrailing(TrailingNonce(r), TrailingVersion(r));
    HeaderRoundTrip(true, Payload(r), rest);
    assert Encode(r) + rest == EncodeHeader(true, |Payload(r)|) + (Payload(r) + rest);
    assert Payload(r) == EncodeBool(r.status) + fields + trailing;
    assert Payload(r) + rest == EncodeBool(r.status) + (fields + (trailing + rest));
  }

  lemma StatusHeader(status: bool, after: seq<byte>)
    ensures DecodeHeader(EncodeBool(status) + after)
         == Ok(Header(false, if status then 1 else 0), if status then [1] + after else after)
  {
    var buf := EncodeBool(status) + after;
    assert buf[1..] == after;
  }

  lemma {:induction false} SuccessfulReadsAs(r: OpExecution, rest: seq<byte>)
    requires Encodable(r) && r.status
    ensures Decode(Encode(r) + rest) == Ok(ReadsAs(r), rest)
  {
    hide Trimmed, EncodeHeader, DecodeHeader, DecodePayload, R.DecodeOtherFields, R.OtherFields, Pow256, Fits, Encode,
         R.EncodableLog, DecodeBool, EncodeTrailing, DecodeTrailing, EncodeBool, Payload, FromFields;
    var fields, trailing := R.OtherFields(Shared(r)), EncodeTrailing(TrailingNonce(r), TrailingVersion(r));
    PayloadLengths(r);
    OuterHeader(r, rest);
    BoolRoundTrip(true, fields + (trailing + rest));
    StatusHeader(true, fields + (trailing + rest));
    R.OtherFieldsRoundTrip(Shared(r), trailing + rest);
    TrailingRoundTrip(TrailingNonce(r), TrailingVersion(r), rest);
    assert DecodeEip658OrDeposit(Encode(r) + rest) == Ok(ReadsAs(r), rest);
  }

  lemma PayloadLengths(r: OpExecution)
    requires Encodable(r)
    ensures |EncodeBool(r.status)| == 1
    ensures |Payload(r)| == 1 + |R.OtherFields(Shared(r))| + |EncodeTrailing(TrailingNonce(r), TrailingVersion(r))|
  {
    hide R.OtherFields, EncodeTrailing, R.EncodableLog;
  }

  /** A failed status is no first field of length one: the legacy layout is tried, and the
      empty string is no root. */
  lemma FailedIsRejected(r: OpExecution, rest: seq<byte>)
    requires Encodable(r) && !r.status
    ensures Decode(Encode(r) + rest) == Err
  {
    hide Trimmed, EncodeHeader, DecodeHeader, R.DecodeOtherFields, R.OtherFields, Pow256, Fits, Encode, R.EncodableLog,
         EncodeTrailing, EncodeBool, Payload;
    var after := R.OtherFields(Shared(r)) + (EncodeTrailing(TrailingNonce(r), TrailingVersion(r)) + rest);
    OuterHeader(r, rest);
    StatusHeader(false, after);
  }

  /** Whether reading a receipt back loses nothing of it. */
  predicate Recoverable(r: OpExecution) {
    r.status && (r.Deposit? ==> r.nonce > 0 && r.version.Some? && r.version.value > 0)
  }

  /** Decoding an encoded OP receipt, followed by anything, gives the receipt back and
      leaves what follows if and only if it is successful and, for a deposit, has a version
      and neither its version nor its nonce is zero. */
  lemma OpRoundTripIff(r: OpExecution, rest: seq<byte>)
    requires Encodable(r)
    ensures Decode(Encode(r) + rest) == Ok(r, rest) <==> Recoverable(r)
  {
    hide Encode, Decode, Encodable;
    if r.status {
      SuccessfulReadsAs(r, rest);
    } else {
      FailedIsRejected(r, rest);
    }
  }

  /** What becomes of the other successful deposits: without a version, or with nonce zero,
      they turn into EIP-658 receipts; a version zero is dropped. */
  lemma DepositsReadAs(r: OpExecution, rest: seq<byte>)
    requires Encodable(r) && r.Deposit? && r.status
    ensures Decode(Encode(r) + rest)
         == Ok(if r.version.None? || r.nonce == 0
               then Eip658(true, r.cumulativeGasUsed, r.logsBloom, r.logs)
               else r.(version := if r.version == Some(0) then None else r.version),
               rest)
  {
    hide Encode, Decode, Encodable;
    SuccessfulReadsAs(r, rest);
  }

  /** The receipt the builder makes for a transaction; `nonce` is the sender's before it. */
  function Build(isDeposit: bool, canyon: bool, nonce: nat, success: bool, cumulativeGasUsed: nat, logsBloom: seq<byte>,
                 logs: seq<Log>): OpExecution {
    if isDeposit then
      Deposit(success, cumulativeGasUsed, logsBloom, logs, nonce, if canyon then Some(1) else None)
    else
      Eip658(success, cumulativeGasUsed, logsBloom, logs)
  }

  /** What a reader gets of the receipt of a successful transaction: a deposit from Canyon on,
      whose sender had a nonce above zero, with that nonce and version 1, and anything else as
      an EIP-658 receipt. */
  lemma BuiltReceiptReadsAs(isDeposit: bool, canyon: bool, nonce: nat, cumulativeGasUsed: nat, logsBloom: seq<byte>,
                            logs: seq<Log>, rest: seq<byte>)
    requires Encodable(Build(isDeposit, canyon, nonce, true, cumulativeGasUsed, logsBloom, logs))
    ensures var r := Build(isDeposit, canyon, nonce, true, cumulativeGasUsed, logsBloom, logs);
            Decode(Encode(r) + rest)
            == Ok(if isDeposit && canyon && nonce > 0
                  then Deposit(true, cumulativeGasUsed, logsBloom, logs, nonce, Some(1))
                  else Eip658(true, cumulativeGasUsed, logsBloom, logs),
                  rest)
  {
    hide Encode, Decode, Encodable;
    SuccessfulReadsAs(Build(isDeposit, canyon, nonce, true, cumulativeGasUsed, logsBloom, logs), rest);
  }

  /** So a receipt the builder makes is read back if and only if the transaction succeeded
      and is no deposit, or one from Canyon on whose sender had a nonce above zero. */
  lemma BuiltReceiptRoundTripIff(isDeposit: bool, canyon: bool, nonce: nat, success: bool, cumulativeGasUsed: nat,
                                 logsBloom: seq<byte>, logs: seq<Log>, rest: seq<byte>)
    requires Encodable(Build(isDeposit, canyon, nonce, success, cumulativeGasUsed, logsBloom, logs))
    ensures var r := Build(isDeposit, canyon, nonce, success, cumulativeGasUsed, logsBloom, logs);
            Decode(Encode(r) + rest) == Ok(r, rest) <==> success && (isDeposit ==> canyon && nonce > 0)
  {
    hide Encode, Decode, Encodable;
    OpRoundTripIff(Build(isDeposit, canyon, nonce, success, cumulativeGasUsed, logsBloom, logs), rest);
  }

  /** Every legacy receipt reads as the successful EIP-658 receipt with its fields. */
  lemma LegacyReadsAsSuccessful(r: R.Execution, rest: seq<byte>)
    requires R.Encodable(r) && r.Legacy?
    ensures Decode(R.Encode(r) + rest) == Ok(Eip658(true, r.cumulativeGasUsed, r.logsBloom, r.logs), rest)
  {
    R.LegacyLayout(r, rest);
    hide R.DecodeLegacy, DecodeHeader, R.Encode, R.Encodable, DecodeEip658OrDeposit;
  }

  // ----- the decoder admits more -----

  /** Trailing fields are as they are written exactly if there are none, or both. */
  lemma TrailingIsCanonicalIff(buf: seq<byte>, left: int)
    requires var t := DecodeTrailing(buf, left); t.Ok? && |buf| - |t.rest| == left
    ensures var t := DecodeTrailing(buf, left);
            var nonce := if t.value.nonce.Some? && t.value.version.Some? then t.value.nonce else None;
            var version := if t.value.nonce.Some? then t.value.version else None;
            && FitsOption(nonce, 8) && FitsOption(version, 1)
            && (buf == EncodeTrailing(nonce, version) + t.rest
                <==> if t.value.nonce.Some? then t.value.version.Some? else left == 0)
  {
    hide DecodeUint, EncodeUint, Pow256;
    var nonce := DecodeOption(buf, left, 8);
    if nonce.value.Some? {
      UintIsCanonical(buf, 8);
      var version := DecodeOption(nonce.rest, left - (|buf| - |nonce.rest|), 1);
      if version.value.Some? {
        UintIsCanonical(nonce.rest, 1);
        assert buf == EncodeUint(nonce.value.value) + EncodeUint(version.value.value) + version.rest;
      }
    }
  }

  /** What follows the status, and how many bytes are left for the trailing fields. */
  function AfterStatus(buf: seq<byte>): seq<byte>
    requires DecodeEip658OrDeposit(buf).Ok?
  {
    DecodeBool(DecodeHeader(buf).rest).rest
  }

  function LeftForTrailing(buf: seq<byte>): int
    requires DecodeEip658OrDeposit(buf).Ok?
  {
    var h := DecodeHeader(buf);
    h.value.length - (|h.rest| - |R.DecodeOtherFields(AfterStatus(buf)).rest|)
  }

  lemma StatusIsCanonical(buf: seq<byte>)
    requires DecodeEip658OrDeposit(buf).Ok?
    ensures var r, h, others := DecodeEip658OrDeposit(buf), DecodeHeader(buf), AfterStatus(buf);
            && h.Ok? && Fits(h.value.length) && buf == EncodeHeader(true, h.value.length) + h.rest
            && |h.rest| - |r.rest| == h.value.length && h.rest == EncodeBool(r.value.status) + others
            && R.DecodeOtherFields(others).Ok?
            && var shared := R.DecodeOtherFields(others);
               var trailing := DecodeTrailing(shared.rest, LeftForTrailing(buf));
               && trailing.Ok? && trailing.rest == r.rest && |shared.rest| - |r.rest| == LeftForTrailing(buf)
               && r.value == FromFields(r.value.status, shared.value, trailing.value)
  {
    hide DecodeHeader, DecodeBool, R.DecodeOtherFields, EncodeHeader, DecodeTrailing, Pow256;
    var h := DecodeHeader(buf);
    HeaderIsCanonical(buf);
    BoolIsCanonical(h.rest);
  }

  /** The condition under which a buffer in the new layout is as it is written. */
  predicate AsWritten(buf: seq<byte>)
    requires DecodeEip658OrDeposit(buf).Ok? && R.DecodeOtherFields(AfterStatus(buf)).Ok?
  {
    var r := DecodeEip658OrDeposit(buf).value;
    R.AllLists(R.LogBytesOf(AfterStatus(buf))) && if r.Deposit? then r.version.Some? else LeftForTrailing(buf) == 0
  }

  lemma PayloadIsWritten(r: OpExecution, others: seq<byte>, after: seq<byte>, rest: seq<byte>, h: seq<byte>,
                         buf: seq<byte>)
    requires R.Encodable(Shared(r)) && FitsOption(TrailingNonce(r), 8) && FitsOption(TrailingVersion(r), 1)
    requires buf == h + (EncodeBool(r.status) + others) && others == R.OtherFields(Shared(r)) + after
    requires after == EncodeTrailing(TrailingNonce(r), TrailingVersion(r)) + rest
    ensures EncodeBool(r.status) + others == Payload(r) + rest && buf == h + Payload(r) + rest
  {
    hide R.OtherFields, R.Encodable, EncodeTrailing;
  }

  lemma AsWrittenMeansCanonical(buf: seq<byte>)
    requires DecodeEip658OrDeposit(buf).Ok? && R.DecodeOtherFields(AfterStatus(buf)).Ok? && AsWritten(buf)
    ensures var r := DecodeEip658OrDeposit(buf); Encodable(r.value) && buf == Encode(r.value) + r.rest
  {
    hide DecodeEip658OrDeposit, DecodeHeader, AfterStatus, LeftForTrailing, R.DecodeOtherFields, R.OtherFields,
         EncodeHeader, DecodeTrailing, EncodeTrailing, Pow256, R.AllLists, R.LogBytesOf, R.EncodableLog, R.EncodedLogs,
         Rlp.Concat;
    StatusIsCanonical(buf);
    var r, h, others := DecodeEip658OrDeposit(buf), DecodeHeader(buf), AfterStatus(buf);
    var shared := R.DecodeOtherFields(others);
    R.OtherFieldsAreCanonicalIff(others, Shared(r.value));
    TrailingIsCanonicalIff(shared.rest, LeftForTrailing(buf));
    SharedFits(r.value, others, shared.rest, h.value.length);
    PayloadIsWritten(r.value, others, shared.rest, r.rest, EncodeHeader(true, h.value.length), buf);
  }

  lemma SharedFits(r: OpExecution, others: seq<byte>, after: seq<byte>, length: nat)
    requires r.cumulativeGasUsed < Pow256(8) && |r.logsBloom| == 256 && (forall l <- r.logs :: R.EncodableLog(l))
    requires Fits(|Rlp.Concat(R.EncodedLogs(r.logs))|) && others == R.OtherFields(Shared(r)) + after
    requires Fits(length) && |EncodeBool(r.status) + others| - |after| <= length
    ensures R.Encodable(Shared(r))
  {
    hide R.OtherFields, R.EncodedLogs, Rlp.Concat, Pow256, R.EncodableLog;
  }

  lemma CanonicalMeansAsWritten(buf: seq<byte>)
    requires DecodeEip658OrDeposit(buf).Ok? && R.DecodeOtherFields(AfterStatus(buf)).Ok?
    requires var r := DecodeEip658OrDeposit(buf); Encodable(r.value) && buf == Encode(r.value) + r.rest
    ensures AsWritten(buf)
  {
    hide DecodeEip658OrDeposit, DecodeHeader, AfterStatus, LeftForTrailing, R.DecodeOtherFields, R.OtherFields,
         EncodeHeader, DecodeTrailing, EncodeTrailing, Pow256, R.AllLists, R.LogBytesOf, R.EncodableLog, R.EncodedLogs,
         Rlp.Concat;
    StatusIsCanonical(buf);
    var r, h, others := DecodeEip658OrDeposit(buf), DecodeHeader(buf), AfterStatus(buf);
    var payload, trailing := Payload(r.value), EncodeTrailing(TrailingNonce(r.value), TrailingVersion(r.value));
    HeaderRoundTrip(true, payload, r.rest);
    assert buf == EncodeHeader(true, |payload|) + (payload + r.rest);
    var status := EncodeBool(r.value.status);
    assert h.rest == status + (R.OtherFields(Shared(r.value)) + (trailing + r.rest));
    R.EqualAfterPrefix(h.rest, status, others, R.OtherFields(Shared(r.value)) + (trailing + r.rest));
    R.OtherFieldsRoundTrip(Shared(r.value), trailing + r.rest);
    R.OtherFieldsAreCanonicalIff(others, Shared(r.value));
    TrailingIsCanonicalIff(trailing + r.rest, LeftForTrailing(buf));
  }

  /** A buffer that reads as an OP receipt is that receipt's encoding if and only if it is in
      the EIP-658 layout, every log in it has a list's header, and it carries no trailing
      bytes or, for a deposit, both trailing fields. */
  lemma OpReceiptIsCanonicalIff(buf: seq<byte>)
    requires Decode(buf).Ok?
    ensures var r := Decode(buf);
            var first := DecodeHeader(DecodeHeader(buf).rest);
            && (first.value.length == 1 ==>
                  DecodeEip658OrDeposit(buf) == r && R.DecodeOtherFields(AfterStatus(buf)).Ok?)
            && (Encodable(r.value) && buf == Encode(r.value) + r.rest
                <==> first.value.length == 1 && AsWritten(buf))
  {
    var r := Decode(buf);
    var first := DecodeHeader(DecodeHeader(buf).rest);
    if first.value.length == 1 {
      hide DecodeEip658OrDeposit, AfterStatus, AsWritten, Encodable, Encode, R.DecodeOtherFields, DecodeHeader;
      StatusIsCanonical(buf);
      if AsWritten(buf) {
        AsWrittenMeansCanonical(buf);
      }
      if Encodable(r.value) && buf == Encode(r.value) + r.rest {
        CanonicalMeansAsWritten(buf);
      }
    } else if Encodable(r.value) && buf == Encode(r.value) + r.rest {
      EncodedStatusHeader(r.value, r.rest);
    }
  }

  lemma EncodedStatusHeader(r: OpExecution, rest: seq<byte>)
    requires Encodable(r)
    ensures var h := DecodeHeader(Encode(r) + rest);
            h.Ok? && (r.status ==> DecodeHeader(h.rest).Ok? && DecodeHeader(h.rest).value.length == 1)
  {
    hide EncodeHeader, R.OtherFields, EncodeTrailing, Pow256, R.Encodable;
    var payload := Payload(r);
    HeaderRoundTrip(true, payload, rest);
    assert Encode(r) + rest == EncodeHeader(true, |payload|) + (payload + rest);
    assert payload[0] == EncodeBool(r.status)[0];
  }

  // ----- length -----

  function OptionLength(n: Option<nat>, absent: nat): nat {
    if n.Some? then BytesLength(Trimmed(n.value)) else absent
  }

  function PayloadLength(r: OpExecution): nat {
    R.PayloadLength(Shared(r))
    + OptionLength(TrailingNonce(r), if TrailingVersion(r).Some? then 1 else 0)
    + OptionLength(TrailingVersion(r), 0)
  }

  /** `length`: computed from the fields, without encoding them. */
  function Length(r: OpExecution): nat {
    HeaderLength(PayloadLength(r)) + PayloadLength(r)
  }

  lemma OpLengthIsExact(r: OpExecution)
    requires Encodable(r)
    ensures |Encode(r)| == Length(r)
  {
    hide Trimmed, Pow256, EncodeUint, DecodeUint, BytesLength, HeaderLength, EncodeList, R.Payload, R.PayloadLength,
         R.Encodable;
    R.PayloadLengthIsExact(Shared(r));
    if TrailingNonce(r).Some? {
      UintRoundTrip(TrailingNonce(r).value, 8, []);
    }
    if TrailingVersion(r).Some? {
      UintRoundTrip(TrailingVersion(r).value, 1, []);
    }
    ListRoundTrip(Payload(r), []);
  }
}
