/** Execution receipts and their RLP layouts. */
module Receipt {
  import opened Bytes
  import opened Rlp
  import opened Bloom

  /** Pre- and post-EIP-658 receipts. */
  datatype Execution =
    | Legacy(root: seq<byte>, cumulativeGasUsed: nat, logsBloom: seq<byte>, logs: seq<Log>)
    | Eip658(status: bool, cumulativeGasUsed: nat, logsBloom: seq<byte>, logs: seq<Log>)

  // ----- encoding -----

  function EncodedTopics(topics: seq<seq<byte>>): seq<seq<byte>>
    requires forall t <- topics :: |t| == 32
  {
    seq(|topics|, i requires 0 <= i < |topics| => SmallFits(32); EncodeBytes(topics[i]))
  }

  /** The sizes the Rust types fix, and lengths that fit a header. */
  ghost predicate EncodableLog(log: Log) {
    && |log.address| == 20
    && (forall t <- log.topics :: |t| == 32)
    && Fits(|Rlp.Concat(EncodedTopics(log.topics))|)
    && Fits(|log.data|)
    && Fits(|LogPayload(log)|)
  }

  function LogPayload(log: Log): seq<byte>
    requires |log.address| == 20 && (forall t <- log.topics :: |t| == 32)
    requires Fits(|Rlp.Concat(EncodedTopics(log.topics))|) && Fits(|log.data|)
  {
    SmallFits(20);
    EncodeBytes(log.address) + EncodeList(Rlp.Concat(EncodedTopics(log.topics))) + EncodeBytes(log.data)
  }

  function EncodeLog(log: Log): seq<byte>
    requires EncodableLog(log)
  {
    EncodeList(LogPayload(log))
  }

  function EncodedLogs(logs: seq<Log>): seq<seq<byte>>
    requires forall l <- logs :: EncodableLog(l)
  {
    seq(|logs|, i requires 0 <= i < |logs| => EncodeLog(logs[i]))
  }

  ghost predicate Encodable(r: Execution) {
    && (r.Legacy? ==> |r.root| == 32)
    && r.cumulativeGasUsed < Pow256(8)
    && |r.logsBloom| == 256
    && (forall l <- r.logs :: EncodableLog(l))
    && Fits(|Rlp.Concat(EncodedLogs(r.logs))|)
    && Fits(|Payload(r)|)
  }

  function FirstField(r: Execution): seq<byte>
    requires r.Legacy? ==> |r.root| == 32
  {
    match r
    case Legacy(root, _, _, _) => SmallFits(32); EncodeBytes(root)
    case Eip658(status, _, _, _) => EncodeBool(status)
  }

  /** The fields both layouts share. */
  function OtherFields(r: Execution): seq<byte>
    requires r.cumulativeGasUsed < Pow256(8) && |r.logsBloom| == 256
    requires (forall l <- r.logs :: EncodableLog(l)) && Fits(|Rlp.Concat(EncodedLogs(r.logs))|)
  {
    SmallFits(256);
    EncodeUint(r.cumulativeGasUsed) + EncodeBytes(r.logsBloom) + EncodeList(Rlp.Concat(EncodedLogs(r.logs)))
  }

  function Payload(r: Execution): seq<byte>
    requires r.Legacy? ==> |r.root| == 32
    requires r.cumulativeGasUsed < Pow256(8) && |r.logsBloom| == 256
    requires (forall l <- r.logs :: EncodableLog(l)) && Fits(|Rlp.Concat(EncodedLogs(r.logs))|)
  {
    FirstField(r) + OtherFields(r)
  }

  function Encode(r: Execution): seq<byte>
    requires Encodable(r)
  {
    EncodeList(Payload(r))
  }

  // ----- what is encoded -----

  function Leaves(strings: seq<seq<byte>>): seq<Tree> {
    seq(|strings|, i requires 0 <= i < |strings| => Leaf(strings[i]))
  }

  function LogTree(log: Log): Tree {
    Node([Leaf(log.address), Node(Leaves(log.topics)), Leaf(log.data)])
  }

  function LogTrees(logs: seq<Log>): seq<Tree> {
    seq(|logs|, i requires 0 <= i < |logs| => LogTree(logs[i]))
  }

  /** The fields of a receipt, in the order of the Yellow Paper's section 4.4.1, with the
      status in place of the state root since EIP-658. */
  function Fields(r: Execution): seq<Tree> {
    [Leaf(if r.Legacy? then r.root else if r.status then [1] else []), Leaf(Trimmed(r.cumulativeGasUsed)),
     Leaf(r.logsBloom), Node(LogTrees(r.logs))]
  }

  lemma TopicsFollowYellowPaper(topics: seq<seq<byte>>)
    requires forall t <- topics :: |t| == 32
    ensures Rlp.Concat(EncodedTopics(topics)) == YellowPaperItems(Leaves(topics))
  {
    hide Rlp.Concat, YellowPaperItems;
    forall i | 0 <= i < |topics|
      ensures EncodedTopics(topics)[i] == YellowPaper(Leaves(topics)[i])
    {
      SmallFits(32);
      BytesFollowYellowPaper(topics[i]);
    }
    ConcatFollowsYellowPaper(EncodedTopics(topics), Leaves(topics));
  }

  lemma ThreeItems(a: Tree, b: Tree, c: Tree)
    ensures YellowPaperItems([a, b, c]) == YellowPaper(a) + YellowPaper(b) + YellowPaper(c)
  {
    hide YellowPaper;
    assert [a, b, c][1..] == [b, c] && [b, c][1..] == [c] && [c][1..] == [];
    assert YellowPaperItems([c]) == YellowPaper(c);
    assert YellowPaperItems([b, c]) == YellowPaper(b) + YellowPaper(c);
  }

  lemma LogFollowsYellowPaper(log: Log)
    requires EncodableLog(log)
    ensures EncodeLog(log) == YellowPaper(LogTree(log))
  {
    hide EncodeBytes, EncodeList, YellowPaper, Rlp.Concat, YellowPaperItems, EncodedTopics;
    SmallFits(20);
    BytesFollowYellowPaper(log.address);
    TopicsFollowYellowPaper(log.topics);
    ListFollowsYellowPaper(Rlp.Concat(EncodedTopics(log.topics)), Leaves(log.topics));
    BytesFollowYellowPaper(log.data);
    ThreeItems(Leaf(log.address), Node(Leaves(log.topics)), Leaf(log.data));
    ListFollowsYellowPaper(LogPayload(log), [Leaf(log.address), Node(Leaves(log.topics)), Leaf(log.data)]);
  }

  lemma LogsFollowYellowPaper(logs: seq<Log>)
    requires forall l <- logs :: EncodableLog(l)
    ensures Rlp.Concat(EncodedLogs(logs)) == YellowPaperItems(LogTrees(logs))
  {
    hide Rlp.Concat, YellowPaperItems, YellowPaper, EncodeLog, EncodableLog, LogTree;
    forall i | 0 <= i < |logs|
      ensures EncodedLogs(logs)[i] == YellowPaper(LogTrees(logs)[i])
    {
      LogFollowsYellowPaper(logs[i]);
    }
    ConcatFollowsYellowPaper(EncodedLogs(logs), LogTrees(logs));
  }

  lemma PayloadFollowsYellowPaper(r: Execution)
    requires Encodable(r)
    ensures Payload(r) == YellowPaperItems(Fields(r))
  {
    hide EncodeBytes, EncodeUint, EncodeBool, EncodeList, YellowPaper, Rlp.Concat, YellowPaperItems, EncodedLogs,
         Pow256, Trimmed;
    var first, gas, bloom, logs := Fields(r)[0], Fields(r)[1], Fields(r)[2], Fields(r)[3];
    if r.Legacy? {
      SmallFits(32);
      BytesFollowYellowPaper(r.root);
    } else {
      BoolFollowsYellowPaper(r.status);
    }
    UintFollowsYellowPaper(r.cumulativeGasUsed);
    SmallFits(256);
    BytesFollowYellowPaper(r.logsBloom);
    LogsFollowYellowPaper(r.logs);
    ListFollowsYellowPaper(Rlp.Concat(EncodedLogs(r.logs)), LogTrees(r.logs));
    ThreeItems(gas, bloom, logs);
    assert Fields(r) == [first] + [gas, bloom, logs];
    YellowPaperConcat([first], [gas, bloom, logs]);
    OneItem(first);
  }

  lemma OneItem(t: Tree)
    ensures YellowPaperItems([t]) == YellowPaper(t)
  {
    hide YellowPaper;
    assert [t][1..] == [];
  }

  /** Every receipt is written as the Yellow Paper's encoding of its fields. */
  lemma ReceiptFollowsYellowPaper(r: Execution)
    requires Encodable(r)
    ensures Encode(r) == YellowPaper(Node(Fields(r)))
  {
    hide EncodeList, YellowPaper, YellowPaperItems, Fields, Payload;
    PayloadFollowsYellowPaper(r);
    ListFollowsYellowPaper(Payload(r), Fields(r));
  }

  // ----- decoding -----

  function DecodeTopic(buf: seq<byte>): Result<seq<byte>> {
    DecodeFixed(buf, 32)
  }

  lemma TopicsConsume()
    ensures Consumes(DecodeTopic)
  {
  }

  function DecodeLogFields(buf: seq<byte>): (r: Result<Log>)
    ensures r.Ok? ==> |r.rest| < |buf|
  {
    TopicsConsume();
    var address := DecodeFixed(buf, 20);
    if address.Err? then Err else
    var topics := DecodeVec(DecodeTopic, address.rest);
    if topics.Err? then Err else
    var data := DecodePayload(topics.rest, false);
    if data.Err? then Err else Ok(Log(address.value, topics.value, data.value), data.rest)
  }

  /** The header's length is checked and its kind is not. */
  function DecodeLog(buf: seq<byte>): (r: Result<Log>)
    ensures r.Ok? ==> |r.rest| < |buf|
  {
    var h := DecodeHeader(buf);
    if h.Err? then Err else
    var log := DecodeLogFields(h.rest);
    if log.Err? || |h.rest| - |log.rest| != h.value.length then Err else log
  }

  lemma LogsConsume()
    ensures Consumes(DecodeLog)
  {
  }

  datatype Shared = Shared(cumulativeGasUsed: nat, logsBloom: seq<byte>, logs: seq<Log>)

  function DecodeOtherFields(buf: seq<byte>): Result<Shared> {
    LogsConsume();
    var gas := DecodeUint(buf, 8);
    if gas.Err? then Err else
    var bloom := DecodeFixed(gas.rest, 256);
    if bloom.Err? then Err else
    var logs := DecodeVec(DecodeLog, bloom.rest);
    if logs.Err? then Err else Ok(Shared(gas.value, bloom.value, logs.value), logs.rest)
  }

  function DecodeLegacy(buf: seq<byte>): Result<Execution> {
    var h := DecodeHeader(buf);
    if h.Err? || !h.value.list then Err else
    var root := DecodeFixed(h.rest, 32);
    if root.Err? then Err else
    var others := DecodeOtherFields(root.rest);
    if others.Err? || |h.rest| - |others.rest| != h.value.length then Err
    else Ok(Legacy(root.value, others.value.cumulativeGasUsed, others.value.logsBloom, others.value.logs), others.rest)
  }

  function DecodeEip658(buf: seq<byte>): Result<Execution> {
    var h := DecodeHeader(buf);
    if h.Err? || !h.value.list then Err else
    var status := DecodeBool(h.rest);
    if status.Err? then Err else
    var others := DecodeOtherFields(status.rest);
    if others.Err? || |h.rest| - |others.rest| != h.value.length then Err
    else Ok(Eip658(status.value, others.value.cumulativeGasUsed, others.value.logsBloom, others.value.logs),
            others.rest)
  }

  /** Peeks at the header of the first field: one byte means EIP-658. */
  function Decode(buf: seq<byte>): Result<Execution> {
    var outer := DecodeHeader(buf);
    if outer.Err? then Err else
    var first := DecodeHeader(outer.rest);
    if first.Err? then Err
    else if first.value.length == 1 then DecodeEip658(buf) else DecodeLegacy(buf)
  }

  // ----- round trips -----

  lemma TopicsRoundTrip(topics: seq<seq<byte>>, rest: seq<byte>)
    requires forall t <- topics :: |t| == 32
    requires Fits(|Rlp.Concat(EncodedTopics(topics))|)
    ensures Consumes(DecodeTopic)
    ensures DecodeVec(DecodeTopic, EncodeList(Rlp.Concat(EncodedTopics(topics))) + rest) == Ok(topics, rest)
  {
    hide Trimmed, DecodeHeader, EncodeHeader, DecodeItems, Rlp.Concat, Pow256;
    TopicsConsume();
    var encoded := EncodedTopics(topics);
    forall i, more | 0 <= i < |topics|
      ensures DecodeTopic(encoded[i] + more) == Ok(topics[i], more) && encoded[i] != []
    {
      SmallFits(32);
      BytesRoundTrip(topics[i], more);
    }
    forall i | 0 <= i < |topics|
      ensures encoded[i] != []
    {
      assert DecodeTopic(encoded[i] + []) == Ok(topics[i], []);
    }
    ItemsRoundTrip(DecodeTopic, topics, encoded);
    ListRoundTrip(Rlp.Concat(encoded), rest);
  }

  lemma LogFieldsRoundTrip(log: Log, rest: seq<byte>)
    requires EncodableLog(log)
    ensures DecodeLogFields(LogPayload(log) + rest) == Ok(log, rest)
    ensures |LogPayload(log)| > 1
  {
    hide Trimmed, DecodeHeader, EncodeHeader, DecodePayload, DecodeVec, EncodedTopics, Pow256, Fits, BytesLength,
         HeaderLength;
    TopicsConsume();
    SmallFits(20);
    var a, t, d := EncodeBytes(log.address), EncodeList(Rlp.Concat(EncodedTopics(log.topics))), EncodeBytes(log.data);
    assert LogPayload(log) + rest == a + (t + (d + rest));
    BytesRoundTrip(log.address, t + (d + rest));
    TopicsRoundTrip(log.topics, d + rest);
    BytesRoundTrip(log.data, rest);
  }

  /** A log reads back under a list's header, as it is written, and under a string's too. */
  lemma LogReadsUnderEitherHeader(log: Log, list: bool, rest: seq<byte>)
    requires EncodableLog(log)
    ensures DecodeLog(EncodeHeader(list, |LogPayload(log)|) + LogPayload(log) + rest) == Ok(log, rest)
  {
    hide DecodeHeader, EncodeHeader, DecodeLogFields, LogPayload, Pow256;
    var payload := LogPayload(log);
    LogFieldsRoundTrip(log, rest);
    HeaderRoundTrip(list, payload, rest);
    assert EncodeHeader(list, |payload|) + payload + rest == EncodeHeader(list, |payload|) + (payload + rest);
  }

  lemma LogRoundTrip(log: Log, rest: seq<byte>)
    requires EncodableLog(log)
    ensures DecodeLog(EncodeLog(log) + rest) == Ok(log, rest)
  {
    hide DecodeLog, EncodeHeader, LogPayload;
    LogReadsUnderEitherHeader(log, true, rest);
  }

  lemma LogsRoundTrip(logs: seq<Log>, rest: seq<byte>)
    requires forall l <- logs :: EncodableLog(l)
    requires Fits(|Rlp.Concat(EncodedLogs(logs))|)
    ensures Consumes(DecodeLog)
    ensures DecodeVec(DecodeLog, EncodeList(Rlp.Concat(EncodedLogs(logs))) + rest) == Ok(logs, rest)
  {
    hide Trimmed, DecodeHeader, EncodeHeader, DecodeItems, Rlp.Concat, Pow256, EncodeLog, DecodeLog, EncodableLog;
    LogsConsume();
    var encoded := EncodedLogs(logs);
    forall i, more | 0 <= i < |logs|
      ensures DecodeLog(encoded[i] + more) == Ok(logs[i], more)
    {
      LogRoundTrip(logs[i], more);
    }
    forall i | 0 <= i < |logs|
      ensures encoded[i] != []
    {
      assert DecodeLog(encoded[i] + []) == Ok(logs[i], []);
    }
    ItemsRoundTrip(DecodeLog, logs, encoded);
    ListRoundTrip(Rlp.Concat(encoded), rest);
  }

  lemma OtherFieldsRoundTrip(r: Execution, rest: seq<byte>)
    requires Encodable(r)
    ensures DecodeOtherFields(OtherFields(r) + rest) == Ok(Shared(r.cumulativeGasUsed, r.logsBloom, r.logs), rest)
  {
    hide Trimmed, DecodeHeader, EncodeHeader, DecodePayload, DecodeUint, DecodeVec, EncodedLogs, Pow256, BytesLength,
         EncodeUint, EncodeBytes, EncodeList, EncodableLog, Payload;
    LogsConsume();
    SmallFits(256);
    var g, b, l := EncodeUint(r.cumulativeGasUsed), EncodeBytes(r.logsBloom),
                   EncodeList(Rlp.Concat(EncodedLogs(r.logs)));
    assert OtherFields(r) + rest == g + (b + (l + rest));
    UintRoundTrip(r.cumulativeGasUsed, 8, b + (l + rest));
    BytesRoundTrip(r.logsBloom, l + rest);
    LogsRoundTrip(r.logs, rest);
  }

  /** The outer list and its payload, whatever the layout. */
  lemma OuterHeader(r: Execution, rest: seq<byte>)
    requires Encodable(r)
    ensures DecodeHeader(Encode(r) + rest)
         == Ok(Header(true, |Payload(r)|), FirstField(r) + (OtherFields(r) + rest))
  {
    hide Trimmed, DecodeHeader, EncodeHeader, Pow256, Fits, FirstField, OtherFields, EncodableLog, Rlp.Concat,
         EncodedLogs;
    HeaderRoundTrip(true, Payload(r), rest);
    assert Encode(r) + rest == EncodeHeader(true, |Payload(r)|) + (Payload(r) + rest);
    assert Payload(r) + rest == FirstField(r) + (OtherFields(r) + rest);
  }

  /** The first field of a legacy receipt is 32 bytes long, and its layout reads back. */
  lemma LegacyLayout(r: Execution, rest: seq<byte>)
    requires Encodable(r) && r.Legacy?
    ensures DecodeHeader(Encode(r) + rest).Ok?
    ensures var first := DecodeHeader(DecodeHeader(Encode(r) + rest).rest); first.Ok? && first.value.length == 32
    ensures DecodeLegacy(Encode(r) + rest) == Ok(r, rest)
  {
    hide Trimmed, DecodeHeader, EncodeHeader, DecodePayload, DecodeOtherFields, OtherFields, Pow256, Fits, Encode,
         BytesLength, EncodableLog;
    var after := OtherFields(r) + rest;
    OuterHeader(r, rest);
    OtherFieldsRoundTrip(r, rest);
    SmallFits(32);
    BytesRoundTrip(r.root, after);
    assert EncodeBytes(r.root) + after == EncodeHeader(false, 32) + (r.root + after);
    HeaderRoundTrip(false, r.root, after);
  }

  lemma LegacyRoundTrip(r: Execution, rest: seq<byte>)
    requires Encodable(r) && r.Legacy?
    ensures Decode(Encode(r) + rest) == Ok(r, rest)
  {
    hide DecodeHeader, DecodeLegacy, Encode, Encodable, DecodeEip658;
    LegacyLayout(r, rest);
  }

  lemma SuccessfulEip658RoundTrip(r: Execution, rest: seq<byte>)
    requires Encodable(r) && r.Eip658? && r.status
    ensures Decode(Encode(r) + rest) == Ok(r, rest)
  {
    hide Trimmed, EncodeHeader, DecodePayload, DecodeOtherFields, OtherFields, Pow256, Fits, Encode, EncodableLog,
         DecodeUint;
    var after := OtherFields(r) + rest;
    OuterHeader(r, rest);
    OtherFieldsRoundTrip(r, rest);
    BoolRoundTrip(true, after);
    assert ([1] + after)[0] == 1;
    assert DecodeHeader([1] + after) == Ok(Header(false, 1), [1] + after);
    hide DecodeHeader;
    assert DecodeEip658(Encode(r) + rest) == Ok(r, rest);
  }

  /** A failed status encodes as the empty string, whose length is not one: the
      discriminator takes the legacy branch, and an empty string is no root. */
  lemma FailedEip658IsRejected(r: Execution, rest: seq<byte>)
    requires Encodable(r) && r.Eip658? && !r.status
    ensures Decode(Encode(r) + rest) == DecodeLegacy(Encode(r) + rest) == Err
  {
    hide Trimmed, EncodeHeader, DecodeOtherFields, OtherFields, Pow256, Fits, Encode, EncodableLog, DecodeUint;
    var after := OtherFields(r) + rest;
    OuterHeader(r, rest);
    var buf := [0x80] + after;
    assert buf[1..] == after;
    assert DecodeHeader(buf) == Ok(Header(false, 0), after);
    hide DecodeHeader;
    assert DecodePayload(buf, false).value == [];
  }

  /** Decoding an encoded receipt, followed by anything, gives the receipt back and
      leaves what follows, exactly unless it is a failed EIP-658 receipt. */
  lemma ExecutionRoundTripIff(r: Execution, rest: seq<byte>)
    requires Encodable(r)
    ensures Decode(Encode(r) + rest) == Ok(r, rest) <==> !(r.Eip658? && !r.status)
  {
    if r.Legacy? {
      LegacyRoundTrip(r, rest);
    } else if r.status {
      SuccessfulEip658RoundTrip(r, rest);
    } else {
      FailedEip658IsRejected(r, rest);
    }
  }

  // ----- the decoder admits little else -----

  lemma {:induction false} TopicsAreCanonical(buf: seq<byte>)
    requires Consumes(DecodeTopic) && DecodeItems(DecodeTopic, buf).Ok?
    ensures var topics := DecodeItems(DecodeTopic, buf).value;
            (forall t <- topics :: |t| == 32) && buf == Rlp.Concat(EncodedTopics(topics))
    decreases |buf|
  {
    if buf != [] {
      var first := DecodeTopic(buf);
      PayloadIsCanonical(buf, false);
      TopicsAreCanonical(first.rest);
      var topics, others := DecodeItems(DecodeTopic, buf).value, DecodeItems(DecodeTopic, first.rest).value;
      assert EncodedTopics(topics)[1..] == EncodedTopics(others);
    }
  }

  /** A log is accepted with any header of the right length: as it is written, exactly if that
      header is a list's. */
  lemma LogIsCanonicalIff(buf: seq<byte>)
    requires DecodeLog(buf).Ok?
    ensures DecodeHeader(buf).Ok?
    ensures var log, h := DecodeLog(buf), DecodeHeader(buf).value;
            && EncodableLog(log.value)
            && buf == EncodeHeader(h.list, |LogPayload(log.value)|) + LogPayload(log.value) + log.rest
            && (buf == EncodeLog(log.value) + log.rest <==> h.list)
  {
    hide DecodeHeader, EncodeHeader, DecodeLogFields, LogPayload, Pow256, Rlp.Concat, EncodedTopics;
    var log, h := DecodeLog(buf), DecodeHeader(buf);
    HeaderIsCanonical(buf);
    LogFieldsAreCanonical(h.rest);
    var payload := LogPayload(log.value);
    assert h.rest == payload + log.rest && |payload| == h.value.length;
    HeaderKinds(|payload|);
    if buf[0] >= 0x80 {
      assert buf == EncodeHeader(h.value.list, |payload|) + payload + log.rest;
    }
  }

  lemma LogFieldsAreCanonical(buf: seq<byte>)
    requires DecodeLogFields(buf).Ok?
    ensures var log := DecodeLogFields(buf);
            && |log.value.address| == 20 && (forall t <- log.value.topics :: |t| == 32)
            && Fits(|Rlp.Concat(EncodedTopics(log.value.topics))|) && Fits(|log.value.data|)
            && buf == LogPayload(log.value) + log.rest && |LogPayload(log.value)| > 1
  {
    TopicsConsume();
    hide DecodeFixed, DecodeVec, DecodePayload, Pow256, EncodeBytes, EncodeList, EncodedTopics, Rlp.Concat;
    var address := DecodeFixed(buf, 20);
    var topics := DecodeVec(DecodeTopic, address.rest);
    var data := DecodePayload(topics.rest, false);
    FixedIsCanonical(buf, 20);
    TopicListIsCanonical(address.rest);
    PayloadIsCanonical(topics.rest, false);
    BytesRoundTrip(address.value, []);
    LongBytes(address.value);
    var a, t := EncodeBytes(address.value), EncodeList(Rlp.Concat(EncodedTopics(topics.value)));
    var d := EncodeBytes(data.value);
    assert buf == a + (t + (d + data.rest));
    assert buf == a + t + d + data.rest;
  }

  lemma LongBytes(b: seq<byte>)
    requires Fits(|b|) && |b| > 1
    ensures |EncodeBytes(b)| > 1
  {
  }

  lemma TopicListIsCanonical(buf: seq<byte>)
    requires Consumes(DecodeTopic) && DecodeVec(DecodeTopic, buf).Ok?
    ensures var topics := DecodeVec(DecodeTopic, buf);
            && (forall t <- topics.value :: |t| == 32)
            && Fits(|Rlp.Concat(EncodedTopics(topics.value))|)
            && buf == EncodeList(Rlp.Concat(EncodedTopics(topics.value))) + topics.rest
  {
    hide DecodePayload, DecodeItems, Pow256, EncodeBytes, EncodeList, EncodedTopics, Rlp.Concat;
    PayloadIsCanonical(buf, true);
    TopicsAreCanonical(DecodePayload(buf, true).value);
  }

  /** Every log among the encoded ones has a list's header. */
  predicate AllLists(buf: seq<byte>)
    decreases |buf|
  {
    buf == [] ||
    (DecodeLog(buf).Ok? && DecodeHeader(buf).value.list && AllLists(DecodeLog(buf).rest))
  }

  lemma ConsOfLogs(log: Log, logs: seq<Log>)
    requires EncodableLog(log) && forall l <- logs :: EncodableLog(l)
    ensures (forall l <- [log] + logs :: EncodableLog(l))
    ensures Rlp.Concat(EncodedLogs([log] + logs)) == EncodeLog(log) + Rlp.Concat(EncodedLogs(logs))
  {
    hide EncodableLog, EncodeLog;
    assert EncodedLogs([log] + logs)[1..] == EncodedLogs(logs);
  }

  lemma EqualAfterPrefix(buf: seq<byte>, a: seq<byte>, rest: seq<byte>, tail: seq<byte>)
    requires buf == a + rest
    ensures buf == a + tail <==> rest == tail
  {
    assert rest == buf[|a|..] && tail == (a + tail)[|a|..];
  }

  lemma {:induction false} LogsAreCanonicalIff(buf: seq<byte>)
    requires Consumes(DecodeLog) && DecodeItems(DecodeLog, buf).Ok?
    ensures var logs := DecodeItems(DecodeLog, buf).value;
            (forall l <- logs :: EncodableLog(l)) && (buf == Rlp.Concat(EncodedLogs(logs)) <==> AllLists(buf))
    decreases |buf|
  {
    hide DecodeLog, EncodableLog, EncodeLog, DecodeHeader, EncodedLogs, Rlp.Concat, LogPayload;
    if buf == [] {
      NoLogs();
    } else {
      var first := DecodeLog(buf);
      var others := DecodeItems(DecodeLog, first.rest).value;
      LogIsCanonicalIff(buf);
      LogsAreCanonicalIff(first.rest);
      ConsOfLogs(first.value, others);
      if DecodeHeader(buf).value.list {
        EqualAfterPrefix(buf, EncodeLog(first.value), first.rest, Rlp.Concat(EncodedLogs(others)));
      } else {
        DifferentStarts(buf, first.value, first.rest, Rlp.Concat(EncodedLogs(others)));
      }
    }
  }

  lemma NoLogs()
    ensures Rlp.Concat(EncodedLogs([])) == []
  {
  }

  lemma DifferentStarts(buf: seq<byte>, log: Log, rest: seq<byte>, tail: seq<byte>)
    requires EncodableLog(log) && buf == EncodeHeader(false, |LogPayload(log)|) + LogPayload(log) + rest
    ensures buf != EncodeLog(log) + tail
  {
    hide EncodeHeader, LogPayload;
    HeaderKinds(|LogPayload(log)|);
    assert (EncodeLog(log) + tail)[0] == EncodeHeader(true, |LogPayload(log)|)[0];
  }

  /** Where the logs stand in the fields both layouts share: behind gas and bloom. */
  function LogBytesOf(buf: seq<byte>): seq<byte>
    requires DecodeOtherFields(buf).Ok?
  {
    DecodePayload(DecodeFixed(DecodeUint(buf, 8).rest, 256).rest, true).value
  }

  lemma OtherFieldsAreCanonicalIff(buf: seq<byte>, r: Execution)
    requires DecodeOtherFields(buf).Ok?
    requires var s := DecodeOtherFields(buf).value;
             r.cumulativeGasUsed == s.cumulativeGasUsed && r.logsBloom == s.logsBloom && r.logs == s.logs
    ensures r.cumulativeGasUsed < Pow256(8) && |r.logsBloom| == 256 && (forall l <- r.logs :: EncodableLog(l))
    ensures AllLists(LogBytesOf(buf))
       <==> Fits(|Rlp.Concat(EncodedLogs(r.logs))|) && buf == OtherFields(r) + DecodeOtherFields(buf).rest
  {
    LogsConsume();
    hide DecodeUint, DecodeFixed, DecodePayload, DecodeItems, EncodeUint, EncodeBytes, EncodeList, EncodedLogs,
         Rlp.Concat, Pow256, EncodableLog, DecodeLog, AllLists;
    var gas := DecodeUint(buf, 8);
    var bloom := DecodeFixed(gas.rest, 256);
    var list := DecodePayload(bloom.rest, true);
    UintIsCanonical(buf, 8);
    FixedIsCanonical(gas.rest, 256);
    PayloadIsCanonical(bloom.rest, true);
    LogsAreCanonicalIff(list.value);
    var payload := Rlp.Concat(EncodedLogs(r.logs));
    if Fits(|payload|) {
      var prefix := EncodeUint(gas.value) + EncodeBytes(bloom.value);
      assert buf == prefix + (EncodeList(list.value) + list.rest);
      assert OtherFields(r) + list.rest == prefix + (EncodeList(payload) + list.rest);
      EqualAfterPrefix(buf, prefix, EncodeList(list.value) + list.rest, EncodeList(payload) + list.rest);
      ListRoundTrip(list.value, list.rest);
      ListRoundTrip(payload, list.rest);
    }
  }

  /** What follows the first field of a buffer that reads as a receipt. */
  function AfterFirst(buf: seq<byte>): seq<byte>
    requires Decode(buf).Ok?
  {
    var h := DecodeHeader(buf);
    if DecodeHeader(h.rest).value.length == 1 then DecodeBool(h.rest).rest else DecodeFixed(h.rest, 32).rest
  }

  lemma FirstFieldIsCanonical(buf: seq<byte>)
    requires Decode(buf).Ok?
    ensures var r, h, others := Decode(buf), DecodeHeader(buf), AfterFirst(buf);
            && h.Ok? && h.value.list && Fits(h.value.length) && buf == EncodeHeader(true, h.value.length) + h.rest
            && (r.value.Legacy? ==> |r.value.root| == 32) && h.rest == FirstField(r.value) + others
            && DecodeOtherFields(others).Ok?
            && var s := DecodeOtherFields(others);
               && r.rest == s.rest && |h.rest| - |r.rest| == h.value.length
               && r.value.cumulativeGasUsed == s.value.cumulativeGasUsed && r.value.logsBloom == s.value.logsBloom
               && r.value.logs == s.value.logs
  {
    var h := DecodeHeader(buf);
    HeaderIsCanonical(buf);
    if DecodeHeader(h.rest).value.length == 1 {
      BoolIsCanonical(h.rest);
    } else {
      FixedIsCanonical(h.rest, 32);
    }
    hide DecodeHeader, DecodeBool, DecodeFixed, DecodeOtherFields, EncodeHeader, EncodeBytes, Pow256;
  }

  lemma PrefixedPayload(buf: seq<byte>, h: seq<byte>, body: seq<byte>, first: seq<byte>, others: seq<byte>,
                        shared: seq<byte>, rest: seq<byte>)
    requires buf == h + body && body == first + others && others == shared + rest
    ensures body == first + shared + rest && buf == h + (first + shared) + rest
  {
  }

  lemma ListsMeanCanonical(buf: seq<byte>)
    requires Decode(buf).Ok? && DecodeOtherFields(AfterFirst(buf)).Ok? && AllLists(LogBytesOf(AfterFirst(buf)))
    ensures var r := Decode(buf); Encodable(r.value) && buf == Encode(r.value) + r.rest
  {
    hide Decode, DecodeHeader, AfterFirst, FirstField, DecodeOtherFields, OtherFields, EncodeHeader, Pow256,
         EncodedLogs, Rlp.Concat, EncodableLog, AllLists, LogBytesOf;
    FirstFieldIsCanonical(buf);
    var r, h, others := Decode(buf), DecodeHeader(buf), AfterFirst(buf);
    OtherFieldsAreCanonicalIff(others, r.value);
    PrefixedPayload(buf, EncodeHeader(true, h.value.length), h.rest, FirstField(r.value), others, OtherFields(r.value),
                    r.rest);
  }

  lemma CanonicalMeansLists(buf: seq<byte>)
    requires Decode(buf).Ok? && DecodeOtherFields(AfterFirst(buf)).Ok?
    requires var r := Decode(buf); Encodable(r.value) && buf == Encode(r.value) + r.rest
    ensures AllLists(LogBytesOf(AfterFirst(buf)))
  {
    hide Decode, DecodeHeader, AfterFirst, FirstField, DecodeOtherFields, OtherFields, EncodeHeader, Pow256,
         EncodedLogs, Rlp.Concat, EncodableLog, AllLists, LogBytesOf;
    FirstFieldIsCanonical(buf);
    var r, h, others := Decode(buf), DecodeHeader(buf), AfterFirst(buf);
    OtherFieldsAreCanonicalIff(others, r.value);
    var payload := Payload(r.value);
    HeaderRoundTrip(true, payload, r.rest);
    assert buf == EncodeHeader(true, |payload|) + (payload + r.rest);
    assert h.rest == FirstField(r.value) + (OtherFields(r.value) + r.rest);
    EqualAfterPrefix(h.rest, FirstField(r.value), others, OtherFields(r.value) + r.rest);
  }

  /** A buffer that reads as a receipt is that receipt's encoding if and only if every log in it
      has a list's header; everything else in it is as it is written. */
  lemma ReceiptIsCanonicalIff(buf: seq<byte>)
    requires Decode(buf).Ok?
    ensures DecodeOtherFields(AfterFirst(buf)).Ok?
    ensures var r := Decode(buf);
            AllLists(LogBytesOf(AfterFirst(buf))) <==> Encodable(r.value) && buf == Encode(r.value) + r.rest
  {
    hide Decode, AfterFirst, DecodeOtherFields, Encodable, Encode, AllLists, LogBytesOf;
    FirstFieldIsCanonical(buf);
    var r := Decode(buf);
    if AllLists(LogBytesOf(AfterFirst(buf))) {
      ListsMeanCanonical(buf);
    }
    if Encodable(r.value) && buf == Encode(r.value) + r.rest {
      CanonicalMeansLists(buf);
    }
  }

  lemma HeaderKinds(length: nat)
    requires Fits(length)
    ensures EncodeHeader(true, length) != [] && EncodeHeader(true, length)[0] >= 0xC0
    ensures EncodeHeader(false, length) != [] && EncodeHeader(false, length)[0] < 0xC0
  {
    if length >= 56 {
      TrimmedProperties(length, 8);
    }
  }

  // ----- lengths -----

  function TopicsLength(topics: seq<seq<byte>>): nat {
    if topics == [] then 0 else BytesLength(topics[0]) + TopicsLength(topics[1..])
  }

  function LogPayloadLength(log: Log): nat {
    var topics := TopicsLength(log.topics);
    BytesLength(log.address) + (HeaderLength(topics) + topics) + BytesLength(log.data)
  }

  function LogsLength(logs: seq<Log>): nat {
    if logs == [] then 0
    else
      var first := LogPayloadLength(logs[0]);
      HeaderLength(first) + first + LogsLength(logs[1..])
  }

  function PayloadLength(r: Execution): nat {
    var logs := LogsLength(r.logs);
    (if r.Legacy? then BytesLength(r.root) else 1)
    + BytesLength(Trimmed(r.cumulativeGasUsed)) + BytesLength(r.logsBloom) + (HeaderLength(logs) + logs)
  }

  /** `length`: computed from the fields, without encoding them. */
  function Length(r: Execution): nat {
    HeaderLength(PayloadLength(r)) + PayloadLength(r)
  }

  lemma {:induction false} TopicsLengthIsExact(topics: seq<seq<byte>>)
    requires forall t <- topics :: |t| == 32
    ensures |Rlp.Concat(EncodedTopics(topics))| == TopicsLength(topics)
  {
    hide Trimmed, Pow256, Fits, EncodeBytes, BytesLength;
    if topics != [] {
      SmallFits(32);
      BytesRoundTrip(topics[0], []);
      TopicsLengthIsExact(topics[1..]);
      assert EncodedTopics(topics)[1..] == EncodedTopics(topics[1..]);
    }
  }

  lemma LogLengthIsExact(log: Log)
    requires EncodableLog(log)
    ensures |LogPayload(log)| == LogPayloadLength(log)
    ensures |EncodeLog(log)| == HeaderLength(LogPayloadLength(log)) + LogPayloadLength(log)
  {
    hide Trimmed, Pow256, Fits, EncodeBytes, BytesLength, EncodeList, HeaderLength, EncodedTopics, Rlp.Concat,
         TopicsLength;
    SmallFits(20);
    TopicsLengthIsExact(log.topics);
    BytesRoundTrip(log.address, []);
    BytesRoundTrip(log.data, []);
    ListRoundTrip(Rlp.Concat(EncodedTopics(log.topics)), []);
    ListRoundTrip(LogPayload(log), []);
  }

  lemma {:induction false} LogsLengthIsExact(logs: seq<Log>)
    requires forall l <- logs :: EncodableLog(l)
    ensures |Rlp.Concat(EncodedLogs(logs))| == LogsLength(logs)
  {
    hide EncodeLog, EncodableLog, LogPayloadLength, HeaderLength;
    if logs != [] {
      LogLengthIsExact(logs[0]);
      LogsLengthIsExact(logs[1..]);
      assert EncodedLogs(logs)[1..] == EncodedLogs(logs[1..]);
    }
  }

  lemma PayloadLengthIsExact(r: Execution)
    requires Encodable(r)
    ensures |Payload(r)| == PayloadLength(r)
  {
    hide Trimmed, Pow256, EncodeBytes, BytesLength, EncodeList, HeaderLength, EncodedLogs, Rlp.Concat, LogsLength,
         EncodableLog, EncodeUint, LogPayload, DecodePayload, DecodeUint, FromBigEndian;
    SmallFits(32);
    SmallFits(256);
    if r.Legacy? {
      BytesRoundTrip(r.root, []);
    }
    UintRoundTrip(r.cumulativeGasUsed, 8, []);
    BytesRoundTrip(r.logsBloom, []);
    LogsLengthIsExact(r.logs);
    ListRoundTrip(Rlp.Concat(EncodedLogs(r.logs)), []);
  }

  /** The computed length is the encoded size, for every receipt. */
  lemma LengthIsExact(r: Execution)
    requires Encodable(r)
    ensures |Encode(r)| == Length(r)
  {
    hide Payload, PayloadLength, EncodeList, HeaderLength, EncodableLog;
    PayloadLengthIsExact(r);
    ListRoundTrip(Payload(r), []);
  }
}
