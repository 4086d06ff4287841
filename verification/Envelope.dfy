/** EIP-2718 envelopes around receipts, for the three chain types. L1 and generic chains
    share one receipt type, OP has its own. */
module Envelope {
  import opened Prelude
  import opened Bytes
  import opened Rlp
  import R = Receipt
  import O = OpReceipt

  datatype Chain = L1 | Op | Generic

  datatype TxType = Legacy | Eip2930 | Eip1559 | Eip4844 | Eip7702 | Deposit | Unrecognized

  datatype TypedEnvelope<D> = TypedEnvelope(txType: TxType, data: D)

  predicate HasType(chain: Chain, t: TxType) {
    (t.Deposit? ==> chain.Op?) && (t.Unrecognized? ==> chain.Generic?)
  }

  /** The byte a type is written as; an unrecognized type has lost its own. */
  function TypeByte(t: TxType): byte {
    match t
    case Legacy => 0
    case Eip2930 => 1
    case Eip1559 => 2
    case Eip4844 => 3
    case Eip7702 => 4
    case Deposit => 0x7E
    case Unrecognized => 0xFF
  }

  function TypeOfByte(chain: Chain, b: byte): Option<TxType> {
    if b == 0 then Some(Legacy)
    else if b == 1 then Some(Eip2930)
    else if b == 2 then Some(Eip1559)
    else if b == 3 then Some(Eip4844)
    else if b == 4 then Some(Eip7702)
    else if chain.Op? && b == 0x7E then Some(Deposit)
    else if chain.Generic? then Some(Unrecognized)
    else None
  }

  /** An envelope around the encoding of its data. */
  function Encode(t: TxType, data: seq<byte>): seq<byte> {
    (if TypeByte(t) > 0 then [TypeByte(t)] else []) + data
  }

  function Length(t: TxType, data: nat): nat {
    (if TypeByte(t) > 0 then 1 else 0) + data
  }

  /** The type, and what is left for the data. */
  function DecodeType(chain: Chain, buf: seq<byte>): Result<TxType> {
    if buf == [] then Err
    else if buf[0] >= 0xC0 then Ok(Legacy, buf)
    else match TypeOfByte(chain, buf[0])
      case None => Err
      case Some(t) => Ok(t, buf[1..])
  }

  /** Decoding, given the decoder of the data. */
  function Decode<D>(chain: Chain, decode: seq<byte> -> Result<D>, buf: seq<byte>): Result<TypedEnvelope<D>> {
    match DecodeType(chain, buf)
    case Err => Err
    case Ok(t, rest) =>
      (match decode(rest)
       case Err => Err
       case Ok(data, after) => Ok(TypedEnvelope(t, data), after))
  }

  /** The type numbers that EIP-2930, EIP-1559, EIP-4844, EIP-7702 and the OP deposit
      specification assign, and none for a legacy transaction. */
  lemma EnvelopeStartsWithType(data: seq<byte>)
    ensures Encode(Legacy, data) == data
    ensures Encode(Eip2930, data) == [0x01] + data && Encode(Eip1559, data) == [0x02] + data
    ensures Encode(Eip4844, data) == [0x03] + data && Encode(Eip7702, data) == [0x04] + data
    ensures Encode(Deposit, data) == [0x7E] + data && Encode(Unrecognized, data) == [0xFF] + data
  {
  }

  /** How a first byte is read: from 0xC0 on as the start of a legacy receipt, which is not
      consumed; below that as the type of the chain that is written so, and on generic chains
      as an unrecognized type if there is none. */
  lemma TypeByteIsReadIff(chain: Chain, t: TxType, b: byte, rest: seq<byte>)
    ensures b >= 0xC0 ==> DecodeType(chain, [b] + rest) == Ok(Legacy, [b] + rest)
    ensures b < 0xC0 ==>
              (DecodeType(chain, [b] + rest) == Ok(t, rest)
               <==> if t.Unrecognized?
                    then chain.Generic? && forall u | HasType(chain, u) :: TypeByte(u) != b
                    else HasType(chain, t) && TypeByte(t) == b)
    ensures b < 0xC0 ==>
              (DecodeType(chain, [b] + rest).Err?
               <==> !chain.Generic? && forall u | HasType(chain, u) :: TypeByte(u) != b)
    ensures DecodeType(chain, []).Err?
  {
    var buf := [b] + rest;
    assert buf[0] == b && buf[1..] == rest;
    assert TypeByte(Legacy) == 0 && TypeByte(Eip2930) == 1 && TypeByte(Eip1559) == 2 && TypeByte(Eip4844) == 3;
    assert TypeByte(Eip7702) == 4 && TypeByte(Deposit) == 0x7E;
  }

  // ----- as the code reads and writes -----

  /** A byte slice that decoding advances. */
  class Reader {
    var rest: seq<byte>

    constructor (buf: seq<byte>)
      ensures rest == buf
    {
      rest := buf;
    }

    method DecodeExecution() returns (r: Option<R.Execution>)
      modifies this
      ensures r == match R.Decode(old(rest)) case Ok(value, _) => Some(value) case Err => None
      ensures r.Some? ==> rest == R.Decode(old(rest)).rest
    {
      var temp := rest;
      var receiptHeader := DecodeHeader(temp);
      if receiptHeader.Err? {
        return None;
      }
      temp := receiptHeader.rest;
      var firstValueHeader := DecodeHeader(temp);
      if firstValueHeader.Err? {
        return None;
      }
      var decoded := if firstValueHeader.value.length == 1 then R.DecodeEip658(rest) else R.DecodeLegacy(rest);
      if decoded.Err? {
        return None;
      }
      rest := decoded.rest;
      return Some(decoded.value);
    }

    method DecodeOpExecution() returns (r: Option<O.OpExecution>)
      modifies this
      ensures r == match O.Decode(old(rest)) case Ok(value, _) => Some(value) case Err => None
      ensures r.Some? ==> rest == O.Decode(old(rest)).rest
    {
      var temp := rest;
      var receiptHeader := DecodeHeader(temp);
      if receiptHeader.Err? {
        return None;
      }
      temp := receiptHeader.rest;
      var firstValueHeader := DecodeHeader(temp);
      if firstValueHeader.Err? {
        return None;
      }
      if firstValueHeader.value.length == 1 {
        var receipt := O.DecodeEip658OrDeposit(rest);
        if receipt.Err? {
          return None;
        }
        rest := receipt.rest;
        return Some(receipt.value);
      }
      var legacy := R.DecodeLegacy(rest);
      if legacy.Err? {
        return None;
      }
      rest := legacy.rest;
      return Some(O.FromLegacy(legacy.value));
    }

    method TakeType(chain: Chain) returns (r: Option<TxType>)
      modifies this
      ensures r == match DecodeType(chain, old(rest)) case Ok(value, _) => Some(value) case Err => None
      ensures r.Some? ==> rest == DecodeType(chain, old(rest)).rest
    {
      if rest == [] {
        return None;
      }
      var first := rest[0];
      if first >= 0xC0 {
        return Some(Legacy);
      }
      rest := rest[1..];
      return TypeOfByte(chain, first);
    }

    method DecodeEnvelope(chain: Chain) returns (r: Option<TypedEnvelope<R.Execution>>)
      requires !chain.Op?
      modifies this
      ensures r == match Decode(chain, R.Decode, old(rest)) case Ok(value, _) => Some(value) case Err => None
      ensures r.Some? ==> rest == Decode(chain, R.Decode, old(rest)).rest
    {
      hide R.Decode, DecodeType;
      var txType := TakeType(chain);
      if txType.None? {
        return None;
      }
      var data := DecodeExecution();
      if data.None? {
        return None;
      }
      return Some(TypedEnvelope(txType.value, data.value));
    }

    method DecodeOpEnvelope() returns (r: Option<TypedEnvelope<O.OpExecution>>)
      modifies this
      ensures r == match Decode(Op, O.Decode, old(rest)) case Ok(value, _) => Some(value) case Err => None
      ensures r.Some? ==> rest == Decode(Op, O.Decode, old(rest)).rest
    {
      hide O.Decode, DecodeType;
      var txType := TakeType(Op);
      if txType.None? {
        return None;
      }
      var data := DecodeOpExecution();
      if data.None? {
        return None;
      }
      return Some(TypedEnvelope(txType.value, data.value));
    }
  }

  /** An output buffer that encoding appends to. */
  class Writer {
    var out: seq<byte>

    constructor ()
      ensures out == []
    {
      out := [];
    }

    /** `data` is what the receipt's own `encode` appends. */
    method EncodeEnvelope(t: TxType, data: seq<byte>)
      modifies this
      ensures out == old(out) + Encode(t, data)
    {
      var txType := TypeByte(t);
      if txType > 0 {
        out := out + [txType];
      }
      out := out + data;
      assert out == old(out) + Encode(t, data);
    }
  }

  // ----- round trips -----

  /** A long list, as every receipt's encoding is. */
  predicate IsLongList(data: seq<byte>) {
    |data| > 256 && data[0] >= 0xF8
  }

  lemma ListIsLong(payload: seq<byte>)
    requires Fits(|payload|) && |payload| >= 256
    ensures IsLongList(EncodeList(payload))
  {
    TrimmedProperties(|payload|, 8);
  }

  lemma ReceiptIsLongList(r: R.Execution)
    requires R.Encodable(r)
    ensures |R.Payload(r)| >= 256 && IsLongList(R.Encode(r))
  {
    hide R.EncodableLog, Trimmed, EncodeList;
    SmallFits(256);
    BytesRoundTrip(r.logsBloom, []);
    assert |R.OtherFields(r)| >= 256;
    ListIsLong(R.Payload(r));
  }

  lemma OpReceiptIsLongList(r: O.OpExecution)
    requires O.Encodable(r)
    ensures IsLongList(O.Encode(r))
  {
    hide R.Encodable, R.Payload, R.Encode, EncodeList, O.EncodeTrailing;
    ReceiptIsLongList(O.Shared(r));
    ListIsLong(O.Payload(r));
  }

  /** Under every known type of its chain, an envelope decodes to its type and to whatever
      its data decode to. */
  lemma KnownTypeRoundTrip<D>(chain: Chain, t: TxType, decode: seq<byte> -> Result<D>, data: seq<byte>, rest: seq<byte>)
    requires HasType(chain, t) && !t.Unrecognized? && IsLongList(data)
    ensures Decode(chain, decode, Encode(t, data) + rest)
         == match decode(data + rest) case Err => Err case Ok(d, after) => Ok(TypedEnvelope(t, d), after)
  {
    if t.Legacy? {
      assert Encode(t, data) + rest == data + rest;
    } else {
      assert Encode(t, data) + rest == [TypeByte(t)] + (data + rest);
      assert (Encode(t, data) + rest)[1..] == data + rest;
    }
  }

  /** The length of an eight-byte header that starts with 0xF8 or more exceeds any
      buffer there is. */
  lemma {:induction false} HugeLength(b: seq<byte>)
    requires b != [] && b[0] >= 0xF8
    ensures FromBigEndian(b) >= 0xF8 * Pow256(|b| - 1)
  {
    if |b| > 1 {
      HugeLength(b[..|b| - 1]);
    } else {
      assert b[..0] == [];
    }
  }

  /** An unrecognized type is written as 0xFF, which reads as a list header with an
      eight-byte length: such a receipt never decodes. */
  lemma UnrecognizedIsRejected(data: seq<byte>, rest: seq<byte>)
    requires IsLongList(data) && |Encode(Unrecognized, data) + rest| < 0xF8 * Pow256(7)
    ensures Decode(Generic, R.Decode, Encode(Unrecognized, data) + rest) == Err
  {
    hide Pow256, FromBigEndian;
    var buf := Encode(Unrecognized, data) + rest;
    assert buf[0] == 0xFF && buf[1] == data[0];
    var size := buf[1..9];
    assert size[0] >= 0xF8;
    HugeLength(size);
    assert DecodeHeader(buf) == Err;
  }

  /** On L1 and generic chains, for every envelope: decoding the encoding followed by
      anything gives the envelope back and leaves what follows, exactly unless the receipt
      is a failed EIP-658 receipt or the type is the unrecognized one. */
  lemma EnvelopeRoundTripIff(chain: Chain, e: TypedEnvelope<R.Execution>, rest: seq<byte>)
    requires !chain.Op? && HasType(chain, e.txType) && R.Encodable(e.data)
    requires |Encode(e.txType, R.Encode(e.data)) + rest| < 0xF8 * Pow256(7)
    ensures Decode(chain, R.Decode, Encode(e.txType, R.Encode(e.data)) + rest) == Ok(e, rest)
       <==> !e.txType.Unrecognized? && !(e.data.Eip658? && !e.data.status)
  {
    hide R.Encodable, R.Encode, R.Decode, Encode, Decode, IsLongList;
    R.ExecutionRoundTripIff(e.data, rest);
    ReceiptIsLongList(e.data);
    if e.txType.Unrecognized? {
      UnrecognizedIsRejected(R.Encode(e.data), rest);
    } else {
      KnownTypeRoundTrip(chain, e.txType, R.Decode, R.Encode(e.data), rest);
    }
  }

  /** On OP chains, under every type: exactly if the receipt is successful and, for a
      deposit, has a version and neither version nor nonce is zero. */
  lemma OpEnvelopeRoundTripIff(e: TypedEnvelope<O.OpExecution>, rest: seq<byte>)
    requires HasType(Op, e.txType) && O.Encodable(e.data)
    ensures Decode(Op, O.Decode, Encode(e.txType, O.Encode(e.data)) + rest) == Ok(e, rest) <==> O.Recoverable(e.data)
  {
    hide O.Encodable, O.Encode, O.Decode, Encode, Decode, IsLongList, O.Recoverable;
    O.OpRoundTripIff(e.data, rest);
    OpReceiptIsLongList(e.data);
    KnownTypeRoundTrip(Op, e.txType, O.Decode, O.Encode(e.data), rest);
  }

  /** An OP node reads a legacy receipt under every type as a successful EIP-658 one. */
  lemma OpReadsLegacyAsSuccessful(t: TxType, r: R.Execution, rest: seq<byte>)
    requires HasType(Op, t) && R.Encodable(r) && r.Legacy?
    ensures Decode(Op, O.Decode, Encode(t, R.Encode(r)) + rest)
         == Ok(TypedEnvelope(t, O.Eip658(true, r.cumulativeGasUsed, r.logsBloom, r.logs)), rest)
  {
    hide R.Encodable, R.Encode, O.Decode, Encode, Decode, IsLongList;
    O.LegacyReadsAsSuccessful(r, rest);
    ReceiptIsLongList(r);
    KnownTypeRoundTrip(Op, t, O.Decode, R.Encode(r), rest);
  }

  lemma EnvelopeLengthIsExact(t: TxType, r: R.Execution)
    requires R.Encodable(r)
    ensures |Encode(t, R.Encode(r))| == Length(t, R.Length(r))
  {
    R.LengthIsExact(r);
  }

  lemma OpEnvelopeLengthIsExact(t: TxType, r: O.OpExecution)
    requires O.Encodable(r)
    ensures |Encode(t, O.Encode(r))| == Length(t, O.Length(r))
  {
    O.OpLengthIsExact(r);
  }
}
