/** Recursive Length Prefix encoding (Appendix B of the Ethereum Yellow Paper),
    with the canonicity checks of the decoder the receipts are read with. */
module Rlp {
  import opened Bytes

  /** A decoded value and the unread rest of the buffer, or a decoding error. */
  datatype Result<+T> = Ok(value: T, rest: seq<byte>) | Err

  datatype Header = Header(list: bool, length: nat)

  /** Lengths fit in eight bytes. */
  ghost predicate Fits(n: nat) {
    n < Pow256(8)
  }

  /** Big-endian without leading zeros; zero is the empty string. */
  function Trimmed(n: nat): seq<byte> {
    if n == 0 then [] else Trimmed(n / 256) + [n % 256]
  }

  lemma {:induction false} TrimmedProperties(n: nat, width: nat)
    ensures FromBigEndian(Trimmed(n)) == n
    ensures n > 0 ==> Trimmed(n) != [] && Trimmed(n)[0] != 0
    ensures n < Pow256(width) ==> |Trimmed(n)| <= width
    decreases n
  {
    if n > 0 {
      TrimmedProperties(n / 256, if width > 0 then width - 1 else 0);
      assert Trimmed(n)[..|Trimmed(n)| - 1] == Trimmed(n / 256);
    }
  }

  // ----- headers -----

  function EncodeHeader(list: bool, length: nat): seq<byte>
    requires Fits(length)
  {
    if length < 56 then
      [(if list then 0xC0 else 0x80) + length]
    else
      TrimmedProperties(length, 8);
      [(if list then 0xF7 else 0xB7) + |Trimmed(length)|] + Trimmed(length)
  }

  function HeaderLength(length: nat): nat {
    if length < 56 then 1 else 1 + |Trimmed(length)|
  }

  function DecodeHeader(buf: seq<byte>): (r: Result<Header>)
    ensures r.Ok? ==> r.value.length <= |r.rest| <= |buf|
    ensures r.Ok? && |r.rest| == |buf| ==> r.value.length == 1
  {
    if buf == [] then
      Err
    else if buf[0] < 0x80 then
      Ok(Header(false, 1), buf)
    else if buf[0] < 0xB8 then
      var rest, length := buf[1..], buf[0] - 0x80;
      if length == 1 && (rest == [] || rest[0] < 0x80) then Err
      else if |rest| < length then Err
      else Ok(Header(false, length), rest)
    else if 0xC0 <= buf[0] < 0xF8 then
      var rest, length := buf[1..], buf[0] - 0xC0;
      if |rest| < length then Err else Ok(Header(true, length), rest)
    else
      var list := buf[0] >= 0xF8;
      var n := buf[0] - if list then 0xF7 else 0xB7;
      if |buf| < 1 + n || buf[1] == 0 then Err
      else
        var length, rest := FromBigEndian(buf[1..1 + n]), buf[1 + n..];
        if length < 56 || |rest| < length then Err else Ok(Header(list, length), rest)
  }

  lemma ShortHeaderRoundTrip(list: bool, payload: seq<byte>, rest: seq<byte>)
    requires Fits(|payload|) && |payload| < 56
    requires !list && |payload| == 1 ==> payload[0] >= 0x80
    ensures DecodeHeader(EncodeHeader(list, |payload|) + (payload + rest))
         == Ok(Header(list, |payload|), payload + rest)
  {
    var buf := EncodeHeader(list, |payload|) + (payload + rest);
    assert buf[1..] == payload + rest;
  }

  lemma LongHeaderRoundTrip(list: bool, payload: seq<byte>, rest: seq<byte>)
    requires Fits(|payload|) && |payload| >= 56
    ensures DecodeHeader(EncodeHeader(list, |payload|) + (payload + rest))
         == Ok(Header(list, |payload|), payload + rest)
  {
    TrimmedProperties(|payload|, 8);
    hide Trimmed, FromBigEndian, Pow256;
    var size := Trimmed(|payload|);
    var head: byte := (if list then 0xF7 else 0xB7) + |size|;
    var buf := [head] + size + (payload + rest);
    assert buf[0] == head && buf[1] == size[0];
    assert buf[1..1 + |size|] == size && buf[1 + |size|..] == payload + rest;
    assert DecodeHeader(buf) == Ok(Header(list, |payload|), payload + rest);
  }

  lemma HeaderRoundTrip(list: bool, payload: seq<byte>, rest: seq<byte>)
    requires Fits(|payload|)
    requires !list && |payload| == 1 ==> payload[0] >= 0x80
    ensures DecodeHeader(EncodeHeader(list, |payload|) + (payload + rest))
         == Ok(Header(list, |payload|), payload + rest)
    ensures |EncodeHeader(list, |payload|)| == HeaderLength(|payload|)
  {
    hide DecodeHeader;
    if |payload| < 56 {
      ShortHeaderRoundTrip(list, payload, rest);
    } else {
      LongHeaderRoundTrip(list, payload, rest);
    }
  }

  // ----- byte strings and integers -----

  function EncodeBytes(b: seq<byte>): seq<byte>
    requires Fits(|b|)
  {
    if |b| == 1 && b[0] < 0x80 then b else EncodeHeader(false, |b|) + b
  }

  function BytesLength(b: seq<byte>): nat {
    if |b| == 1 && b[0] < 0x80 then 1 else HeaderLength(|b|) + |b|
  }

  /** The payload of the next item, which must be of the expected kind. */
  function DecodePayload(buf: seq<byte>, list: bool): (r: Result<seq<byte>>)
    ensures r.Ok? ==> |r.rest| < |buf| && |r.value| <= |buf|
  {
    var h := DecodeHeader(buf);
    if h.Err? || h.value.list != list then Err
    else Ok(h.rest[..h.value.length], h.rest[h.value.length..])
  }

  lemma BytesRoundTrip(b: seq<byte>, rest: seq<byte>)
    requires Fits(|b|)
    ensures DecodePayload(EncodeBytes(b) + rest, false) == Ok(b, rest)
    ensures |EncodeBytes(b)| == BytesLength(b)
  {
    if |b| == 1 && b[0] < 0x80 {
      assert (b + rest)[..1] == b && (b + rest)[1..] == rest;
    } else {
      hide DecodeHeader, Pow256, Trimmed;
      HeaderRoundTrip(false, b, rest);
      assert EncodeBytes(b) + rest == EncodeHeader(false, |b|) + (b + rest);
      assert (b + rest)[..|b|] == b && (b + rest)[|b|..] == rest;
    }
  }

  function DecodeFixed(buf: seq<byte>, size: nat): (r: Result<seq<byte>>)
    ensures r.Ok? ==> |r.rest| < |buf| && |r.value| == size
  {
    var p := DecodePayload(buf, false);
    if p.Ok? && |p.value| == size then p else Err
  }

  function EncodeUint(n: nat): seq<byte>
    requires Fits(n)
  {
    TrimmedProperties(n, 8);
    SmallFits(|Trimmed(n)|);
    EncodeBytes(Trimmed(n))
  }

  function DecodeUint(buf: seq<byte>, width: nat): (r: Result<nat>)
    ensures r.Ok? ==> |r.rest| < |buf|
  {
    var p := DecodePayload(buf, false);
    if p.Err? || |p.value| > width || (p.value != [] && p.value[0] == 0) then Err
    else Ok(FromBigEndian(p.value), p.rest)
  }

  lemma SmallFits(n: nat)
    requires n < 65536
    ensures Fits(n)
  {
    assert Pow256(8) == 65536 * Pow256(6);
  }

  lemma UintRoundTrip(n: nat, width: nat, rest: seq<byte>)
    requires n < Pow256(width) && width <= 8 && Fits(n)
    ensures DecodeUint(EncodeUint(n) + rest, width) == Ok(n, rest)
    ensures |EncodeUint(n)| == BytesLength(Trimmed(n))
  {
    TrimmedProperties(n, width);
    SmallFits(|Trimmed(n)|);
    BytesRoundTrip(Trimmed(n), rest);
  }

  function EncodeBool(b: bool): seq<byte> {
    [if b then 1 else 0x80]
  }

  function DecodeBool(buf: seq<byte>): (r: Result<bool>)
    ensures r.Ok? ==> |r.rest| < |buf|
  {
    var n := DecodeUint(buf, 1);
    if n.Err? || n.value > 1 then Err else Ok(n.value == 1, n.rest)
  }

  lemma BoolRoundTrip(b: bool, rest: seq<byte>)
    ensures DecodeBool(EncodeBool(b) + rest) == Ok(b, rest)
  {
    var buf := EncodeBool(b) + rest;
    assert buf[1..] == rest;
    if b {
      assert DecodePayload(buf, false) == Ok([1], rest) by { assert buf[..1] == [1]; }
      assert FromBigEndian([1]) == 1 by { assert [1][..0] == []; }
    } else {
      assert rest[..0] == [] && rest[0..] == rest;
      assert DecodePayload(buf, false) == Ok([], rest);
    }
  }

  // ----- lists -----

  function Concat(items: seq<seq<byte>>): seq<byte> {
    if items == [] then [] else items[0] + Concat(items[1..])
  }

  function EncodeList(payload: seq<byte>): seq<byte>
    requires Fits(|payload|)
  {
    EncodeHeader(true, |payload|) + payload
  }

  lemma ListRoundTrip(payload: seq<byte>, rest: seq<byte>)
    requires Fits(|payload|)
    ensures DecodePayload(EncodeList(payload) + rest, true) == Ok(payload, rest)
    ensures |EncodeList(payload)| == HeaderLength(|payload|) + |payload|
  {
    hide DecodeHeader, EncodeHeader, HeaderLength, Pow256;
    HeaderRoundTrip(true, payload, rest);
    assert EncodeList(payload) + rest == EncodeHeader(true, |payload|) + (payload + rest);
    assert (payload + rest)[..|payload|] == payload && (payload + rest)[|payload|..] == rest;
  }

  // ----- the encoding of the Yellow Paper -----

  /** A tree of byte strings, which is what is encoded. */
  datatype Tree = Leaf(bytes: seq<byte>) | Node(items: seq<Tree>)

  /** The two cases of Appendix B with a prefix; that its numbers are bytes is for the lemmas
      to show. */
  function Prefixed(short: int, long: int, payload: seq<int>): seq<int> {
    if |payload| < 56 then [short + |payload|] + payload
    else [long + |Trimmed(|payload|)|] + Trimmed(|payload|) + payload
  }

  function YellowPaper(t: Tree): seq<int> {
    match t
    case Leaf(b) => if |b| == 1 && b[0] < 128 then b else Prefixed(128, 183, b)
    case Node(items) => Prefixed(192, 247, YellowPaperItems(items))
  }

  function YellowPaperItems(items: seq<Tree>): seq<int> {
    if items == [] then [] else YellowPaper(items[0]) + YellowPaperItems(items[1..])
  }

  lemma {:induction false} YellowPaperConcat(a: seq<Tree>, b: seq<Tree>)
    ensures YellowPaperItems(a + b) == YellowPaperItems(a) + YellowPaperItems(b)
  {
    if a == [] {
      assert a + b == b;
    } else {
      assert (a + b)[1..] == a[1..] + b;
      YellowPaperConcat(a[1..], b);
    }
  }

  lemma BytesFollowYellowPaper(b: seq<byte>)
    requires Fits(|b|)
    ensures EncodeBytes(b) == YellowPaper(Leaf(b))
  {
  }

  lemma UintFollowsYellowPaper(n: nat)
    requires Fits(n)
    ensures EncodeUint(n) == YellowPaper(Leaf(Trimmed(n)))
  {
    TrimmedProperties(n, 8);
    SmallFits(|Trimmed(n)|);
    BytesFollowYellowPaper(Trimmed(n));
  }

  lemma BoolFollowsYellowPaper(b: bool)
    ensures EncodeBool(b) == YellowPaper(Leaf(if b then [1] else []))
  {
  }

  lemma ListFollowsYellowPaper(payload: seq<byte>, items: seq<Tree>)
    requires Fits(|payload|) && payload == YellowPaperItems(items)
    ensures EncodeList(payload) == YellowPaper(Node(items))
  {
  }

  lemma {:induction false} ConcatFollowsYellowPaper(encoded: seq<seq<byte>>, items: seq<Tree>)
    requires |encoded| == |items| && forall i :: 0 <= i < |items| ==> encoded[i] == YellowPaper(items[i])
    ensures Concat(encoded) == YellowPaperItems(items)
  {
    if items != [] {
      ConcatFollowsYellowPaper(encoded[1..], items[1..]);
    }
  }

  // ----- the decoder admits nothing else -----

  lemma TrimmedStep(high: nat, low: byte)
    requires high > 0 || low > 0
    ensures Trimmed(256 * high + low) == Trimmed(high) + [low]
  {
    LowByte(high, low);
  }

  lemma {:induction false} TrimmedOfBigEndian(b: seq<byte>)
    requires b == [] || b[0] != 0
    ensures Trimmed(FromBigEndian(b)) == b
  {
    assert Trimmed(0) == [];
    if b != [] {
      var init, last := b[..|b| - 1], b[|b| - 1];
      TrimmedOfBigEndian(init);
      hide Trimmed;
      assert FromBigEndian([]) == 0;
      TrimmedStep(FromBigEndian(init), last);
      assert b == init + [last];
    }
  }

  lemma {:induction false} PowersGrow(m: nat, n: nat)
    requires m <= n
    ensures Pow256(m) <= Pow256(n)
  {
    if m < n {
      PowersGrow(m, n - 1);
    }
  }

  lemma LongHeaderIsCanonical(buf: seq<byte>)
    requires DecodeHeader(buf).Ok? && (0xB8 <= buf[0] < 0xC0 || 0xF8 <= buf[0])
    ensures var h := DecodeHeader(buf);
            Fits(h.value.length) && buf == EncodeHeader(h.value.list, h.value.length) + h.rest
  {
    hide Trimmed, FromBigEndian, Pow256;
    var list := buf[0] >= 0xF8;
    var n := buf[0] - if list then 0xF7 else 0xB7;
    var b := buf[1..1 + n];
    FromBigEndianRoundTrip(b);
    PowersGrow(n, 8);
    TrimmedOfBigEndian(b);
    assert buf == [buf[0]] + b + buf[1 + n..];
  }

  /** A header that is accepted is the one that is written for its kind and length, unless the
      byte is its own payload. */
  lemma HeaderIsCanonical(buf: seq<byte>)
    requires DecodeHeader(buf).Ok?
    ensures var h := DecodeHeader(buf);
            && Fits(h.value.length)
            && if buf[0] < 0x80 then h == Ok(Header(false, 1), buf)
               else buf == EncodeHeader(h.value.list, h.value.length) + h.rest
                    && (!h.value.list && h.value.length == 1 ==> h.rest[0] >= 0x80)
  {
    var h := DecodeHeader(buf);
    if 0xB8 <= buf[0] < 0xC0 || 0xF8 <= buf[0] {
      LongHeaderIsCanonical(buf);
      assert h.value.length >= 56;
    } else {
      SmallFits(h.value.length);
      assert buf == [buf[0]] + buf[1..];
    }
  }

  lemma PayloadIsCanonical(buf: seq<byte>, list: bool)
    requires DecodePayload(buf, list).Ok?
    ensures var p := DecodePayload(buf, list);
            Fits(|p.value|) && buf == (if list then EncodeList(p.value) else EncodeBytes(p.value)) + p.rest
  {
    hide DecodeHeader, EncodeHeader, Pow256;
    HeaderIsCanonical(buf);
    var h, p := DecodeHeader(buf), DecodePayload(buf, list);
    assert h.rest == p.value + p.rest;
    if buf[0] < 0x80 {
      assert p.value == [buf[0]];
    } else {
      assert buf == EncodeHeader(list, |p.value|) + p.value + p.rest;
    }
  }

  lemma FixedIsCanonical(buf: seq<byte>, size: nat)
    requires DecodeFixed(buf, size).Ok?
    ensures var p := DecodeFixed(buf, size); Fits(size) && buf == EncodeBytes(p.value) + p.rest
  {
    hide DecodePayload, EncodeBytes;
    PayloadIsCanonical(buf, false);
  }

  lemma UintIsCanonical(buf: seq<byte>, width: nat)
    requires width <= 8 && DecodeUint(buf, width).Ok?
    ensures var n := DecodeUint(buf, width);
            n.value < Pow256(width) && Fits(n.value) && buf == EncodeUint(n.value) + n.rest
  {
    hide DecodeHeader, EncodeBytes;
    var p := DecodePayload(buf, false);
    PayloadIsCanonical(buf, false);
    TrimmedOfBigEndian(p.value);
    FromBigEndianRoundTrip(p.value);
    PowersGrow(|p.value|, width);
    PowersGrow(width, 8);
  }

  lemma BoolIsCanonical(buf: seq<byte>)
    requires DecodeBool(buf).Ok?
    ensures buf == EncodeBool(DecodeBool(buf).value) + DecodeBool(buf).rest
  {
    hide DecodeUint, EncodeUint, Pow256;
    UintIsCanonical(buf, 1);
    EncodedBit(DecodeUint(buf, 1).value);
  }

  lemma EncodedBit(n: nat)
    requires n <= 1
    ensures Fits(n) && EncodeUint(n) == EncodeBool(n == 1)
  {
    SmallFits(n);
    hide Pow256;
    assert Trimmed(0) == [] && Trimmed(1) == [1];
  }

  ghost predicate Consumes<T>(decode: seq<byte> -> Result<T>) {
    forall buf :: decode(buf).Ok? ==> |decode(buf).rest| < |buf|
  }

  /** Decoding items until the buffer is empty. */
  function DecodeItems<T>(decode: seq<byte> -> Result<T>, buf: seq<byte>): Result<seq<T>>
    requires Consumes(decode)
    decreases |buf|
  {
    if buf == [] then
      Ok([], [])
    else
      var first := decode(buf);
      if first.Err? then Err
      else
        var others := DecodeItems(decode, first.rest);
        if others.Err? then Err else Ok([first.value] + others.value, [])
  }

  /** A vector: a list header, then items to the end of the payload. */
  function DecodeVec<T>(decode: seq<byte> -> Result<T>, buf: seq<byte>): (r: Result<seq<T>>)
    requires Consumes(decode)
    ensures r.Ok? ==> |r.rest| < |buf|
  {
    var p := DecodePayload(buf, true);
    if p.Err? then Err
    else
      var items := DecodeItems(decode, p.value);
      if items.Err? then Err else Ok(items.value, p.rest)
  }

  lemma {:induction false} ItemsRoundTrip<T>(decode: seq<byte> -> Result<T>, items: seq<T>, encoded: seq<seq<byte>>)
    requires Consumes(decode)
    requires |items| == |encoded|
    requires forall i :: 0 <= i < |items| ==> encoded[i] != []
    requires forall i, rest :: 0 <= i < |items| ==> decode(encoded[i] + rest) == Ok(items[i], rest)
    ensures DecodeItems(decode, Concat(encoded)) == Ok(items, [])
  {
    if items != [] {
      ItemsRoundTrip(decode, items[1..], encoded[1..]);
      assert decode(encoded[0] + Concat(encoded[1..])) == Ok(items[0], Concat(encoded[1..]));
      assert [items[0]] + items[1..] == items;
    }
  }
}
