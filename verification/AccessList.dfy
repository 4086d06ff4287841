/** The simulated block access list hash (EIP-7928) along a chain. */
module AccessList {
  import opened Prelude
  import opened Bytes

  type Hash = seq<byte>

  /** The RLP encoding of the empty list. */
  const EMPTY_LIST: seq<byte> := [0xc0]

  function Ascii(s: string): seq<byte> {
    seq(|s|, i requires 0 <= i < |s| => s[i] as int % 256)
  }

  /** The text `blockAccessListHash{parent_hash}`. */
  function Preimage(parentHash: Hash): seq<byte> {
    Ascii("blockAccessListHash0x" + Hex(parentHash))
  }

  /** `block_access_list_hash` */
  function BlockAccessListHash(current: Option<Hash>, stateChanged: bool, parentHash: Hash, keccak: seq<byte> -> Hash)
    : Option<Hash>
  {
    if current == Some(keccak(EMPTY_LIST)) && stateChanged then Some(keccak(Preimage(parentHash))) else current
  }

  datatype Header<R> = Header(number: nat, parentHash: Hash, accessListHash: Option<Hash>, rest: R)

  datatype Block<R> = Block(header: Header<R>, stateChanged: bool)

  /** A chain from some starting block: every later block points at its parent's
      hash, has the next number, and carries the finalized access list hash. */
  predicate ValidChain<R>(chain: seq<Block<R>>, keccak: seq<byte> -> Hash, blockHash: Header<R> -> Hash) {
    forall i :: 1 <= i < |chain| ==> ValidLink(chain[i - 1], chain[i], keccak, blockHash)
  }

  predicate ValidLink<R>(parent: Block<R>, b: Block<R>, keccak: seq<byte> -> Hash, blockHash: Header<R> -> Hash) {
    && b.header.number == parent.header.number + 1
    && b.header.parentHash == blockHash(parent.header)
    && b.header.accessListHash
       == BlockAccessListHash(Some(keccak(EMPTY_LIST)), b.stateChanged, b.header.parentHash, keccak)
  }

  /** The hash tells the two inputs apart. */
  predicate Separates<T(==)>(hash: T -> Hash, x: T, y: T) {
    hash(x) == hash(y) ==> x == y
  }

  lemma {:induction false} HexIsAscii(b: seq<byte>)
    ensures IsAscii(Hex(b))
  {
    if b != [] {
      HexIsAscii(b[1..]);
    }
  }

  predicate IsAscii(s: string) {
    forall i :: 0 <= i < |s| ==> s[i] as int < 128
  }

  lemma AsciiInjective(s: string, t: string)
    requires IsAscii(s) && IsAscii(t) && Ascii(s) == Ascii(t)
    ensures s == t
  {
    assert |Ascii(s)| == |s| && |Ascii(t)| == |t|;
    forall i | 0 <= i < |s|
      ensures s[i] == t[i]
    {
      assert Ascii(s)[i] == Ascii(t)[i];
    }
  }

  lemma AsciiConcat(s: string, t: string)
    ensures Ascii(s + t) == Ascii(s) + Ascii(t)
  {
  }

  lemma PreimageInjective(p: Hash, q: Hash)
    requires Preimage(p) == Preimage(q)
    ensures p == q
  {
    var prefix := "blockAccessListHash0x";
    var hp, hq := Hex(p), Hex(q);
    HexIsAscii(p);
    HexIsAscii(q);
    AsciiConcat(prefix, hp);
    AsciiConcat(prefix, hq);
    var n := |Ascii(prefix)|;
    hide Ascii, Hex;
    assert Ascii(hp) == Preimage(p)[n..] && Ascii(hq) == Preimage(q)[n..];
    AsciiInjective(hp, hq);
    HexInjective(p, q);
  }

  lemma {:induction false} NumbersIncrease<R>(chain: seq<Block<R>>, keccak: seq<byte> -> Hash,
                                              blockHash: Header<R> -> Hash, i: nat, j: nat)
    requires ValidChain(chain, keccak, blockHash) && i < j < |chain|
    ensures chain[i].header.number < chain[j].header.number
    decreases j
  {
    assert ValidLink(chain[j - 1], chain[j], keccak, blockHash);
    if i < j - 1 {
      NumbersIncrease(chain, keccak, blockHash, i, j - 1);
    }
  }

  /** No two state-changing blocks of a chain share an access list hash, as long as the
      hashes tell the inputs they are given for these blocks apart. */
  lemma AccessListHashesAreDistinct<R>(chain: seq<Block<R>>, keccak: seq<byte> -> Hash, blockHash: Header<R> -> Hash,
                                       i: nat, j: nat)
    requires ValidChain(chain, keccak, blockHash) && 1 <= i < j < |chain|
    requires chain[i].stateChanged && chain[j].stateChanged
    requires Separates(blockHash, chain[i - 1].header, chain[j - 1].header)
    requires Separates(keccak, Preimage(chain[i].header.parentHash), Preimage(chain[j].header.parentHash))
    ensures chain[i].header.accessListHash != chain[j].header.accessListHash
  {
    assert ValidLink(chain[i - 1], chain[i], keccak, blockHash) && ValidLink(chain[j - 1], chain[j], keccak, blockHash);
    NumbersIncrease(chain, keccak, blockHash, i - 1, j - 1);
    var p, q := chain[i].header.parentHash, chain[j].header.parentHash;
    if Preimage(p) == Preimage(q) {
      PreimageInjective(p, q);
    }
  }

  /** Finalization replaces the header's hash exactly when it is the empty-list one and
      state changed; a hash that was overridden, and one that is absent, stay. */
  lemma HashIsReplacedIff(current: Option<Hash>, stateChanged: bool, parentHash: Hash, keccak: seq<byte> -> Hash)
    requires Separates(keccak, Preimage(parentHash), EMPTY_LIST)
    ensures BlockAccessListHash(current, stateChanged, parentHash, keccak) != current
       <==> current == Some(keccak(EMPTY_LIST)) && stateChanged
  {
    assert |Preimage(parentHash)| > 1;
  }

  /** A block keeps the empty-list hash exactly when it changes no state. */
  lemma EmptyListHashIffUnchanged<R>(chain: seq<Block<R>>, keccak: seq<byte> -> Hash, blockHash: Header<R> -> Hash,
                                     i: nat)
    requires ValidChain(chain, keccak, blockHash) && 1 <= i < |chain|
    requires Separates(keccak, Preimage(chain[i].header.parentHash), EMPTY_LIST)
    ensures chain[i].header.accessListHash == Some(keccak(EMPTY_LIST)) <==> !chain[i].stateChanged
  {
    assert ValidLink(chain[i - 1], chain[i], keccak, blockHash);
    var p := Preimage(chain[i].header.parentHash);
    assert |p| > 1;
    assert p != EMPTY_LIST;
  }
}
