/** `instrument_code`: the metadata pass and the cursor-queue printing pass,
    proved against a recursive printer. */
module Instrument {
  import opened Arithmetic
  import opened Bytes
  import opened Prelude
  import opened SyntaxTree

  type Tag = seq<byte>

  datatype Metadata = Metadata(tag: Tag, start: nat, end: nat)

  datatype InstrumentationResult = InstrumentationResult(source: string, metadata: seq<Metadata>)

  datatype Result<+T> = Ok(value: T) | InvalidSourceCode

  const LIBRARY_NAME := "__NomicFoundationCoverage"
  const LIBRARY_FILE_NAME := "__NomicFoundationCoverage-1fe87c59-dedc-4831-8918-604bc223bbfa.sol"
  const IMPORT_STATEMENT := "\nimport \"" + LIBRARY_FILE_NAME + "\";"

  function HitText(tag: Tag): string {
    LIBRARY_NAME + ".sendHit(0x" + Hex(tag) + "); "
  }

  /** The inserted call sends exactly its tag, written in hexadecimal. */
  lemma HitTextTellsTag(tag: Tag, other: Tag)
    ensures HitText(tag) == HitText(other) <==> tag == other
    ensures var prefix := "__NomicFoundationCoverage.sendHit(0x";
            var n := |prefix| + |Hex(tag)|;
            |HitText(tag)| >= n && HitText(tag)[..n] == prefix + Hex(tag) && HitText(tag)[n..] == "); "
  {
    hide Hex;
    var prefix := "__NomicFoundationCoverage.sendHit(0x";
    assert HitText(tag) == prefix + Hex(tag) + "); " && HitText(other) == prefix + Hex(other) + "); ";
    if HitText(tag) == HitText(other) {
      var n := |HitText(tag)| - 3;
      assert HitText(tag)[|prefix|..n] == Hex(tag) && HitText(other)[|prefix|..n] == Hex(other);
      HexInjective(tag, other);
    }
  }

  // ----- tags -----

  /** The bytes hashed for the statement numbered `counter`. */
  function TagPreimage(sourceId: seq<byte>, contentHash: seq<byte>, counter: nat): seq<byte> {
    sourceId + contentHash + LittleEndian(counter, 8)
  }

  /** The hashed bytes end in 40 bytes of fixed layout, so nothing is ambiguous: as long
      as the hash tells these two inputs apart, two statements share a tag exactly when
      they are the same statement of the same file. */
  lemma TagsAreDistinct(hash: seq<byte> -> Tag,
                        id1: seq<byte>, content1: seq<byte>, n1: nat,
                        id2: seq<byte>, content2: seq<byte>, n2: nat)
    requires |content1| == |content2| == 32
    requires n1 < U64_MODULUS && n2 < U64_MODULUS
    requires var p, q := TagPreimage(id1, content1, n1), TagPreimage(id2, content2, n2);
             hash(p) == hash(q) ==> p == q
    ensures hash(TagPreimage(id1, content1, n1)) == hash(TagPreimage(id2, content2, n2))
       <==> id1 == id2 && content1 == content2 && n1 == n2
  {
    var p, q := TagPreimage(id1, content1, n1), TagPreimage(id2, content2, n2);
    if p == q {
      assert id1 == p[..|p| - 40] && id2 == q[..|q| - 40];
      assert content1 == p[|p| - 40..|p| - 8] && content2 == q[|q| - 40..|q| - 8];
      assert LittleEndian(n1, 8) == p[|p| - 8..] && LittleEndian(n2, 8) == q[|q| - 8..];
      U64IsEightBytes();
      LittleEndianRoundTrip(n1, 8);
      LittleEndianRoundTrip(n2, 8);
    }
  }

  // ----- what the output should be -----

  /** A fragment of the output: original text, the k-th hit call (counting
      statements in source order from 0), or a brace put around a lone body. */
  datatype Piece = Source(text: string) | Hit(index: nat) | OpenBrace | CloseBrace

  predicate Wraps(parent: Option<Kind>) {
    match parent
    case Some(IfStatement) | Some(ElseBranch) | Some(ForStatement) | Some(WhileStatement)
       | Some(DoWhileStatement) => true
    case _ => false
  }

  /** The recursive printer: `k` statements stand before the forest. */
  function Emit(ns: seq<Node>, parent: Option<Kind>, k: nat): seq<Piece> {
    if ns == [] then [] else EmitNode(ns[0], parent, k) + Emit(ns[1..], parent, k + NodeStatementCount(ns[0]))
  }

  function EmitNode(n: Node, parent: Option<Kind>, k: nat): seq<Piece> {
    match n
    case Terminal(text) => [Source(text)]
    case Nonterminal(kind, children) =>
      if kind == Statement then
        var marked := [Hit(k)] + Emit(children, Some(kind), k + 1);
        if Wraps(parent) then [OpenBrace] + marked + [CloseBrace] else marked
      else
        Emit(children, Some(kind), k)
  }

  function PieceText(p: Piece, tagOf: nat -> Tag): string {
    match p
    case Source(text) => text
    case Hit(index) => HitText(tagOf(index))
    case OpenBrace => "{"
    case CloseBrace => "}"
  }

  function Flatten(ps: seq<Piece>, tagOf: nat -> Tag): string {
    if ps == [] then "" else PieceText(ps[0], tagOf) + Flatten(ps[1..], tagOf)
  }

  /** The original text among the pieces. */
  function Erase(ps: seq<Piece>): string {
    if ps == [] then "" else (if ps[0].Source? then ps[0].text else "") + Erase(ps[1..])
  }

  /** Metadata of a forest that starts at `offset` after `k` statements. */
  function MetadataOf(ns: seq<Node>, offset: nat, k: nat, tagOf: nat -> Tag): seq<Metadata> {
    if ns == [] then []
    else
      NodeMetadata(ns[0], offset, k, tagOf)
      + MetadataOf(ns[1..], offset + Utf16Length(NodeText(ns[0])), k + NodeStatementCount(ns[0]), tagOf)
  }

  function NodeMetadata(n: Node, offset: nat, k: nat, tagOf: nat -> Tag): seq<Metadata> {
    match n
    case Terminal(_) => []
    case Nonterminal(kind, children) =>
      if kind == Statement then
        [Metadata(tagOf(k), offset, offset + Utf16Length(NodeText(n)))] + MetadataOf(children, offset, k + 1, tagOf)
      else
        MetadataOf(children, offset, k, tagOf)
  }

  lemma {:induction false} FlattenConcat(a: seq<Piece>, b: seq<Piece>, tagOf: nat -> Tag)
    ensures Flatten(a + b, tagOf) == Flatten(a, tagOf) + Flatten(b, tagOf)
  {
    if a == [] {
      assert a + b == b;
    } else {
      assert (a + b)[1..] == a[1..] + b;
      FlattenConcat(a[1..], b, tagOf);
    }
  }

  lemma {:induction false} EraseConcat(a: seq<Piece>, b: seq<Piece>)
    ensures Erase(a + b) == Erase(a) + Erase(b)
  {
    if a == [] {
      assert a + b == b;
    } else {
      assert (a + b)[1..] == a[1..] + b;
      EraseConcat(a[1..], b);
    }
  }

  // ----- the same over a cursor's work list -----

  function EmitItems(items: seq<Item>, k: nat): seq<Piece> {
    if items == [] then []
    else EmitNode(items[0].node, items[0].parent, k) + EmitItems(items[1..], k + NodeStatementCount(items[0].node))
  }

  function CountItems(items: seq<Item>): nat {
    if items == [] then 0 else NodeStatementCount(items[0].node) + CountItems(items[1..])
  }

  function MetadataItems(items: seq<Item>, offset: nat, k: nat, tagOf: nat -> Tag): seq<Metadata> {
    if items == [] then []
    else
      NodeMetadata(items[0].node, offset, k, tagOf)
      + MetadataItems(items[1..], offset + Utf16Length(NodeText(items[0].node)), k + NodeStatementCount(items[0].node),
                      tagOf)
  }

  function LengthItems(items: seq<Item>): nat {
    if items == [] then 0 else Utf16Length(NodeText(items[0].node)) + LengthItems(items[1..])
  }

  /** Nodes left to visit, where a statement still to be wrapped counts for more
      than the four nodes its wrapping adds. */
  function Weight(ns: seq<Node>, parent: Option<Kind>): nat {
    if ns == [] then 0 else NodeWeight(ns[0], parent) + Weight(ns[1..], parent)
  }

  function NodeWeight(n: Node, parent: Option<Kind>): nat {
    if n.Terminal? then 1
    else 1 + Weight(n.children, Some(n.kind)) + if IsStatement(n) && Wraps(parent) then 5 else 0
  }

  function WeightItems(items: seq<Item>): nat {
    if items == [] then 0 else NodeWeight(items[0].node, items[0].parent) + WeightItems(items[1..])
  }

  lemma {:induction false} ForestMeasures(ns: seq<Node>, parent: Option<Kind>)
    ensures CountItems(Items(ns, parent)) == StatementCount(ns)
    ensures WeightItems(Items(ns, parent)) == Weight(ns, parent)
    ensures LengthItems(Items(ns, parent)) == Utf16Length(Text(ns))
  {
    if ns != [] {
      ForestMeasures(ns[1..], parent);
      Utf16LengthConcat(NodeText(ns[0]), Text(ns[1..]));
    }
  }

  lemma {:induction false} ForestAsItems(ns: seq<Node>, parent: Option<Kind>, k: nat)
    ensures EmitItems(Items(ns, parent), k) == Emit(ns, parent, k)
  {
    hide EmitNode, NodeStatementCount;
    if ns != [] {
      ForestAsItems(ns[1..], parent, k + NodeStatementCount(ns[0]));
    }
  }

  lemma {:induction false} ForestMetadata(ns: seq<Node>, parent: Option<Kind>, offset: nat, k: nat, tagOf: nat -> Tag)
    ensures MetadataItems(Items(ns, parent), offset, k, tagOf) == MetadataOf(ns, offset, k, tagOf)
  {
    hide NodeMetadata, NodeStatementCount, NodeText, Utf16Length;
    if ns != [] {
      ForestMetadata(ns[1..], parent, offset + Utf16Length(NodeText(ns[0])), k + NodeStatementCount(ns[0]), tagOf);
    }
  }

  lemma {:induction false} MeasuresConcat(a: seq<Item>, b: seq<Item>)
    ensures CountItems(a + b) == CountItems(a) + CountItems(b)
    ensures WeightItems(a + b) == WeightItems(a) + WeightItems(b)
  {
    if a == [] {
      assert a + b == b;
    } else {
      assert (a + b)[1..] == a[1..] + b;
      MeasuresConcat(a[1..], b);
    }
  }

  lemma {:induction false} ItemMeasuresOfCons(x: Item, rest: seq<Item>)
    ensures CountItems([x] + rest) == NodeStatementCount(x.node) + CountItems(rest)
    ensures WeightItems([x] + rest) == NodeWeight(x.node, x.parent) + WeightItems(rest)
  {
    assert ([x] + rest)[1..] == rest;
  }

  lemma {:induction false} EmitConcat(a: seq<Item>, b: seq<Item>, k: nat)
    ensures EmitItems(a + b, k) == EmitItems(a, k) + EmitItems(b, k + CountItems(a))
  {
    if a == [] {
      assert a + b == b;
    } else {
      assert (a + b)[1..] == a[1..] + b;
      EmitConcat(a[1..], b, k + NodeStatementCount(a[0].node));
    }
  }

  lemma {:induction false} MetadataConcat(a: seq<Item>, b: seq<Item>, offset: nat, k: nat, tagOf: nat -> Tag)
    ensures MetadataItems(a + b, offset, k, tagOf)
         == MetadataItems(a, offset, k, tagOf) + MetadataItems(b, offset + LengthItems(a), k + CountItems(a), tagOf)
  {
    if a == [] {
      assert a + b == b;
    } else {
      assert (a + b)[1..] == a[1..] + b;
      MetadataConcat(a[1..], b, offset + Utf16Length(NodeText(a[0].node)), k + NodeStatementCount(a[0].node), tagOf);
    }
  }

  lemma {:induction false} EmitSingle(n: Node, parent: Option<Kind>, k: nat)
    ensures Emit([n], parent, k) == EmitNode(n, parent, k)
  {
    assert [n][1..] == [];
    assert Emit([n], parent, k) == EmitNode(n, parent, k) + Emit([n][1..], parent, k + NodeStatementCount(n));
  }

  /** The block that is put around a lone body. */
  function WrappingBlock(statement: Node): Node {
    Nonterminal(Block, [Terminal("{"), Nonterminal(Statements, [statement]), Terminal("}")])
  }

  lemma {:induction false} WrappingBlockPrintsTheSame(n: Node, parent: Option<Kind>, k: nat, tagOf: nat -> Tag)
    requires IsStatement(n) && Wraps(parent)
    ensures Flatten(EmitNode(WrappingBlock(n), None, k), tagOf) == Flatten(EmitNode(n, parent, k), tagOf)
  {
    var inner, close := Nonterminal(Statements, [n]), Terminal("}");
    var block := WrappingBlock(n);
    var marked := EmitNode(n, Some(Statements), k);
    EmitSingle(n, Some(Statements), k);
    EmitSingle(close, Some(Block), k + NodeStatementCount(inner));
    assert [inner, close][1..] == [close];
    assert Emit([inner, close], Some(Block), k) == marked + [Source("}")];
    assert block.children[1..] == [inner, close];
    assert Emit(block.children, Some(Block), k) == [Source("{")] + Emit(block.children[1..], Some(Block), k);
    assert EmitNode(block, None, k) == [Source("{")] + (marked + [Source("}")]);
    assert EmitNode(n, parent, k) == [OpenBrace] + (marked + [CloseBrace]);
    FlattenConcat(marked, [CloseBrace], tagOf);
    FlattenConcat(marked, [Source("}")], tagOf);
    FlattenConcat([OpenBrace], marked + [CloseBrace], tagOf);
    FlattenConcat([Source("{")], marked + [Source("}")], tagOf);
    FlattenSingle(OpenBrace, tagOf);
    FlattenSingle(CloseBrace, tagOf);
    FlattenSingle(Source("{"), tagOf);
    FlattenSingle(Source("}"), tagOf);
  }

  lemma {:induction false} WrappingMakesProgress(n: Node, parent: Option<Kind>)
    requires IsStatement(n) && Wraps(parent)
    ensures NodeStatementCount(WrappingBlock(n)) == NodeStatementCount(n)
    ensures NodeWeight(WrappingBlock(n), None) < NodeWeight(n, parent)
  {
    var open, inner, close := Terminal("{"), Nonterminal(Statements, [n]), Terminal("}");
    MeasuresOfCons(n, [], Some(Statements));
    MeasuresOfCons(close, [], Some(Block));
    MeasuresOfCons(inner, [close], Some(Block));
    MeasuresOfCons(open, [inner, close], Some(Block));
  }

  lemma MeasuresOfCons(n: Node, rest: seq<Node>, parent: Option<Kind>)
    ensures StatementCount([n] + rest) == NodeStatementCount(n) + StatementCount(rest)
    ensures Weight([n] + rest, parent) == NodeWeight(n, parent) + Weight(rest, parent)
  {
    assert ([n] + rest)[1..] == rest;
  }

  lemma FlattenSingle(p: Piece, tagOf: nat -> Tag)
    ensures Flatten([p], tagOf) == PieceText(p, tagOf)
  {
    assert [p][1..] == [];
  }

  // ----- one step of a work list -----

  lemma {:induction false} ExpandMeasures(n: Node, parent: Option<Kind>, rest: seq<Item>)
    ensures WeightItems(ChildItems(n) + rest) < WeightItems([Item(n, parent)] + rest)
    ensures CountItems([Item(n, parent)] + rest)
         == CountItems(ChildItems(n) + rest) + if IsStatement(n) then 1 else 0
  {
    MeasuresConcat(ChildItems(n), rest);
    assert ([Item(n, parent)] + rest)[1..] == rest;
    if n.Nonterminal? {
      ForestMeasures(n.children, Some(n.kind));
    }
  }

  lemma {:induction false} EmitNodeByChildren(n: Node, parent: Option<Kind>, k: nat)
    requires n.Nonterminal? && !(IsStatement(n) && Wraps(parent))
    ensures NodeStatementCount(n) == CountItems(ChildItems(n)) + if IsStatement(n) then 1 else 0
    ensures EmitNode(n, parent, k)
         == if IsStatement(n) then [Hit(k)] + EmitItems(ChildItems(n), k + 1) else EmitItems(ChildItems(n), k)
  {
    ForestMeasures(n.children, Some(n.kind));
    ForestAsItems(n.children, Some(n.kind), if IsStatement(n) then k + 1 else k);
  }

  lemma {:induction false} EmitCons(x: Item, rest: seq<Item>, k: nat)
    ensures EmitItems([x] + rest, k) == EmitNode(x.node, x.parent, k) + EmitItems(rest, k + NodeStatementCount(x.node))
  {
    assert ([x] + rest)[1..] == rest;
  }

  lemma {:induction false} ExpandEmit(n: Node, parent: Option<Kind>, rest: seq<Item>, k: nat)
    requires !(IsStatement(n) && Wraps(parent))
    ensures EmitItems([Item(n, parent)] + rest, k)
         == if n.Terminal? then [Source(n.text)] + EmitItems(ChildItems(n) + rest, k)
            else if IsStatement(n) then [Hit(k)] + EmitItems(ChildItems(n) + rest, k + 1)
            else EmitItems(ChildItems(n) + rest, k)
  {
    hide EmitItems, CountItems, Items, Wraps;
    EmitCons(Item(n, parent), rest, k);
    if n.Terminal? {
      assert ChildItems(n) + rest == rest;
    } else {
      EmitConcat(ChildItems(n), rest, if IsStatement(n) then k + 1 else k);
      EmitNodeByChildren(n, parent, k);
    }
  }

  lemma {:induction false} MetadataByChildren(n: Node, offset: nat, k: nat, tagOf: nat -> Tag)
    requires n.Nonterminal?
    ensures NodeStatementCount(n) == CountItems(ChildItems(n)) + if IsStatement(n) then 1 else 0
    ensures LengthItems(ChildItems(n)) == Utf16Length(NodeText(n))
    ensures NodeMetadata(n, offset, k, tagOf)
         == if IsStatement(n) then
              [Metadata(tagOf(k), offset, offset + Utf16Length(NodeText(n)))]
              + MetadataItems(ChildItems(n), offset, k + 1, tagOf)
            else MetadataItems(ChildItems(n), offset, k, tagOf)
  {
    ForestMeasures(n.children, Some(n.kind));
    ForestMetadata(n.children, Some(n.kind), offset, if IsStatement(n) then k + 1 else k, tagOf);
  }

  lemma {:induction false} MetadataCons(x: Item, rest: seq<Item>, offset: nat, k: nat, tagOf: nat -> Tag)
    ensures MetadataItems([x] + rest, offset, k, tagOf)
         == NodeMetadata(x.node, offset, k, tagOf)
            + MetadataItems(rest, offset + Utf16Length(NodeText(x.node)), k + NodeStatementCount(x.node), tagOf)
  {
    assert ([x] + rest)[1..] == rest;
  }

  lemma TerminalMeasures(n: Node, offset: nat, k: nat, tagOf: nat -> Tag)
    requires n.Terminal?
    ensures NodeStatementCount(n) == 0 && NodeMetadata(n, offset, k, tagOf) == []
  {
  }

  lemma {:induction false} ExpandMetadata(n: Node, parent: Option<Kind>, rest: seq<Item>, offset: nat, k: nat,
                                          tagOf: nat -> Tag)
    ensures MetadataItems([Item(n, parent)] + rest, offset, k, tagOf)
         == if n.Terminal? then MetadataItems(ChildItems(n) + rest, offset + Utf16Length(n.text), k, tagOf)
            else if IsStatement(n) then
              [Metadata(tagOf(k), offset, offset + Utf16Length(NodeText(n)))]
              + MetadataItems(ChildItems(n) + rest, offset, k + 1, tagOf)
            else MetadataItems(ChildItems(n) + rest, offset, k, tagOf)
  {
    hide MetadataItems, CountItems, LengthItems, Items, NodeMetadata, NodeStatementCount, Utf16Length;
    MetadataCons(Item(n, parent), rest, offset, k, tagOf);
    if n.Terminal? {
      TerminalMeasures(n, offset, k, tagOf);
      assert ChildItems(n) + rest == rest;
    } else {
      MetadataConcat(ChildItems(n), rest, offset, if IsStatement(n) then k + 1 else k, tagOf);
      MetadataByChildren(n, offset, k, tagOf);
    }
  }

  // ----- the two passes -----

  lemma WorkOfRoot(root: Node, offset: nat)
    ensures Work(NewCursor(root, offset)) == [Item(root, None)]
  {
  }

  lemma WorkOfCompleted()
    ensures Work(Completed) == []
  {
  }

  lemma {:induction false} WorkAtStart(root: Node, tagOf: nat -> Tag)
    ensures var work := Work(NewCursor(root, 0));
            && CountItems(work) == NodeStatementCount(root)
            && EmitItems(work, 0) == EmitNode(root, None, 0)
            && MetadataItems(work, 0, 0, tagOf) == NodeMetadata(root, 0, 0, tagOf)
  {
    assert Work(NewCursor(root, 0)) == [Item(root, None)] + [];
    ItemMeasuresOfCons(Item(root, None), []);
    EmitCons(Item(root, None), [], 0);
    MetadataCons(Item(root, None), [], 0, 0, tagOf);
  }

  lemma NoItems(offset: nat, k: nat, tagOf: nat -> Tag)
    ensures EmitItems([], k) == [] && CountItems([]) == 0
    ensures MetadataItems([], offset, k, tagOf) == []
  {
  }

  function OffsetOf(c: Cursor): nat {
    if c.At? then c.offset else 0
  }

  lemma {:induction false} MetadataStep(c: Cursor, k: nat, tagOf: nat -> Tag)
    requires c.At? && Valid(c)
    ensures Valid(GoToNext(c))
    ensures var k' := if IsStatement(c.node) then k + 1 else k;
            var entry := if IsStatement(c.node)
                         then [Metadata(tagOf(k), c.offset, c.offset + Utf16Length(NodeText(c.node)))] else [];
            && MetadataItems(Work(c), c.offset, k, tagOf)
               == entry + MetadataItems(Work(GoToNext(c)), OffsetOf(GoToNext(c)), k', tagOf)
            && k + CountItems(Work(c)) == k' + CountItems(Work(GoToNext(c)))
            && WeightItems(Work(GoToNext(c))) < WeightItems(Work(c))
  {
    hide MetadataItems, CountItems, WeightItems, GoToNext, Rest, Valid, NodeText;
    ExpandMetadata(c.node, ParentKind(c), Rest(c), c.offset, k, tagOf);
    ExpandMeasures(c.node, ParentKind(c), Rest(c));
    NextExpandsNode(c);
    if GoToNext(c).Completed? {
      NoItems(c.offset, if IsStatement(c.node) then k + 1 else k, tagOf);
      if c.node.Terminal? {
        NoItems(c.offset + Utf16Length(c.node.text), k, tagOf);
      }
      NoItems(0, if IsStatement(c.node) then k + 1 else k, tagOf);
    }
  }

  /** First pass: one metadata entry per statement, in source order. */
  method CollectMetadata(root: Node, tagOf: nat -> Tag) returns (metadata: seq<Metadata>)
    ensures metadata == NodeMetadata(root, 0, 0, tagOf)
    ensures |metadata| == NodeStatementCount(root)
  {
    hide MetadataItems, WeightItems, CountItems, GoToNext, Work, Valid, NodeMetadata, NodeText, NodeStatementCount;
    metadata := [];
    var counter: nat := 0;
    var cursor := NewCursor(root, 0);
    ghost var all := MetadataItems(Work(cursor), 0, 0, tagOf);
    WorkAtStart(root, tagOf);
    while cursor.At?
      invariant Valid(cursor)
      invariant counter == |metadata|
      invariant metadata + MetadataItems(Work(cursor), OffsetOf(cursor), counter, tagOf) == all
      invariant counter + CountItems(Work(cursor)) == NodeStatementCount(root)
      decreases WeightItems(Work(cursor))
    {
      MetadataStep(cursor, counter, tagOf);
      if IsStatement(cursor.node) {
        metadata := metadata
                    + [Metadata(tagOf(counter), cursor.offset, cursor.offset + Utf16Length(NodeText(cursor.node)))];
        counter := counter + 1;
      }
      cursor := GoToNext(cursor);
    }
    WorkOfCompleted();
    NoItems(0, counter, tagOf);
  }

  /** A cursor that does not stand on a statement without a parent. */
  predicate Rooted(c: Cursor) {
    c.At? && c.path == [] ==> !IsStatement(c.node)
  }

  predicate ValidQueue(queue: seq<Cursor>) {
    forall i :: 0 <= i < |queue| ==> Valid(queue[i]) && Rooted(queue[i])
  }

  function QueueWork(queue: seq<Cursor>): seq<Item>
    requires ValidQueue(queue)
  {
    if queue == [] then [] else Work(queue[|queue| - 1]) + QueueWork(queue[..|queue| - 1])
  }

  lemma {:induction false} QueuePush(queue: seq<Cursor>, c: Cursor)
    requires ValidQueue(queue) && Valid(c) && Rooted(c)
    ensures ValidQueue(queue + [c])
    ensures QueueWork(queue + [c]) == Work(c) + QueueWork(queue)
  {
    assert (queue + [c])[..|queue|] == queue;
  }

  lemma {:induction false} QueuePop(queue: seq<Cursor>)
    requires queue != [] && ValidQueue(queue)
    ensures ValidQueue(queue[..|queue| - 1]) && Valid(queue[|queue| - 1]) && Rooted(queue[|queue| - 1])
    ensures QueueWork(queue) == Work(queue[|queue| - 1]) + QueueWork(queue[..|queue| - 1])
  {
  }

  lemma {:induction false} QueueAtStart(root: Node, tagOf: nat -> Tag)
    requires !IsStatement(root)
    ensures ValidQueue([NewCursor(root, 0)])
    ensures CountItems(QueueWork([NewCursor(root, 0)])) == NodeStatementCount(root)
    ensures EmitItems(QueueWork([NewCursor(root, 0)]), 0) == EmitNode(root, None, 0)
  {
    WorkAtStart(root, tagOf);
    QueuePush([], NewCursor(root, 0));
    assert [] + [NewCursor(root, 0)] == [NewCursor(root, 0)];
  }

  lemma QueueAtEnd(k: nat, tagOf: nat -> Tag)
    ensures QueueWork([]) == [] && EmitItems([], k) == [] && Flatten([], tagOf) == ""
  {
  }

  lemma {:induction false} ExpandText(n: Node, parent: Option<Kind>, rest: seq<Item>, k: nat, tagOf: nat -> Tag)
    requires !(IsStatement(n) && Wraps(parent))
    ensures Flatten(EmitItems([Item(n, parent)] + rest, k), tagOf)
         == if n.Terminal? then n.text + Flatten(EmitItems(ChildItems(n) + rest, k), tagOf)
            else if IsStatement(n) then HitText(tagOf(k)) + Flatten(EmitItems(ChildItems(n) + rest, k + 1), tagOf)
            else Flatten(EmitItems(ChildItems(n) + rest, k), tagOf)
  {
    ExpandEmit(n, parent, rest, k);
    if n.Terminal? {
      FlattenConcat([Source(n.text)], EmitItems(ChildItems(n) + rest, k), tagOf);
      FlattenSingle(Source(n.text), tagOf);
    } else if IsStatement(n) {
      FlattenConcat([Hit(k)], EmitItems(ChildItems(n) + rest, k + 1), tagOf);
      FlattenSingle(Hit(k), tagOf);
    }
  }

  /** Replacing a statement to be wrapped by its block changes no text and brings
      the loop closer to its end. */
  lemma {:induction false} WrapText(n: Node, parent: Option<Kind>, rest: seq<Item>, k: nat, tagOf: nat -> Tag)
    requires IsStatement(n) && Wraps(parent)
    ensures Flatten(EmitItems([Item(WrappingBlock(n), None)] + rest, k), tagOf)
         == Flatten(EmitItems([Item(n, parent)] + rest, k), tagOf)
    ensures CountItems([Item(WrappingBlock(n), None)] + rest) == CountItems([Item(n, parent)] + rest)
    ensures WeightItems([Item(WrappingBlock(n), None)] + rest) < WeightItems([Item(n, parent)] + rest)
  {
    hide EmitItems, EmitNode, NodeStatementCount, NodeWeight, CountItems, WeightItems, Flatten;
    var block := WrappingBlock(n);
    WrappingMakesProgress(n, parent);
    WrappingBlockPrintsTheSame(n, parent, k, tagOf);
    EmitCons(Item(n, parent), rest, k);
    EmitCons(Item(block, None), rest, k);
    var after := EmitItems(rest, k + NodeStatementCount(n));
    FlattenConcat(EmitNode(n, parent, k), after, tagOf);
    FlattenConcat(EmitNode(block, None, k), after, tagOf);
    ItemMeasuresOfCons(Item(n, parent), rest);
    ItemMeasuresOfCons(Item(block, None), rest);
  }

  lemma {:induction false} WrapStep(c: Cursor, below: seq<Item>, k: nat, tagOf: nat -> Tag)
    requires c.At? && Valid(c) && IsStatement(c.node) && Wraps(ParentKind(c))
    ensures Valid(GoToNextNonDescendant(c)) && Rooted(GoToNextNonDescendant(c))
    ensures var pushed := [Item(WrappingBlock(c.node), None)] + (Work(GoToNextNonDescendant(c)) + below);
            && Flatten(EmitItems(pushed, k), tagOf) == Flatten(EmitItems(Work(c) + below, k), tagOf)
            && CountItems(pushed) == CountItems(Work(c) + below)
            && WeightItems(pushed) < WeightItems(Work(c) + below)
  {
    assert Work(c) + below == [Item(c.node, ParentKind(c))] + (Rest(c) + below);
    WrapText(c.node, ParentKind(c), Rest(c) + below, k, tagOf);
    NextNonDescendantSkipsSubtree(c);
  }

  lemma {:induction false} PrintStep(c: Cursor, below: seq<Item>, k: nat, tagOf: nat -> Tag)
    requires c.At? && Valid(c) && !(IsStatement(c.node) && Wraps(ParentKind(c)))
    ensures Valid(GoToNext(c)) && Rooted(GoToNext(c))
    ensures var k' := if IsStatement(c.node) then k + 1 else k;
            var printed := if c.node.Terminal? then c.node.text
                           else if IsStatement(c.node) then HitText(tagOf(k)) else "";
            && Flatten(EmitItems(Work(c) + below, k), tagOf)
               == printed + Flatten(EmitItems(Work(GoToNext(c)) + below, k'), tagOf)
            && k + CountItems(Work(c) + below) == k' + CountItems(Work(GoToNext(c)) + below)
            && WeightItems(Work(GoToNext(c)) + below) < WeightItems(Work(c) + below)
  {
    hide EmitItems, CountItems, WeightItems, GoToNext, Rest, Valid, Flatten, HitText;
    var after := Rest(c) + below;
    assert Work(c) + below == [Item(c.node, ParentKind(c))] + after;
    ExpandText(c.node, ParentKind(c), after, k, tagOf);
    ExpandMeasures(c.node, ParentKind(c), after);
    NextExpandsNode(c);
    assert ChildItems(c.node) + after == Work(GoToNext(c)) + below;
  }

  /** Second pass. Asking a statement for its parent and taking the next metadata
      entry are where the source would panic; neither can fail. */
  method PrintInstrumented(root: Node, metadata: seq<Metadata>, ghost tagOf: nat -> Tag) returns (source: string)
    requires !IsStatement(root)
    requires |metadata| == NodeStatementCount(root)
    requires forall i :: 0 <= i < |metadata| ==> metadata[i].tag == tagOf(i)
    ensures source == Flatten(EmitNode(root, None, 0), tagOf)
  {
    hide EmitItems, EmitNode, WeightItems, CountItems, GoToNext, GoToNextNonDescendant, Rest, HitText, Wraps,
         QueueWork, ValidQueue, Flatten, Valid, Work;
    source := "";
    var next: nat := 0;
    var queue := [NewCursor(root, 0)];
    ghost var all := Flatten(EmitNode(root, None, 0), tagOf);
    QueueAtStart(root, tagOf);
    label Queue:
    while queue != []
      invariant ValidQueue(queue)
      invariant next + CountItems(QueueWork(queue)) == |metadata|
      invariant source + Flatten(EmitItems(QueueWork(queue), next), tagOf) == all
      decreases WeightItems(QueueWork(queue)), |queue|
    {
      ghost var weight := WeightItems(QueueWork(queue));
      var cursor := queue[|queue| - 1];
      QueuePop(queue);
      queue := queue[..|queue| - 1];
      ghost var below := QueueWork(queue);
      while cursor.At?
        invariant Valid(cursor) && Rooted(cursor)
        invariant next + CountItems(Work(cursor) + below) == |metadata|
        invariant source + Flatten(EmitItems(Work(cursor) + below, next), tagOf) == all
        invariant WeightItems(Work(cursor) + below) <= weight
        decreases WeightItems(Work(cursor) + below)
      {
        assert IsStatement(cursor.node) ==> ParentKind(cursor).Some?;
        if IsStatement(cursor.node) && Wraps(ParentKind(cursor)) {
          WrapStep(cursor, below, next, tagOf);
          var newCursor := NewCursor(WrappingBlock(cursor.node), cursor.offset);
          cursor := GoToNextNonDescendant(cursor);
          QueuePush(queue, cursor);
          QueuePush(queue + [cursor], newCursor);
          WorkOfRoot(newCursor.node, newCursor.offset);
          queue := queue + [cursor] + [newCursor];
          continue Queue;
        }
        PrintStep(cursor, below, next, tagOf);
        if cursor.node.Terminal? {
          source := source + cursor.node.text;
        } else if IsStatement(cursor.node) {
          source := source + HitText(metadata[next].tag);
          next := next + 1;
        }
        cursor := GoToNext(cursor);
      }
      assert Work(cursor) + below == below by { WorkOfCompleted(); }
    }
    QueueAtEnd(next, tagOf);
  }

  /** The tag of the statement with 0-based index `k`; counting starts at 1. */
  function TagOf(sourceId: seq<byte>, contentHash: seq<byte>, hash: seq<byte> -> Tag): nat -> Tag {
    (k: nat) => hash(TagPreimage(sourceId, contentHash, k + 1))
  }

  /** Two statements of one file share a tag only if they are the same statement, as long as
      the hash tells their inputs apart. */
  lemma TagsOfFileAreDistinct(sourceId: seq<byte>, contentHash: seq<byte>, hash: seq<byte> -> Tag, i: nat, j: nat)
    requires |contentHash| == 32 && i + 1 < U64_MODULUS && j + 1 < U64_MODULUS
    requires var p := sourceId + contentHash + LittleEndian(i + 1, 8);
             var q := sourceId + contentHash + LittleEndian(j + 1, 8);
             hash(p) == hash(q) ==> p == q
    ensures TagOf(sourceId, contentHash, hash)(i) == TagOf(sourceId, contentHash, hash)(j) <==> i == j
  {
    TagsAreDistinct(hash, sourceId, contentHash, i + 1, sourceId, contentHash, j + 1);
  }

  /** The entries of a file's metadata carry the hashes of source id, content hash and
      statement number, counted from 1. */
  predicate TaggedInOrder(metadata: seq<Metadata>, sourceId: seq<byte>, contentHash: seq<byte>,
                          hash: seq<byte> -> Tag) {
    forall i :: 0 <= i < |metadata| ==> metadata[i].tag == hash(sourceId + contentHash + LittleEndian(i + 1, 8))
  }

  lemma MetadataTags(root: Node, tagOf: nat -> Tag)
    ensures var metadata := NodeMetadata(root, 0, 0, tagOf);
            |metadata| == NodeStatementCount(root) && forall i :: 0 <= i < |metadata| ==> metadata[i].tag == tagOf(i)
  {
    hide NodeMetadata, NodeSpans, NodeStatementCount;
    MetadataOfNodeSpans(root, "", 0, tagOf);
  }

  lemma MetadataIsTagged(root: Node, sourceId: seq<byte>, contentHash: seq<byte>, hash: seq<byte> -> Tag)
    ensures var metadata := NodeMetadata(root, 0, 0, TagOf(sourceId, contentHash, hash));
            |metadata| == NodeStatementCount(root) && TaggedInOrder(metadata, sourceId, contentHash, hash)
  {
    hide NodeMetadata, NodeStatementCount;
    var tagOf := TagOf(sourceId, contentHash, hash);
    MetadataTags(root, tagOf);
    forall i: nat
      ensures tagOf(i) == hash(sourceId + contentHash + LittleEndian(i + 1, 8))
    {
      assert TagPreimage(sourceId, contentHash, i + 1) == sourceId + contentHash + LittleEndian(i + 1, 8);
    }
  }

  /** `parsed` is the parser's verdict on the source, `sourceBytes` its bytes. */
  method InstrumentCode(parsed: Option<Node>, sourceBytes: seq<byte>, sourceId: seq<byte>, hash: seq<byte> -> Tag)
    returns (r: Result<InstrumentationResult>)
    requires parsed.Some? ==> !IsStatement(parsed.value)
    ensures parsed.None? <==> r.InvalidSourceCode?
    ensures parsed.Some? ==>
              var tagOf := TagOf(sourceId, hash(sourceBytes), hash);
              && r.value.metadata == NodeMetadata(parsed.value, 0, 0, tagOf)
              && r.value.source == Flatten(EmitNode(parsed.value, None, 0), tagOf) + IMPORT_STATEMENT
    ensures parsed.Some? ==>
              && |r.value.metadata| == NodeStatementCount(parsed.value)
              && TaggedInOrder(r.value.metadata, sourceId, hash(sourceBytes), hash)
  {
    hide NodeMetadata, NodeStatementCount, EmitNode, Flatten, TaggedInOrder, TagOf, LittleEndian;
    if parsed.None? {
      return InvalidSourceCode;
    }
    var tagOf := TagOf(sourceId, hash(sourceBytes), hash);
    var metadata := CollectMetadata(parsed.value, tagOf);
    MetadataIsTagged(parsed.value, sourceId, hash(sourceBytes), hash);
    MetadataTags(parsed.value, tagOf);
    var source := PrintInstrumented(parsed.value, metadata, tagOf);
    return Ok(InstrumentationResult(source + IMPORT_STATEMENT, metadata));
  }

  // ----- what the printer guarantees -----

  /** Deleting the inserted hits and braces gives back the source. */
  lemma {:induction false} ErasureRestoresSource(ns: seq<Node>, parent: Option<Kind>, k: nat)
    ensures Erase(Emit(ns, parent, k)) == Text(ns)
    decreases ns, 1
  {
    if ns != [] {
      ErasureOfNode(ns[0], parent, k);
      ErasureRestoresSource(ns[1..], parent, k + NodeStatementCount(ns[0]));
      EraseConcat(EmitNode(ns[0], parent, k), Emit(ns[1..], parent, k + NodeStatementCount(ns[0])));
    }
  }

  lemma {:induction false} ErasureOfNode(n: Node, parent: Option<Kind>, k: nat)
    ensures Erase(EmitNode(n, parent, k)) == NodeText(n)
    decreases n, 0
  {
    if n.Nonterminal? {
      if n.kind == Statement {
        ErasureRestoresSource(n.children, Some(n.kind), k + 1);
        var marked := [Hit(k)] + Emit(n.children, Some(n.kind), k + 1);
        EraseConcat([Hit(k)], Emit(n.children, Some(n.kind), k + 1));
        EraseConcat([OpenBrace], marked);
        EraseConcat([OpenBrace] + marked, [CloseBrace]);
      } else {
        ErasureRestoresSource(n.children, Some(n.kind), k);
      }
    }
  }

  /** Where a hit call stands: its index and the original text before it. */
  datatype Site = Site(index: nat, before: string)

  function Sites(ps: seq<Piece>, before: string): seq<Site> {
    if ps == [] then []
    else if ps[0].Hit? then [Site(ps[0].index, before)] + Sites(ps[1..], before)
    else Sites(ps[1..], before + if ps[0].Source? then ps[0].text else "")
  }

  /** A statement's place in the source: the text before it and its own text. */
  datatype Span = Span(before: string, text: string)

  function Spans(ns: seq<Node>, before: string): seq<Span> {
    if ns == [] then [] else NodeSpans(ns[0], before) + Spans(ns[1..], before + NodeText(ns[0]))
  }

  function NodeSpans(n: Node, before: string): seq<Span> {
    if n.Terminal? then []
    else (if IsStatement(n) then [Span(before, NodeText(n))] else []) + Spans(n.children, before)
  }

  lemma {:induction false} SitesConcat(a: seq<Piece>, b: seq<Piece>, before: string)
    ensures Sites(a + b, before) == Sites(a, before) + Sites(b, before + Erase(a))
  {
    if a == [] {
      assert a + b == b;
      assert before + Erase(a) == before;
    } else {
      assert (a + b)[1..] == a[1..] + b;
      var text := if a[0].Source? then a[0].text else "";
      SitesConcat(a[1..], b, before + text);
      assert before + text + Erase(a[1..]) == before + Erase(a);
      assert before + "" == before;
    }
  }

  /** The sites the spans call for: one per statement, numbered in order. */
  function SitesOfSpans(spans: seq<Span>, k: nat): seq<Site> {
    seq(|spans|, i requires 0 <= i < |spans| => Site(k + i, spans[i].before))
  }

  lemma SitesOfSpansConcat(a: seq<Span>, b: seq<Span>, k: nat)
    ensures SitesOfSpans(a + b, k) == SitesOfSpans(a, k) + SitesOfSpans(b, k + |a|)
  {
  }

  lemma {:induction false} SitesFollowSpans(ns: seq<Node>, parent: Option<Kind>, before: string, k: nat)
    ensures |Spans(ns, before)| == StatementCount(ns)
    ensures Sites(Emit(ns, parent, k), before) == SitesOfSpans(Spans(ns, before), k)
    decreases ns, 1
  {
    if ns == [] {
      return;
    }
    hide *;
    var k' := k + NodeStatementCount(ns[0]);
    SitesFollowNodeSpans(ns[0], parent, before, k);
    SitesFollowSpans(ns[1..], parent, before + NodeText(ns[0]), k');
    SitesConcat(EmitNode(ns[0], parent, k), Emit(ns[1..], parent, k'), before);
    ErasureOfNode(ns[0], parent, k);
    SitesOfSpansConcat(NodeSpans(ns[0], before), Spans(ns[1..], before + NodeText(ns[0])), k);
    UnfoldForest(ns, parent, before, k);
  }

  lemma UnfoldForest(ns: seq<Node>, parent: Option<Kind>, before: string, k: nat)
    requires ns != []
    ensures Emit(ns, parent, k) == EmitNode(ns[0], parent, k) + Emit(ns[1..], parent, k + NodeStatementCount(ns[0]))
    ensures Spans(ns, before) == NodeSpans(ns[0], before) + Spans(ns[1..], before + NodeText(ns[0]))
    ensures StatementCount(ns) == NodeStatementCount(ns[0]) + StatementCount(ns[1..])
  {
  }

  lemma {:induction false} SitesOfBraced(marked: seq<Piece>, before: string)
    ensures Sites([OpenBrace] + marked + [CloseBrace], before) == Sites(marked, before)
  {
    SitesConcat([OpenBrace] + marked, [CloseBrace], before);
    SitesConcat([OpenBrace], marked, before);
    assert before + Erase([OpenBrace]) == before;
  }

  lemma {:induction false} SitesOfMarked(k: nat, inner: seq<Piece>, before: string)
    ensures Sites([Hit(k)] + inner, before) == [Site(k, before)] + Sites(inner, before)
  {
    assert ([Hit(k)] + inner)[1..] == inner;
  }

  lemma {:induction false} SitesFollowNodeSpans(n: Node, parent: Option<Kind>, before: string, k: nat)
    ensures |NodeSpans(n, before)| == NodeStatementCount(n)
    ensures Sites(EmitNode(n, parent, k), before) == SitesOfSpans(NodeSpans(n, before), k)
    decreases n, 0
  {
    if n.Nonterminal? {
      hide Sites, Emit, Spans, NodeText;
      if n.kind == Statement {
        var inner := Emit(n.children, Some(n.kind), k + 1);
        SitesFollowSpans(n.children, Some(n.kind), before, k + 1);
        SitesOfSpansConcat([Span(before, NodeText(n))], Spans(n.children, before), k);
        SitesOfMarked(k, inner, before);
        SitesOfBraced([Hit(k)] + inner, before);
      } else {
        SitesFollowSpans(n.children, Some(n.kind), before, k);
      }
    }
  }

  function MetadataOfSpans(spans: seq<Span>, k: nat, tagOf: nat -> Tag): seq<Metadata> {
    seq(|spans|, i requires 0 <= i < |spans| =>
      Metadata(tagOf(k + i), Utf16Length(spans[i].before), Utf16Length(spans[i].before + spans[i].text)))
  }

  lemma MetadataOfSpansConcat(a: seq<Span>, b: seq<Span>, k: nat, tagOf: nat -> Tag)
    ensures MetadataOfSpans(a + b, k, tagOf) == MetadataOfSpans(a, k, tagOf) + MetadataOfSpans(b, k + |a|, tagOf)
  {
  }

  lemma NoMetadata(k: nat, tagOf: nat -> Tag)
    ensures MetadataOfSpans([], k, tagOf) == []
  {
  }

  lemma {:induction false} MetadataFollowsSpans(ns: seq<Node>, before: string, k: nat, tagOf: nat -> Tag)
    ensures |Spans(ns, before)| == StatementCount(ns)
    ensures MetadataOf(ns, Utf16Length(before), k, tagOf) == MetadataOfSpans(Spans(ns, before), k, tagOf)
    decreases ns, 1
  {
    hide NodeMetadata, NodeSpans, NodeStatementCount, NodeText, Utf16Length, MetadataOfSpans;
    if ns == [] {
      NoMetadata(k, tagOf);
    } else {
      MetadataOfNodeSpans(ns[0], before, k, tagOf);
      Utf16LengthConcat(before, NodeText(ns[0]));
      MetadataFollowsSpans(ns[1..], before + NodeText(ns[0]), k + NodeStatementCount(ns[0]), tagOf);
      MetadataOfSpansConcat(NodeSpans(ns[0], before), Spans(ns[1..], before + NodeText(ns[0])), k, tagOf);
    }
  }

  lemma {:induction false} MetadataOfNodeSpans(n: Node, before: string, k: nat, tagOf: nat -> Tag)
    ensures |NodeSpans(n, before)| == NodeStatementCount(n)
    ensures NodeMetadata(n, Utf16Length(before), k, tagOf) == MetadataOfSpans(NodeSpans(n, before), k, tagOf)
    decreases n, 0
  {
    if n.Nonterminal? {
      if n.kind == Statement {
        Utf16LengthConcat(before, NodeText(n));
        MetadataFollowsSpans(n.children, before, k + 1, tagOf);
        MetadataOfSpansConcat([Span(before, NodeText(n))], Spans(n.children, before), k, tagOf);
      } else {
        MetadataFollowsSpans(n.children, before, k, tagOf);
      }
    }
  }

  /** Every span is a piece of the source, at the place it claims. */
  lemma {:induction false} SpansLieInText(ns: seq<Node>, before: string, i: nat)
    requires i < |Spans(ns, before)|
    ensures Spans(ns, before)[i].before + Spans(ns, before)[i].text <= before + Text(ns)
    decreases ns, 1
  {
    var first := NodeSpans(ns[0], before);
    if i < |first| {
      NodeSpansLieInText(ns[0], before, i);
      assert before + NodeText(ns[0]) <= before + Text(ns);
    } else {
      SpansLieInText(ns[1..], before + NodeText(ns[0]), i - |first|);
      assert before + NodeText(ns[0]) + Text(ns[1..]) == before + Text(ns);
    }
  }

  lemma {:induction false} NodeSpansLieInText(n: Node, before: string, i: nat)
    requires i < |NodeSpans(n, before)|
    ensures NodeSpans(n, before)[i].before + NodeSpans(n, before)[i].text <= before + NodeText(n)
    decreases n, 0
  {
    if IsStatement(n) {
      if i > 0 {
        SpansLieInText(n.children, before, i - 1);
      }
    } else {
      SpansLieInText(n.children, before, i);
    }
  }

  /** The i-th hit carries the i-th tag, stands where the i-th metadata entry's
      range starts, and the range's text follows it; nothing else is a hit and no
      entry is left over. */
  lemma HitsStandBeforeTheirStatements(root: Node, tagOf: nat -> Tag)
    ensures var sites := Sites(EmitNode(root, None, 0), "");
            var metadata := NodeMetadata(root, 0, 0, tagOf);
            && |sites| == |metadata| == |NodeSpans(root, "")| == NodeStatementCount(root)
            && forall i :: 0 <= i < |sites| ==>
                 var span := NodeSpans(root, "")[i];
                 && sites[i].index == i
                 && metadata[i].tag == tagOf(i)
                 && sites[i].before + span.text <= NodeText(root)
                 && metadata[i].start == Utf16Length(sites[i].before)
                 && metadata[i].end == Utf16Length(sites[i].before + span.text)
  {
    SitesFollowNodeSpans(root, None, "", 0);
    MetadataOfNodeSpans(root, "", 0, tagOf);
    forall i | 0 <= i < |NodeSpans(root, "")|
      ensures NodeSpans(root, "")[i].before + NodeSpans(root, "")[i].text <= NodeText(root)
    {
      NodeSpansLieInText(root, "", i);
      assert "" + NodeText(root) == NodeText(root);
    }
  }
}
