/** The lossless concrete syntax tree the instrumentation walks, and the tree
    cursor it walks it with. The parser itself is not modelled: a tree is an
    input. */
module SyntaxTree {
  import opened Prelude

  datatype Kind =
    | Statement
    | IfStatement
    | ElseBranch
    | ForStatement
    | WhileStatement
    | DoWhileStatement
    | Block
    | Statements
    | OtherKind(name: string)

  datatype Node =
    | Terminal(text: string)
    | Nonterminal(kind: Kind, children: seq<Node>)

  predicate IsStatement(n: Node) {
    n.Nonterminal? && n.kind == Statement
  }

  /** The source text a forest covers. */
  function Text(ns: seq<Node>): string {
    if ns == [] then "" else NodeText(ns[0]) + Text(ns[1..])
  }

  function NodeText(n: Node): string {
    if n.Terminal? then n.text else Text(n.children)
  }

  /** The number of `Statement` nodes of a forest. */
  function StatementCount(ns: seq<Node>): nat {
    if ns == [] then 0 else NodeStatementCount(ns[0]) + StatementCount(ns[1..])
  }

  function NodeStatementCount(n: Node): nat {
    if n.Terminal? then 0 else (if IsStatement(n) then 1 else 0) + StatementCount(n.children)
  }

  /** Length in UTF-16 code units. */
  function Utf16Length(s: string): nat {
    if s == "" then 0 else (if s[0] as int < 0x1_0000 then 1 else 2) + Utf16Length(s[1..])
  }

  /** The UTF-16 form of a text: a code unit for each character of the basic plane, and a
      surrogate pair for any other. */
  function Utf16(s: string): seq<int> {
    if s == "" then []
    else
      var c := s[0] as int;
      (if c <= 0xFFFF then [c] else [0xD800 + (c - 0x1_0000) / 0x400, 0xDC00 + (c - 0x1_0000) % 0x400]) + Utf16(s[1..])
  }

  /** Text offsets count exactly these code units, each of which fits 16 bits. */
  lemma {:induction false} Utf16LengthIsExact(s: string)
    ensures Utf16Length(s) == |Utf16(s)|
    ensures forall u <- Utf16(s) :: 0 <= u < 0x1_0000
  {
    if s != "" {
      Utf16LengthIsExact(s[1..]);
    }
  }

  lemma {:induction false} Utf16LengthConcat(a: string, b: string)
    ensures Utf16Length(a + b) == Utf16Length(a) + Utf16Length(b)
  {
    if a == "" {
      assert a + b == b;
    } else {
      assert (a + b)[1..] == a[1..] + b;
      Utf16LengthConcat(a[1..], b);
    }
  }

  lemma {:induction false} TextConcat(a: seq<Node>, b: seq<Node>)
    ensures Text(a + b) == Text(a) + Text(b)
  {
    if a == [] {
      assert a + b == b;
    } else {
      assert (a + b)[1..] == a[1..] + b;
      TextConcat(a[1..], b);
    }
  }

  lemma {:induction false} TextSingle(n: Node)
    ensures Text([n]) == NodeText(n)
  {
    assert [n][1..] == [];
    assert Text([n]) == NodeText(n) + Text([n][1..]);
  }

  // ----- the cursor -----

  /** One level of a cursor's path: the ancestor, which of its children the path
      goes through, and the ancestor's own text offset. */
  datatype Step = Step(parent: Node, index: nat, offset: nat)

  /** A cursor stands at a node (root first in `path`, direct parent last) or has
      run off the end of its tree. Offsets are in UTF-16 code units. */
  datatype Cursor =
    | Completed
    | At(node: Node, path: seq<Step>, offset: nat)

  /** A node still to be visited, with the kind of its parent under its cursor. */
  datatype Item = Item(node: Node, parent: Option<Kind>)

  function NewCursor(root: Node, offset: nat): (c: Cursor)
    ensures Valid(c)
  {
    At(root, [], offset)
  }

  predicate ValidStep(s: Step) {
    s.parent.Nonterminal? && s.index < |s.parent.children|
  }

  /** The path is a real path to `node`, with the offsets the texts give. */
  predicate Valid(c: Cursor)
    decreases if c.At? then |c.path| else 0
  {
    c.At? && c.path != [] ==>
      var s := c.path[|c.path| - 1];
      ValidStep(s) && Child(s) == c.node && ChildOffset(s) == c.offset && Valid(GoToParent(c))
  }

  function Child(s: Step): Node
    requires ValidStep(s)
  {
    s.parent.children[s.index]
  }

  function ChildOffset(s: Step): nat
    requires ValidStep(s)
  {
    s.offset + Utf16Length(Text(s.parent.children[..s.index]))
  }

  /** The kind of the nearest ancestor; absent at the cursor's root. */
  function ParentKind(c: Cursor): Option<Kind>
    requires c.At? && Valid(c)
  {
    if c.path == [] then None else Some(c.path[|c.path| - 1].parent.kind)
  }

  function GoToParent(c: Cursor): Cursor
    requires c.At? && c.path != []
  {
    var n := |c.path| - 1;
    At(c.path[n].parent, c.path[..n], c.path[n].offset)
  }

  function GoToNextNonDescendant(c: Cursor): Cursor
    requires c.At? && Valid(c)
    decreases |c.path|
  {
    if c.path == [] then
      Completed
    else
      var n := |c.path| - 1;
      var s := c.path[n];
      if s.index + 1 < |s.parent.children| then
        At(s.parent.children[s.index + 1],
           c.path[..n] + [s.(index := s.index + 1)],
           c.offset + Utf16Length(NodeText(c.node)))
      else
        GoToNextNonDescendant(GoToParent(c))
  }

  function GoToNext(c: Cursor): Cursor
    requires c.At? && Valid(c)
  {
    if c.node.Nonterminal? && c.node.children != [] then
      At(c.node.children[0], c.path + [Step(c.node, 0, c.offset)], c.offset)
    else
      GoToNextNonDescendant(c)
  }

  function Items(ns: seq<Node>, parent: Option<Kind>): seq<Item> {
    if ns == [] then [] else [Item(ns[0], parent)] + Items(ns[1..], parent)
  }

  function ChildItems(n: Node): seq<Item> {
    if n.Terminal? then [] else Items(n.children, Some(n.kind))
  }

  /** What lies after the current subtree. */
  function Rest(c: Cursor): seq<Item>
    requires c.At? && Valid(c)
    decreases |c.path|
  {
    if c.path == [] then
      []
    else
      var s := c.path[|c.path| - 1];
      Items(s.parent.children[s.index + 1..], Some(s.parent.kind)) + Rest(GoToParent(c))
  }

  /** Everything a cursor has still to visit, subtree by subtree. */
  function Work(c: Cursor): seq<Item>
    requires Valid(c)
  {
    if c.Completed? then [] else [Item(c.node, ParentKind(c))] + Rest(c)
  }

  lemma EndOfChild(s: Step)
    requires ValidStep(s)
    ensures ChildOffset(s) + Utf16Length(NodeText(Child(s)))
         == s.offset + Utf16Length(Text(s.parent.children[..s.index + 1]))
  {
    var before := s.parent.children[..s.index];
    assert s.parent.children[..s.index + 1] == before + [Child(s)];
    TextConcat(before, [Child(s)]);
    TextSingle(Child(s));
    Utf16LengthConcat(Text(before), NodeText(Child(s)));
  }

  lemma UnfoldRest(c: Cursor)
    requires c.At? && Valid(c) && c.path != []
    ensures var s := c.path[|c.path| - 1];
            Rest(c) == Items(s.parent.children[s.index + 1..], Some(s.parent.kind)) + Rest(GoToParent(c))
  {
  }

  lemma UnfoldItems(ns: seq<Node>, parent: Option<Kind>)
    requires ns != []
    ensures Items(ns, parent) == [Item(ns[0], parent)] + Items(ns[1..], parent)
  {
  }

  predicate HasNextSibling(c: Cursor) {
    c.At? && c.path != [] && ValidStep(c.path[|c.path| - 1]) &&
    c.path[|c.path| - 1].index + 1 < |c.path[|c.path| - 1].parent.children|
  }

  lemma UnfoldValid(c: Cursor)
    requires c.At? && Valid(c) && c.path != []
    ensures var s := c.path[|c.path| - 1];
            ValidStep(s) && Child(s) == c.node && ChildOffset(s) == c.offset && Valid(GoToParent(c))
  {
  }

  lemma FoldValid(c: Cursor)
    requires c.At? && c.path != []
    requires var s := c.path[|c.path| - 1];
             ValidStep(s) && Child(s) == c.node && ChildOffset(s) == c.offset && Valid(GoToParent(c))
    ensures Valid(c)
  {
  }

  lemma UnfoldNextSibling(c: Cursor)
    requires c.At? && Valid(c) && HasNextSibling(c)
    ensures var n := |c.path| - 1;
            var s := c.path[n];
            GoToNextNonDescendant(c)
            == At(s.parent.children[s.index + 1], c.path[..n] + [s.(index := s.index + 1)],
                  c.offset + Utf16Length(NodeText(c.node)))
  {
    hide NodeText, Utf16Length;
  }

  lemma ParentOfExtended(node: Node, path: seq<Step>, s: Step, offset: nat)
    ensures (path + [s])[|path|] == s && GoToParent(At(node, path + [s], offset)) == At(s.parent, path, s.offset)
  {
    assert (path + [s])[..|path|] == path;
  }

  lemma {:induction false} NextSiblingIsValid(c: Cursor)
    requires c.At? && Valid(c) && HasNextSibling(c)
    ensures var d := GoToNextNonDescendant(c);
            && d.At? && d.path != [] && Valid(d) && GoToParent(d) == GoToParent(c)
            && var s := c.path[|c.path| - 1];
               d.node == s.parent.children[s.index + 1] && d.path[|d.path| - 1] == s.(index := s.index + 1)
  {
    hide NodeText, Text, Utf16Length, Valid, GoToNextNonDescendant;
    UnfoldValid(c);
    UnfoldNextSibling(c);
    var n := |c.path| - 1;
    var s := c.path[n];
    EndOfChild(s);
    var next := s.(index := s.index + 1);
    var d := GoToNextNonDescendant(c);
    ParentOfExtended(d.node, c.path[..n], next, d.offset);
    FoldValid(d);
  }

  lemma {:induction false} NextSibling(c: Cursor)
    requires c.At? && Valid(c) && HasNextSibling(c)
    ensures Valid(GoToNextNonDescendant(c))
    ensures Work(GoToNextNonDescendant(c)) == Rest(c)
  {
    hide Valid, GoToNextNonDescendant, GoToParent, Rest, Items;
    NextSiblingIsValid(c);
    var s := c.path[|c.path| - 1];
    var d := GoToNextNonDescendant(c);
    UnfoldRest(c);
    UnfoldRest(d);
    var after := s.parent.children[s.index + 1..];
    assert after[1..] == s.parent.children[s.index + 2..];
    UnfoldItems(after, Some(s.parent.kind));
  }

  /** Skipping a subtree leaves exactly the work after it, and the next node's
      offset is the end of the skipped text. */
  lemma {:induction false} NextNonDescendantSkipsSubtree(c: Cursor)
    requires c.At? && Valid(c)
    ensures Valid(GoToNextNonDescendant(c))
    ensures Work(GoToNextNonDescendant(c)) == Rest(c)
    ensures GoToNextNonDescendant(c).At? ==>
              && GoToNextNonDescendant(c).path != []
              && GoToNextNonDescendant(c).offset == c.offset + Utf16Length(NodeText(c.node))
    decreases |c.path|
  {
    if c.path != [] {
      var s := c.path[|c.path| - 1];
      if s.index + 1 < |s.parent.children| {
        NextSibling(c);
      } else {
        EndOfChild(s);
        NextNonDescendantSkipsSubtree(GoToParent(c));
        assert s.parent.children == s.parent.children[..s.index + 1];
        assert s.parent.children[s.index + 1..] == [];
      }
    }
  }

  lemma {:induction false} FirstChild(c: Cursor)
    requires c.At? && Valid(c) && c.node.Nonterminal? && c.node.children != []
    ensures Valid(GoToNext(c))
    ensures Work(GoToNext(c)) == ChildItems(c.node) + Rest(c)
  {
    var d := GoToNext(c);
    assert GoToParent(d) == c;
    assert Rest(d) == Items(c.node.children[1..], Some(c.node.kind)) + Rest(c);
  }

  /** Advancing replaces the current subtree by its children. */
  lemma {:induction false} NextExpandsNode(c: Cursor)
    requires c.At? && Valid(c)
    ensures Valid(GoToNext(c))
    ensures Work(GoToNext(c)) == ChildItems(c.node) + Rest(c)
    ensures GoToNext(c).At? ==>
              && GoToNext(c).path != []
              && GoToNext(c).offset == c.offset + if c.node.Terminal? then Utf16Length(c.node.text) else 0
  {
    if c.node.Nonterminal? && c.node.children != [] {
      FirstChild(c);
    } else {
      NextNonDescendantSkipsSubtree(c);
    }
  }
}
