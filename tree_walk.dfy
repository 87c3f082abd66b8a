/**
 * Post-order traversal of a syntax tree through a tree cursor, and Find, which keeps the
 * visited nodes a predicate accepts (pkg/tree-sitter-utils). The parser's trees are given as
 * values of a rose-tree datatype; the cursor is the stack of positions the parser's TreeCursor keeps.
 */
module TreeWalk {
  import opened Wrappers

  /**
   * A syntax-tree node: its grammar type, whether it is a named node, the field name under
   * which its parent holds it, the source text it spans, and its children in source order.
   */
  datatype Node = Node(kind: string, named: bool, field: Option<string>, content: string, children: seq<Node>)

  /** The number of nodes of a tree. */
  function Size(n: Node): nat {
    1 + ForestSize(n.children)
  }

  function ForestSize(ns: seq<Node>): nat {
    if ns == [] then 0 else Size(ns[0]) + ForestSize(ns[1..])
  }

  /** The nodes of a tree in post-order: every child's subtree, left to right, then the node itself. */
  function PostOrder(n: Node): (r: seq<Node>)
    ensures |r| == Size(n) && r[|r| - 1] == n
  {
    PostOrderForest(n.children) + [n]
  }

  function PostOrderForest(ns: seq<Node>): (r: seq<Node>)
    ensures |r| == ForestSize(ns)
  {
    if ns == [] then [] else PostOrder(ns[0]) + PostOrderForest(ns[1..])
  }

  /** x is n or one of its descendants. */
  predicate InTree(x: Node, n: Node) {
    x == n || InForest(x, n.children)
  }

  predicate InForest(x: Node, ns: seq<Node>) {
    exists i :: 0 <= i < |ns| && InTree(x, ns[i])
  }

  /** The walk visits precisely the nodes of the tree. */
  lemma {:induction false} PostOrderVisitsTree(x: Node, n: Node)
    ensures x in PostOrder(n) <==> InTree(x, n)
    decreases n, 1
  {
    PostOrderForestVisitsForest(x, n.children);
  }

  lemma {:induction false} PostOrderForestVisitsForest(x: Node, ns: seq<Node>)
    ensures x in PostOrderForest(ns) <==> InForest(x, ns)
    decreases ns, 0
  {
    if ns != [] {
      PostOrderVisitsTree(x, ns[0]);
      PostOrderForestVisitsForest(x, ns[1..]);
      if InForest(x, ns) && !InTree(x, ns[0]) {
        var i :| 0 <= i < |ns| && InTree(x, ns[i]);
        assert ns[1..][i - 1] == ns[i];
      }
      if InForest(x, ns[1..]) {
        var i :| 0 <= i < |ns[1..]| && InTree(x, ns[1..][i]);
        assert ns[i + 1] == ns[1..][i];
      }
    }
  }

  /**
   * Post-order: the node visited at position k is preceded immediately by all of its descendants,
   * so its whole subtree occupies the block of the walk that ends at k.
   */
  lemma {:induction false} PostOrderBlocks(n: Node, k: nat)
    requires k < |PostOrder(n)|
    ensures var x := PostOrder(n)[k];
      Size(x) <= k + 1 && PostOrder(n)[k + 1 - Size(x)..k + 1] == PostOrder(x)
    decreases n, 1
  {
    var f := PostOrderForest(n.children);
    if k < |f| {
      PostOrderForestBlocks(n.children, k);
      SliceLeft(f, [n], k + 1 - Size(f[k]), k + 1);
    } else {
      assert PostOrder(n)[0..k + 1] == PostOrder(n);
    }
  }

  lemma {:induction false} PostOrderForestBlocks(ns: seq<Node>, k: nat)
    requires k < |PostOrderForest(ns)|
    ensures var x := PostOrderForest(ns)[k];
      Size(x) <= k + 1 && PostOrderForest(ns)[k + 1 - Size(x)..k + 1] == PostOrder(x)
    decreases ns, 0
  {
    var head, rest := PostOrder(ns[0]), PostOrderForest(ns[1..]);
    assert PostOrderForest(ns) == head + rest;
    if k < |head| {
      PostOrderBlocks(ns[0], k);
      SliceLeft(head, rest, k + 1 - Size(head[k]), k + 1);
    } else {
      var k' := k - |head|;
      PostOrderForestBlocks(ns[1..], k');
      SliceRight(head, rest, k + 1 - Size(rest[k']), k + 1);
    }
  }

  /** A slice of a + b that lies within a. */
  lemma SliceLeft(a: seq<Node>, b: seq<Node>, i: nat, j: nat)
    requires i <= j <= |a|
    ensures (a + b)[i..j] == a[i..j]
  {
  }

  /** A slice of a + b that lies within b. */
  lemma SliceRight(a: seq<Node>, b: seq<Node>, i: nat, j: nat)
    requires |a| <= i <= j <= |a| + |b|
    ensures (a + b)[i..j] == b[i - |a|..j - |a|]
  {
  }

  /** The nodes of `s` that satisfy `p`, in their order in `s`. */
  function Filter(s: seq<Node>, p: Node -> bool): (r: seq<Node>)
    ensures |r| <= |s|
  {
    if s == [] then []
    else
      var last := s[|s| - 1];
      Filter(s[..|s| - 1], p) + if p(last) then [last] else []
  }

  /** Filter keeps exactly the nodes of `s` that satisfy `p`. */
  lemma {:induction false} FilterMembers(s: seq<Node>, p: Node -> bool, x: Node)
    ensures x in Filter(s, p) <==> x in s && p(x)
    decreases |s|
  {
    if s != [] {
      var init := s[..|s| - 1];
      FilterMembers(init, p, x);
      assert s == init + [s[|s| - 1]];
    }
  }

  /** Filtering distributes over concatenation, so Filter keeps the relative order of what it keeps. */
  lemma {:induction false} FilterConcat(a: seq<Node>, b: seq<Node>, p: Node -> bool)
    ensures Filter(a + b, p) == Filter(a, p) + Filter(b, p)
    decreases |b|
  {
    if b == [] {
      assert a + b == a;
    } else {
      var b' := b[..|b| - 1];
      FilterConcat(a, b', p);
      var ab := a + b;
      assert ab[..|ab| - 1] == a + b' && ab[|ab| - 1] == b[|b| - 1];
      assert Filter(ab, p) == Filter(a + b', p) + if p(b[|b| - 1]) then [b[|b| - 1]] else [];
    }
  }

  /** A predicate that rejects everything finds nothing. */
  lemma {:induction false} FilterNothing(s: seq<Node>, p: Node -> bool)
    requires forall x :: !p(x)
    ensures Filter(s, p) == []
    decreases |s|
  {
    if s != [] {
      FilterNothing(s[..|s| - 1], p);
    }
  }

  /** A predicate that accepts everything finds every visited node, in visit order. */
  lemma {:induction false} FilterEverything(s: seq<Node>, p: Node -> bool)
    requires forall x :: p(x)
    ensures Filter(s, p) == s
    decreases |s|
  {
    if s != [] {
      FilterEverything(s[..|s| - 1], p);
      assert s[..|s| - 1] + [s[|s| - 1]] == s;
    }
  }

  /**
   * The positions a tree cursor keeps: the node it was started at, and above it one level per
   * descent, each holding the children of the current node of the level below and the index
   * of the child the cursor is on.
   */
  datatype Stack = Bottom(start: Node) | Above(below: Stack, siblings: seq<Node>, index: nat)

  /** The top level's index is in range (the bottom level holds one node). */
  predicate InRange(st: Stack) {
    st.Above? ==> st.index < |st.siblings|
  }

  /** The node the cursor is on. */
  function Current(st: Stack): Node
    requires InRange(st)
  {
    match st
    case Bottom(n) => n
    case Above(_, siblings, i) => siblings[i]
  }

  /** Every level is in range and holds the children of the current node of the level below. */
  predicate WellFormed(st: Stack) {
    match st
    case Bottom(_) => true
    case Above(below, siblings, i) =>
      WellFormed(below) && i < |siblings| && siblings == Current(below).children
  }

  /** The level below, or the bottom level itself: a cursor never climbs above its start node. */
  function Parent(st: Stack): Stack {
    if st.Above? then st.below else st
  }

  /** The current node and its right siblings: what is left to walk on this level. */
  function Rest(st: Stack): seq<Node>
    requires InRange(st)
  {
    match st
    case Bottom(n) => [n]
    case Above(_, siblings, i) => siblings[i..]
  }

  /** The right siblings of the current node, if the cursor may move to them. */
  function After(st: Stack): seq<Node>
    requires InRange(st)
  {
    match st
    case Bottom(_) => []
    case Above(_, siblings, i) => siblings[i + 1..]
  }

  /** A tree cursor started at some node. */
  class TreeCursor {
    var stack: Stack

    ghost predicate Valid()
      reads this
    {
      WellFormed(stack)
    }

    constructor (node: Node)
      ensures Valid() && stack == Bottom(node)
    {
      stack := Bottom(node);
    }

    /** CurrentNode: the node the cursor is on. */
    function CurrentNode(): (n: Node)
      reads this
      requires Valid()
      ensures n == Current(stack)
    {
      Current(stack)
    }

    /** GoToFirstChild: descend to the first child, if the current node has one. */
    method GoToFirstChild() returns (moved: bool)
      requires Valid()
      modifies this
      ensures Valid()
      ensures moved == (Current(old(stack)).children != [])
      ensures stack == if moved then Above(old(stack), Current(old(stack)).children, 0) else old(stack)
    {
      var node := CurrentNode();
      if node.children == [] {
        moved := false;
      } else {
        stack := Above(stack, node.children, 0);
        moved := true;
      }
    }

    /** GoToNextSibling: move right, but never beyond the node the cursor was started at. */
    method GoToNextSibling() returns (moved: bool)
      requires Valid()
      modifies this
      ensures Valid()
      ensures moved == (After(old(stack)) != [])
      ensures stack == if moved then old(stack).(index := old(stack).index + 1) else old(stack)
    {
      if stack.Above? && stack.index + 1 < |stack.siblings| {
        stack := stack.(index := stack.index + 1);
        moved := true;
      } else {
        moved := false;
      }
    }

    /** GoToParent: climb one level, but never above the node the cursor was started at. */
    method GoToParent() returns (moved: bool)
      requires Valid()
      modifies this
      ensures Valid()
      ensures moved == old(stack).Above?
      ensures stack == Parent(old(stack))
    {
      if stack.Above? {
        stack := stack.below;
        moved := true;
      } else {
        moved := false;
      }
    }
  }

  /** What is left on a level is the current node followed by its right siblings. */
  lemma RestUnfold(st: Stack)
    requires InRange(st)
    ensures ForestSize(Rest(st)) == Size(Current(st)) + ForestSize(After(st))
    ensures PostOrderForest(Rest(st)) == PostOrder(Current(st)) + PostOrderForest(After(st))
  {
    match st
    case Bottom(n) =>
      assert [n][1..] == [];
    case Above(_, siblings, i) =>
      assert Rest(st)[1..] == After(st);
  }

  /** Descending to the first child leaves the whole child list to walk. */
  lemma RestOfFirstChild(below: Stack, children: seq<Node>)
    requires children != []
    ensures Rest(Above(below, children, 0)) == children
  {
  }

  /**
   * The inner `walk` of Walk: the subtree under the cursor, then the subtrees of its right
   * siblings, after which the cursor is back on the parent (or stays on the start node).
   * Returns the nodes handed to the callback, in call order.
   */
  method WalkFrom(cursor: TreeCursor) returns (visits: seq<Node>)
    requires cursor.Valid()
    modifies cursor
    decreases ForestSize(Rest(cursor.stack))
    ensures cursor.Valid()
    ensures visits == PostOrderForest(Rest(old(cursor.stack)))
    ensures cursor.stack == Parent(old(cursor.stack))
  {
    ghost var s0 := cursor.stack;
    var node := cursor.CurrentNode();
    RestUnfold(s0);
    visits := [];
    var hasChild := cursor.GoToFirstChild();
    if hasChild {
      RestOfFirstChild(s0, node.children);
      visits := WalkFrom(cursor);
    }
    visits := visits + [cursor.CurrentNode()];
    var hasSibling := cursor.GoToNextSibling();
    if hasSibling {
      assert Rest(cursor.stack) == After(s0);
      var more := WalkFrom(cursor);
      visits := visits + more;
    } else {
      var _ := cursor.GoToParent();
    }
  }

  /** Walk: hands every node of the subtree rooted at `node` to the callback, in post-order. */
  method Walk(node: Node) returns (visits: seq<Node>)
    ensures visits == PostOrder(node)
  {
    var cursor := new TreeCursor(node);
    visits := WalkFrom(cursor);
  }

  /** Find: the nodes of the subtree for which `pred` holds, in the order Walk visits them. */
  method Find(node: Node, pred: Node -> bool) returns (nodes: seq<Node>)
    ensures nodes == Filter(PostOrder(node), pred)
  {
    var visits := Walk(node);
    nodes := [];
    for i := 0 to |visits|
      invariant nodes == Filter(visits[..i], pred)
    {
      assert visits[..i + 1][..i] == visits[..i];
      if pred(visits[i]) {
        nodes := nodes + [visits[i]];
      }
    }
    assert visits[..|visits|] == visits;
  }
}
