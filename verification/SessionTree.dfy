/** Flattening the session tree with an explicit stack, against recursive preorder. */
module SessionTree {
  import opened Options
  import opened ParentWalks

  datatype Node = Node(id: Option<string>, children: seq<Node>)

  datatype Row = Row(
    id: string, parentId: Option<string>, depth: nat, isLeaf: bool, isCurrent: bool,
    onActivePath: bool, childIds: seq<string>)

  datatype Pending = Pending(node: Node, depth: nat, parentId: Option<string>)

  function ChildIds(nodes: seq<Node>): seq<string> {
    if nodes == [] then []
    else (if nodes[0].id.Some? then [nodes[0].id.value] else []) + ChildIds(nodes[1..])
  }

  function RowOf(p: Pending, leaf: Option<string>): Row
    requires p.node.id.Some?
  {
    Row(p.node.id.value, p.parentId, p.depth, p.node.children == [], leaf == p.node.id, false, ChildIds(p.node.children))
  }

  // ---------------------------------------------------------------------------
  // Recursive preorder with a threaded set of visited ids
  // ---------------------------------------------------------------------------

  datatype Visit = Visit(rows: seq<Row>, seen: set<string>)

  // A node without an id, or with one already seen, is skipped with everything below it.
  ghost function Preorder(node: Node, depth: nat, parentId: Option<string>, leaf: Option<string>, seen: set<string>): Visit
    decreases node, 1
  {
    if node.id.None? || node.id.value in seen then Visit([], seen)
    else
      var below := PreorderAll(node.children, depth + 1, node.id, leaf, seen + {node.id.value});
      Visit([RowOf(Pending(node, depth, parentId), leaf)] + below.rows, below.seen)
  }

  ghost function PreorderAll(nodes: seq<Node>, depth: nat, parentId: Option<string>, leaf: Option<string>, seen: set<string>): Visit
    decreases nodes, 0
  {
    if nodes == [] then Visit([], seen)
    else
      var first := Preorder(nodes[0], depth, parentId, leaf, seen);
      var rest := PreorderAll(nodes[1..], depth, parentId, leaf, first.seen);
      Visit(first.rows + rest.rows, rest.seen)
  }

  // ---------------------------------------------------------------------------
  // Shape of the rows
  // ---------------------------------------------------------------------------

  function RowIds(rows: seq<Row>): set<string> {
    set r | r in rows :: r.id
  }

  ghost predicate DistinctRows(rows: seq<Row>) {
    forall i, j :: 0 <= i < j < |rows| ==> rows[i].id != rows[j].id
  }

  ghost predicate FollowsParent(rows: seq<Row>, k: nat)
    requires k < |rows|
  {
    exists j :: 0 <= j < k && rows[k].parentId == Some(rows[j].id) && rows[k].depth == rows[j].depth + 1
  }

  // Every row is at the top level or follows its parent, one level deeper.
  ghost predicate Nested(rows: seq<Row>, depth: nat, parentId: Option<string>) {
    forall k :: 0 <= k < |rows| ==>
                  (rows[k].depth == depth && rows[k].parentId == parentId) || FollowsParent(rows, k)
  }

  lemma FollowsShifted(before: seq<Row>, rows: seq<Row>, k: nat)
    requires k < |rows| && FollowsParent(rows, k)
    ensures FollowsParent(before + rows, |before| + k)
  {
    var j :| 0 <= j < k && rows[k].parentId == Some(rows[j].id) && rows[k].depth == rows[j].depth + 1;
    assert (before + rows)[|before| + j] == rows[j];
  }

  lemma FollowsExtended(rows: seq<Row>, after: seq<Row>, k: nat)
    requires k < |rows| && FollowsParent(rows, k)
    ensures FollowsParent(rows + after, k)
  {
    var j :| 0 <= j < k && rows[k].parentId == Some(rows[j].id) && rows[k].depth == rows[j].depth + 1;
    assert (rows + after)[j] == rows[j];
  }

  lemma NestedAppend(a: seq<Row>, b: seq<Row>, depth: nat, parentId: Option<string>)
    requires Nested(a, depth, parentId) && Nested(b, depth, parentId)
    ensures Nested(a + b, depth, parentId)
  {
    var rows := a + b;
    forall k | 0 <= k < |rows| && !(rows[k].depth == depth && rows[k].parentId == parentId)
      ensures FollowsParent(rows, k)
    {
      if k < |a| {
        FollowsExtended(a, b, k);
      } else {
        FollowsShifted(a, b, k - |a|);
      }
    }
  }

  lemma FollowsRoot(root: Row, below: seq<Row>, k: nat)
    requires 1 <= k <= |below| && below[k - 1].parentId == Some(root.id) && below[k - 1].depth == root.depth + 1
    ensures FollowsParent([root] + below, k)
  {
    var rows := [root] + below;
    assert rows[0] == root && rows[k] == below[k - 1];
  }

  lemma FollowsUnderRoot(root: Row, below: seq<Row>, k: nat)
    requires k < |below|
    requires (below[k].depth == root.depth + 1 && below[k].parentId == Some(root.id)) || FollowsParent(below, k)
    ensures FollowsParent([root] + below, k + 1)
  {
    if FollowsParent(below, k) {
      FollowsShifted([root], below, k);
    } else {
      FollowsRoot(root, below, k + 1);
    }
  }

  lemma NestedUnderRoot(root: Row, below: seq<Row>)
    requires Nested(below, root.depth + 1, Some(root.id))
    ensures forall k :: 1 <= k <= |below| ==> FollowsParent([root] + below, k)
  {
    forall k | 1 <= k <= |below|
      ensures FollowsParent([root] + below, k)
    {
      FollowsUnderRoot(root, below, k - 1);
    }
  }

  lemma DistinctAppend(a: seq<Row>, b: seq<Row>)
    requires DistinctRows(a) && DistinctRows(b) && RowIds(a) !! RowIds(b)
    ensures DistinctRows(a + b) && RowIds(a + b) == RowIds(a) + RowIds(b)
  {
    assert forall r :: r in a ==> r.id in RowIds(a);
    assert forall r :: r in b ==> r.id in RowIds(b);
  }

  lemma NestedRoot(rows: seq<Row>, depth: nat, parentId: Option<string>)
    requires rows != [] ==> rows[0].depth == depth && rows[0].parentId == parentId
    requires forall k :: 1 <= k < |rows| ==> FollowsParent(rows, k)
    ensures Nested(rows, depth, parentId)
  {}

  lemma DistinctUnderRoot(root: Row, below: seq<Row>)
    requires DistinctRows(below) && root.id !in RowIds(below)
    ensures DistinctRows([root] + below) && RowIds([root] + below) == {root.id} + RowIds(below)
  {
    var rows := [root] + below;
    assert forall r :: r in rows <==> r == root || r in below;
    assert forall i :: 0 <= i < |below| ==> below[i] in below && below[i].id in RowIds(below);
    assert forall i :: 1 <= i < |rows| ==> rows[i] == below[i - 1];
  }

  // Under one root: the first row is the root, every other row follows its parent and is
  // one level deeper, and no id occurs twice or was seen before.
  lemma {:induction false} PreorderShape(node: Node, depth: nat, parentId: Option<string>, leaf: Option<string>, seen: set<string>)
    ensures var v := Preorder(node, depth, parentId, leaf, seen);
            && DistinctRows(v.rows) && RowIds(v.rows) !! seen && v.seen == seen + RowIds(v.rows)
            && (v.rows != [] ==> v.rows[0].depth == depth && v.rows[0].parentId == parentId && Some(v.rows[0].id) == node.id)
            && (forall k :: 1 <= k < |v.rows| ==> FollowsParent(v.rows, k))
    decreases node, 1
  {
    if node.id.Some? && node.id.value !in seen {
      var below := PreorderAll(node.children, depth + 1, node.id, leaf, seen + {node.id.value});
      PreorderAllShape(node.children, depth + 1, node.id, leaf, seen + {node.id.value});
      var root := RowOf(Pending(node, depth, parentId), leaf);
      NestedUnderRoot(root, below.rows);
      DistinctUnderRoot(root, below.rows);
    }
  }

  lemma {:induction false} PreorderAllShape(nodes: seq<Node>, depth: nat, parentId: Option<string>, leaf: Option<string>, seen: set<string>)
    ensures var v := PreorderAll(nodes, depth, parentId, leaf, seen);
            && DistinctRows(v.rows) && RowIds(v.rows) !! seen && v.seen == seen + RowIds(v.rows)
            && Nested(v.rows, depth, parentId)
    decreases nodes, 0
  {
    if nodes != [] {
      var first := Preorder(nodes[0], depth, parentId, leaf, seen);
      PreorderShape(nodes[0], depth, parentId, leaf, seen);
      var rest := PreorderAll(nodes[1..], depth, parentId, leaf, first.seen);
      PreorderAllShape(nodes[1..], depth, parentId, leaf, first.seen);
      NestedRoot(first.rows, depth, parentId);
      NestedAppend(first.rows, rest.rows, depth, parentId);
      DistinctAppend(first.rows, rest.rows);
    }
  }

  // ---------------------------------------------------------------------------
  // What a row says of its node
  // ---------------------------------------------------------------------------

  ghost predicate Below(n: Node, node: Node)
    decreases node
  {
    n == node || exists k :: 0 <= k < |node.children| && Below(n, node.children[k])
  }

  ghost predicate BelowAny(n: Node, nodes: seq<Node>) {
    exists k :: 0 <= k < |nodes| && Below(n, nodes[k])
  }

  // A leaf is a node without children, whether or not these have ids; the current row is that
  // of the leaf of the log; no row is marked yet.
  ghost predicate Describes(r: Row, n: Node, leaf: Option<string>) {
    && n.id == Some(r.id) && (r.isLeaf <==> |n.children| == 0) && (r.isCurrent <==> leaf == Some(r.id))
    && !r.onActivePath && ListsIds(r.childIds, n.children)
  }

  // The ids of those nodes that have one, in their order.
  ghost predicate ListsIds(ids: seq<string>, nodes: seq<Node>) {
    if nodes == [] then ids == []
    else
      var last := nodes[|nodes| - 1];
      match last.id
      case None => ListsIds(ids, nodes[..|nodes| - 1])
      case Some(id) => ids != [] && ids[|ids| - 1] == id && ListsIds(ids[..|ids| - 1], nodes[..|nodes| - 1])
  }

  lemma {:induction false} ChildIdsSnoc(nodes: seq<Node>, last: Node)
    ensures ChildIds(nodes + [last]) == if last.id.Some? then ChildIds(nodes) + [last.id.value] else ChildIds(nodes)
  {
    if nodes == [] {
      assert nodes + [last] == [last] && [last][1..] == [];
    } else {
      ChildIdsSnoc(nodes[1..], last);
      assert (nodes + [last])[0] == nodes[0] && (nodes + [last])[1..] == nodes[1..] + [last];
    }
  }

  lemma {:induction false} ChildIdsAreListed(nodes: seq<Node>)
    ensures ListsIds(ChildIds(nodes), nodes)
  {
    if nodes != [] {
      var front, last := nodes[..|nodes| - 1], nodes[|nodes| - 1];
      ChildIdsAreListed(front);
      ChildIdsSnoc(front, last);
      assert front + [last] == nodes;
    }
  }

  // Every row describes a node of the tree.
  lemma {:induction false} RowsDescribeNodes(node: Node, depth: nat, parentId: Option<string>, leaf: Option<string>, seen: set<string>, r: Row)
    requires r in Preorder(node, depth, parentId, leaf, seen).rows
    ensures exists n :: Below(n, node) && Describes(r, n, leaf)
    decreases node, 1
  {
    var below := PreorderAll(node.children, depth + 1, node.id, leaf, seen + {node.id.value});
    if r in below.rows {
      RowsDescribeNodesIn(node.children, depth + 1, node.id, leaf, seen + {node.id.value}, r);
      var n :| BelowAny(n, node.children) && Describes(r, n, leaf);
      assert Below(n, node);
    } else {
      ChildIdsAreListed(node.children);
      assert Below(node, node) && Describes(r, node, leaf);
    }
  }

  lemma {:induction false} RowsDescribeNodesIn(nodes: seq<Node>, depth: nat, parentId: Option<string>, leaf: Option<string>, seen: set<string>, r: Row)
    requires r in PreorderAll(nodes, depth, parentId, leaf, seen).rows
    ensures exists n :: BelowAny(n, nodes) && Describes(r, n, leaf)
    decreases nodes, 0
  {
    var first := Preorder(nodes[0], depth, parentId, leaf, seen);
    if r in first.rows {
      RowsDescribeNodes(nodes[0], depth, parentId, leaf, seen, r);
      var n :| Below(n, nodes[0]) && Describes(r, n, leaf);
      assert BelowAny(n, nodes);
    } else {
      RowsDescribeNodesIn(nodes[1..], depth, parentId, leaf, first.seen, r);
      var n :| BelowAny(n, nodes[1..]) && Describes(r, n, leaf);
      var k :| 0 <= k < |nodes| - 1 && Below(n, nodes[1..][k]);
      assert Below(n, nodes[k + 1]);
    }
  }

  // ---------------------------------------------------------------------------
  // Nothing is lost from a well-formed tree
  // ---------------------------------------------------------------------------

  ghost function IdsBelow(node: Node): seq<Option<string>>
    decreases node, 1
  {
    [node.id] + IdsOfAll(node.children)
  }

  ghost function IdsOfAll(nodes: seq<Node>): seq<Option<string>>
    decreases nodes, 0
  {
    if nodes == [] then [] else IdsBelow(nodes[0]) + IdsOfAll(nodes[1..])
  }

  ghost function Listed(rows: seq<Row>): seq<Option<string>> {
    seq(|rows|, i requires 0 <= i < |rows| => Some(rows[i].id))
  }

  ghost predicate AllNew(ids: seq<Option<string>>, seen: set<string>) {
    && (forall i :: 0 <= i < |ids| ==> ids[i].Some? && ids[i].value !in seen)
    && (forall i, j :: 0 <= i < j < |ids| ==> ids[i] != ids[j])
  }

  function Values(ids: seq<Option<string>>): set<string> {
    set o | o in ids && o.Some? :: o.value
  }

  lemma AllNewSplit(a: seq<Option<string>>, b: seq<Option<string>>, seen: set<string>)
    requires AllNew(a + b, seen)
    ensures AllNew(a, seen) && AllNew(b, seen + Values(a))
  {
    assert forall i :: 0 <= i < |a| ==> (a + b)[i] == a[i];
    assert forall i :: 0 <= i < |b| ==> (a + b)[|a| + i] == b[i];
  }

  // If all ids are present and distinct, the rows are exactly the nodes in preorder.
  lemma {:induction false} PreorderListsEverything(node: Node, depth: nat, parentId: Option<string>, leaf: Option<string>, seen: set<string>)
    requires AllNew(IdsBelow(node), seen)
    ensures Listed(Preorder(node, depth, parentId, leaf, seen).rows) == IdsBelow(node)
    decreases node, 1
  {
    assert IdsBelow(node)[0] == node.id;
    AllNewSplit([node.id], IdsOfAll(node.children), seen);
    assert Values([node.id]) == {node.id.value} by { assert node.id in [node.id]; }
    PreorderAllListsEverything(node.children, depth + 1, node.id, leaf, seen + {node.id.value});
  }

  lemma {:induction false} PreorderAllListsEverything(nodes: seq<Node>, depth: nat, parentId: Option<string>, leaf: Option<string>, seen: set<string>)
    requires AllNew(IdsOfAll(nodes), seen)
    ensures Listed(PreorderAll(nodes, depth, parentId, leaf, seen).rows) == IdsOfAll(nodes)
    decreases nodes, 0
  {
    if nodes != [] {
      var ids := IdsBelow(nodes[0]);
      AllNewSplit(ids, IdsOfAll(nodes[1..]), seen);
      PreorderListsEverything(nodes[0], depth, parentId, leaf, seen);
      PreorderShape(nodes[0], depth, parentId, leaf, seen);
      var first := Preorder(nodes[0], depth, parentId, leaf, seen);
      ListedIds(first.rows, ids);
      PreorderAllListsEverything(nodes[1..], depth, parentId, leaf, first.seen);
    }
  }

  lemma ListedIds(rows: seq<Row>, ids: seq<Option<string>>)
    requires Listed(rows) == ids
    ensures RowIds(rows) == Values(ids)
  {
    forall i | 0 <= i < |rows| ensures ids[i] == Some(rows[i].id) {
    }
    forall x | x in Values(ids) ensures x in RowIds(rows) {
      var i :| 0 <= i < |ids| && ids[i] == Some(x);
      assert rows[i].id == x;
    }
    forall x | x in RowIds(rows) ensures x in Values(ids) {
      var i :| 0 <= i < |rows| && rows[i].id == x;
      assert ids[i] == Some(x);
    }
  }

  // ---------------------------------------------------------------------------
  // The explicit stack
  // ---------------------------------------------------------------------------

  // What popping the stack, top at the end, still has to produce.
  ghost function Unwind(stack: seq<Pending>, leaf: Option<string>, seen: set<string>): Visit
    decreases |stack|
  {
    if stack == [] then Visit([], seen)
    else
      var n := |stack| - 1;
      var top := Preorder(stack[n].node, stack[n].depth, stack[n].parentId, leaf, seen);
      var rest := Unwind(stack[..n], leaf, top.seen);
      Visit(top.rows + rest.rows, rest.seen)
  }

  // The children, last one first, so that the first one ends up on top.
  function Reversed(nodes: seq<Node>, depth: nat, parentId: Option<string>): seq<Pending> {
    if nodes == [] then [] else Reversed(nodes[1..], depth, parentId) + [Pending(nodes[0], depth, parentId)]
  }

  ghost function Size(node: Node): nat
    decreases node, 1
  {
    1 + SizeAll(node.children)
  }

  ghost function SizeAll(nodes: seq<Node>): nat
    decreases nodes, 0
  {
    if nodes == [] then 0 else Size(nodes[0]) + SizeAll(nodes[1..])
  }

  ghost function StackSize(stack: seq<Pending>): nat {
    if stack == [] then 0 else StackSize(stack[..|stack| - 1]) + Size(stack[|stack| - 1].node)
  }

  lemma {:induction false} SizePushed(stack: seq<Pending>, nodes: seq<Node>, depth: nat, parentId: Option<string>)
    ensures StackSize(stack + Reversed(nodes, depth, parentId)) == StackSize(stack) + SizeAll(nodes)
    decreases |nodes|
  {
    var pushed := stack + Reversed(nodes, depth, parentId);
    if nodes == [] {
      assert pushed == stack;
    } else {
      SizePushed(stack, nodes[1..], depth, parentId);
      assert pushed[|pushed| - 1] == Pending(nodes[0], depth, parentId);
      assert pushed[..|pushed| - 1] == stack + Reversed(nodes[1..], depth, parentId);
    }
  }

  // Pushed children are produced in order, before what lies below them.
  lemma {:induction false} UnwindPushed(stack: seq<Pending>, nodes: seq<Node>, depth: nat, parentId: Option<string>,
                                        leaf: Option<string>, seen: set<string>)
    ensures var below := PreorderAll(nodes, depth, parentId, leaf, seen);
            var rest := Unwind(stack, leaf, below.seen);
            Unwind(stack + Reversed(nodes, depth, parentId), leaf, seen) == Visit(below.rows + rest.rows, rest.seen)
    decreases |nodes|
  {
    var pushed := stack + Reversed(nodes, depth, parentId);
    if nodes == [] {
      assert pushed == stack;
    } else {
      var first := Preorder(nodes[0], depth, parentId, leaf, seen);
      UnwindPushed(stack, nodes[1..], depth, parentId, leaf, first.seen);
      assert pushed[|pushed| - 1] == Pending(nodes[0], depth, parentId);
      assert pushed[..|pushed| - 1] == stack + Reversed(nodes[1..], depth, parentId);
      var rest := PreorderAll(nodes[1..], depth, parentId, leaf, first.seen);
      var last := Unwind(stack, leaf, rest.seen);
      assert first.rows + (rest.rows + last.rows) == (first.rows + rest.rows) + last.rows;
    }
  }

  predicate Skipped(node: Node, seen: set<string>) {
    node.id.None? || node.id.value in seen
  }

  function Expand(stack: seq<Pending>): seq<Pending>
    requires stack != []
  {
    var top := stack[|stack| - 1];
    stack[..|stack| - 1] + Reversed(top.node.children, top.depth + 1, top.node.id)
  }

  lemma PopSkipped(stack: seq<Pending>, leaf: Option<string>, seen: set<string>)
    requires stack != [] && Skipped(stack[|stack| - 1].node, seen)
    ensures Unwind(stack[..|stack| - 1], leaf, seen).rows == Unwind(stack, leaf, seen).rows
    ensures StackSize(stack[..|stack| - 1]) < StackSize(stack)
  {
  }

  lemma UnwindTop(stack: seq<Pending>, leaf: Option<string>, seen: set<string>)
    requires stack != []
    ensures var n := |stack| - 1;
            var top := Preorder(stack[n].node, stack[n].depth, stack[n].parentId, leaf, seen);
            Unwind(stack, leaf, seen).rows == top.rows + Unwind(stack[..n], leaf, top.seen).rows
    ensures StackSize(stack) == StackSize(stack[..|stack| - 1]) + 1 + SizeAll(stack[|stack| - 1].node.children)
  {}

  // A visited node turns into its row, and its children take its place.
  lemma PopVisited(rows: seq<Row>, stack: seq<Pending>, leaf: Option<string>, seen: set<string>)
    requires stack != [] && !Skipped(stack[|stack| - 1].node, seen)
    ensures var top := stack[|stack| - 1];
            rows + Unwind(stack, leaf, seen).rows ==
            (rows + [RowOf(top, leaf)]) + Unwind(Expand(stack), leaf, seen + {top.node.id.value}).rows
    ensures StackSize(Expand(stack)) < StackSize(stack)
  {
    var top, rest := stack[|stack| - 1], stack[..|stack| - 1];
    var now, row := seen + {top.node.id.value}, [RowOf(top, leaf)];
    UnwindTop(stack, leaf, seen);
    UnwindPushed(rest, top.node.children, top.depth + 1, top.node.id, leaf, now);
    SizePushed(rest, top.node.children, top.depth + 1, top.node.id);
    var below := PreorderAll(top.node.children, top.depth + 1, top.node.id, leaf, now);
    var later := Unwind(rest, leaf, below.seen).rows;
    RegroupRows(rows, row, below.rows, later);
  }

  lemma RegroupRows(a: seq<Row>, b: seq<Row>, c: seq<Row>, d: seq<Row>)
    ensures a + ((b + c) + d) == (a + b) + (c + d)
  {}

  lemma UnwindOne(p: Pending, leaf: Option<string>, seen: set<string>)
    ensures Unwind([p], leaf, seen).rows == Preorder(p.node, p.depth, p.parentId, leaf, seen).rows
  {
    var v := Preorder(p.node, p.depth, p.parentId, leaf, seen);
    assert [p][..0] == [];
    assert Unwind([], leaf, v.seen).rows == [];
  }

  // The loop yields recursive preorder. It ends because every step takes a node off the
  // stack and pushes only nodes below it.
  method FlattenTreeNode(root: Node, depth: nat, parentId: Option<string>, leaf: Option<string>) returns (rows: seq<Row>)
    ensures rows == Preorder(root, depth, parentId, leaf, {}).rows
  {
    var stack := [Pending(root, depth, parentId)];
    var visiting: set<string> := {};
    rows := [];
    ghost var all := Unwind(stack, leaf, {}).rows;
    UnwindOne(stack[0], leaf, {});
    while stack != []
      invariant rows + Unwind(stack, leaf, visiting).rows == all
      decreases StackSize(stack)
    {
      var top := stack[|stack| - 1];
      if Skipped(top.node, visiting) {
        PopSkipped(stack, leaf, visiting);
        stack := stack[..|stack| - 1];
        continue;
      }
      PopVisited(rows, stack, leaf, visiting);
      visiting := visiting + {top.node.id.value};
      stack := Expand(stack);
      rows := rows + [RowOf(top, leaf)];
    }
  }

  ghost function Forest(roots: seq<Node>, leaf: Option<string>): seq<Row> {
    if roots == [] then []
    else Forest(roots[..|roots| - 1], leaf) + Preorder(roots[|roots| - 1], 0, None, leaf, {}).rows
  }

  function AsLog(rows: seq<Row>): (log: seq<LogEntry>)
    ensures |log| == |rows|
    ensures forall i :: 0 <= i < |rows| ==> log[i].id == rows[i].id && log[i].parent == rows[i].parentId
  {
    seq(|rows|, i requires 0 <= i < |rows| => LogEntry(rows[i].id, rows[i].parentId, rows[i].isCurrent))
  }

  // All roots in turn, each with its own set of visited ids; then the first row of every
  // id on the branch of the leaf is marked.
  method ParseSessionTree(roots: seq<Node>, leaf: Option<string>) returns (rows: seq<Row>)
    ensures |rows| == |Forest(roots, leaf)|
    ensures forall k :: 0 <= k < |rows| ==>
                          rows[k] == Forest(roots, leaf)[k].(onActivePath := rows[k].onActivePath)
    ensures forall k :: 0 <= k < |rows| ==>
                          (rows[k].onActivePath <==>
                           && leaf.Some?
                           && rows[k].id in Branch(LastLinks(AsLog(Forest(roots, leaf))), leaf.value)
                           && FirstRow(AsLog(Forest(roots, leaf)), rows[k].id) == k)
  {
    rows := [];
    for k := 0 to |roots|
      invariant rows == Forest(roots[..k], leaf)
    {
      assert roots[..k + 1][..k] == roots[..k];
      var more := FlattenTreeNode(roots[k], 0, None, leaf);
      rows := rows + more;
    }
    assert roots[..|roots|] == roots;
    ForestUnmarked(roots, leaf);
    if leaf.Some? {
      var marked := MarkActivePath(AsLog(rows), leaf.value);
      var flat := rows;
      rows := seq(|flat|, k requires 0 <= k < |flat| => flat[k].(onActivePath := marked[k]));
    }
  }

  lemma {:induction false} AllUnmarked(node: Node, depth: nat, parentId: Option<string>, leaf: Option<string>, seen: set<string>)
    ensures forall r :: r in Preorder(node, depth, parentId, leaf, seen).rows ==> !r.onActivePath
    decreases node, 1
  {
    if node.id.Some? && node.id.value !in seen {
      AllUnmarkedIn(node.children, depth + 1, node.id, leaf, seen + {node.id.value});
    }
  }

  lemma {:induction false} AllUnmarkedIn(nodes: seq<Node>, depth: nat, parentId: Option<string>, leaf: Option<string>, seen: set<string>)
    ensures forall r :: r in PreorderAll(nodes, depth, parentId, leaf, seen).rows ==> !r.onActivePath
    decreases nodes, 0
  {
    if nodes != [] {
      AllUnmarked(nodes[0], depth, parentId, leaf, seen);
      AllUnmarkedIn(nodes[1..], depth, parentId, leaf, Preorder(nodes[0], depth, parentId, leaf, seen).seen);
    }
  }

  lemma {:induction false} ForestUnmarked(roots: seq<Node>, leaf: Option<string>)
    ensures forall r :: r in Forest(roots, leaf) ==> !r.onActivePath
  {
    if roots != [] {
      ForestUnmarked(roots[..|roots| - 1], leaf);
      AllUnmarked(roots[|roots| - 1], 0, None, leaf, {});
    }
  }
}
