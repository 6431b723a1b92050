// The knowledge base's tree: walks up the parent column, descendants, the forest invariant,
// and the loops of the service that walk the table.

module KnowledgeTree {
  import opened Results

  type NodeId = nat
  type FileId = nat

  datatype Kind = Section | Page

  // A block of a page; only image and file blocks refer to a file.
  datatype Block = Block(embeds: bool, file: Option<FileId>)

  datatype Node = Node(
    parent: Option<NodeId>,
    position: int,
    kind: Kind,
    title: string,
    content: Option<seq<Block>>,
    allMembers: bool)

  type Nodes = map<NodeId, Node>

  // ----- Walking up ----------------------------------------------------------------------

  // One step up; there is nothing above an unknown identifier.
  function Above(nodes: Nodes, x: Option<NodeId>): Option<NodeId> {
    if x.Some? && x.value in nodes then nodes[x.value].parent else None
  }

  function Up(nodes: Nodes, x: Option<NodeId>, k: nat): Option<NodeId> {
    if k == 0 then x else Above(nodes, Up(nodes, x, k - 1))
  }

  // `a` is `x` itself or one of its ancestors, `k` steps up.
  predicate Reaches(nodes: Nodes, x: NodeId, k: nat, a: NodeId) {
    Up(nodes, Some(x), k) == Some(a)
  }

  ghost predicate IsAncestorOrSelf(nodes: Nodes, a: NodeId, x: NodeId) {
    exists k: nat :: Reaches(nodes, x, k, a)
  }

  // The walk up from `x` comes to an end.
  ghost predicate Rooted(nodes: Nodes, x: Option<NodeId>) {
    exists k: nat :: Up(nodes, x, k) == None
  }

  predicate NoDangling(nodes: Nodes) {
    forall x :: x in nodes ==> nodes[x].parent.Some? ==> nodes[x].parent.value in nodes
  }

  ghost predicate Forest(nodes: Nodes) {
    NoDangling(nodes) && forall x :: x in nodes ==> Rooted(nodes, Some(x))
  }

  // The node and everything below it.
  ghost function Subtree(nodes: Nodes, root: NodeId): set<NodeId> {
    set x | x in nodes && IsAncestorOrSelf(nodes, root, x)
  }

  lemma {:induction false} UpAdd(nodes: Nodes, x: Option<NodeId>, j: nat, k: nat)
    ensures Up(nodes, Up(nodes, x, j), k) == Up(nodes, x, j + k)
  {
    if k > 0 {
      UpAdd(nodes, x, j, k - 1);
    }
  }

  lemma {:induction false} UpOfNone(nodes: Nodes, k: nat)
    ensures Up(nodes, None, k) == None
  {
    if k > 0 {
      UpOfNone(nodes, k - 1);
    }
  }

  lemma {:induction false} NoneAbove(nodes: Nodes, x: Option<NodeId>, j: nat, k: nat)
    requires Up(nodes, x, j) == None && j <= k
    ensures Up(nodes, x, k) == None
  {
    UpAdd(nodes, x, j, k - j);
    UpOfNone(nodes, k - j);
  }

  lemma {:induction false} AncestorsCompose(nodes: Nodes, a: NodeId, b: NodeId, x: NodeId)
    requires IsAncestorOrSelf(nodes, a, b) && IsAncestorOrSelf(nodes, b, x)
    ensures IsAncestorOrSelf(nodes, a, x)
  {
    var j: nat :| Reaches(nodes, x, j, b);
    var k: nat :| Reaches(nodes, b, k, a);
    UpAdd(nodes, Some(x), j, k);
    assert Reaches(nodes, x, j + k, a);
  }

  // Once a walk repeats an identifier it repeats for ever.
  lemma {:induction false} WalkRepeats(nodes: Nodes, x: Option<NodeId>, j: nat, k: nat, m: nat)
    requires j < k && Up(nodes, x, j) == Up(nodes, x, k)
    ensures exists i: nat :: i < k && Up(nodes, x, i) == Up(nodes, x, m)
    decreases m
  {
    if m < k {
      assert m < k && Up(nodes, x, m) == Up(nodes, x, m);
    } else {
      UpAdd(nodes, x, k, m - k);
      UpAdd(nodes, x, j, m - k);
      WalkRepeats(nodes, x, j, k, j + (m - k));
    }
  }

  // A node that is its own proper ancestor never gets to a root.
  lemma {:induction false} CycleIsNotRooted(nodes: Nodes, x: NodeId, k: nat)
    requires 0 < k && Reaches(nodes, x, k, x)
    ensures !Rooted(nodes, Some(x))
  {
    forall m: nat ensures Up(nodes, Some(x), m) != None {
      WalkRepeats(nodes, Some(x), 0, k, m);
      var i: nat :| i < k && Up(nodes, Some(x), i) == Up(nodes, Some(x), m);
      if Up(nodes, Some(x), i) == None {
        NoneAbove(nodes, Some(x), i, k);
      }
    }
  }

  // In a forest two nodes are never below each other.
  lemma {:induction false} ForestIsAntisymmetric(nodes: Nodes, a: NodeId, b: NodeId)
    requires Forest(nodes) && a in nodes && IsAncestorOrSelf(nodes, a, b) && IsAncestorOrSelf(nodes, b, a)
    ensures a == b
  {
    if a != b {
      var j: nat :| Reaches(nodes, b, j, a);
      var k: nat :| Reaches(nodes, a, k, b);
      UpAdd(nodes, Some(a), k, j);
      assert k > 0;
      CycleIsNotRooted(nodes, a, k + j);
    }
  }

  // A walk without a repetition uses up the table.
  lemma {:induction false} WalkEnds(nodes: Nodes, x: NodeId, k: nat, seen: set<NodeId>)
    requires NoDangling(nodes) && x in nodes && seen <= nodes.Keys
    requires forall a :: a in seen <==> exists i: nat :: i < k && Reaches(nodes, x, i, a)
    requires forall y, j: nat :: y in nodes && 0 < j ==> !Reaches(nodes, y, j, y)
    ensures Rooted(nodes, Some(x))
    decreases nodes.Keys - seen
  {
    var c := Up(nodes, Some(x), k);
    if c.Some? {
      StaysKnown(nodes, x, k);
      if c.value in seen {
        var i: nat :| i < k && Reaches(nodes, x, i, c.value);
        UpAdd(nodes, Some(x), i, k - i);
        assert Reaches(nodes, c.value, k - i, c.value);
      } else {
        forall a ensures a in seen + {c.value} <==> exists i: nat :: i < k + 1 && Reaches(nodes, x, i, a) {
          if a in seen {
            var i: nat :| i < k && Reaches(nodes, x, i, a);
            assert i < k + 1;
          }
          assert Reaches(nodes, x, k, c.value);
        }
        WalkEnds(nodes, x, k + 1, seen + {c.value});
      }
    }
  }

  // A table without dangling parents is a forest exactly if no node is its own ancestor.
  lemma {:induction false} ForestIsAcyclic(nodes: Nodes)
    requires NoDangling(nodes)
    ensures Forest(nodes) <==> forall x, k: nat :: x in nodes && 0 < k ==> !Reaches(nodes, x, k, x)
  {
    if Forest(nodes) {
      forall x, k: nat | x in nodes && 0 < k ensures !Reaches(nodes, x, k, x) {
        if Reaches(nodes, x, k, x) {
          CycleIsNotRooted(nodes, x, k);
        }
      }
    }
    if forall x, k: nat :: x in nodes && 0 < k ==> !Reaches(nodes, x, k, x) {
      forall x | x in nodes ensures Rooted(nodes, Some(x)) {
        WalkEnds(nodes, x, 0, {});
      }
    }
  }

  // ----- _ancestor_ids -------------------------------------------------------------------

  // Exact for any table, even one with a cycle: the identifiers of the table on the walk up.
  method AncestorIds(nodes: Nodes, start: NodeId) returns (ids: set<NodeId>)
    ensures forall a :: a in ids <==> a in nodes && IsAncestorOrSelf(nodes, a, start)
  {
    ids := {};
    var cursor := Some(start);
    ghost var k := 0;
    while cursor.Some? && cursor.value !in ids
      invariant cursor == Up(nodes, Some(start), k)
      invariant forall a :: a in ids <==> a in nodes && exists i: nat :: i < k && Reaches(nodes, start, i, a)
      invariant ids <= nodes.Keys
      decreases nodes.Keys - ids
    {
      if cursor.value !in nodes {
        break;
      }
      assert Reaches(nodes, start, k, cursor.value);
      ids := ids + {cursor.value};
      cursor := nodes[cursor.value].parent;
      k := k + 1;
    }
    forall a ensures a in ids <==> a in nodes && IsAncestorOrSelf(nodes, a, start) {
      if a in nodes && IsAncestorOrSelf(nodes, a, start) {
        var m: nat :| Reaches(nodes, start, m, a);
        WalkEnded(nodes, start, k, ids, m, a);
      }
    }
  }

  lemma {:induction false} WalkEnded(nodes: Nodes, start: NodeId, k: nat, ids: set<NodeId>, m: nat, a: NodeId)
    requires forall b :: b in ids <==> b in nodes && exists i: nat :: i < k && Reaches(nodes, start, i, b)
    requires var c := Up(nodes, Some(start), k); c.None? || c.value !in nodes || c.value in ids
    requires a in nodes && Reaches(nodes, start, m, a)
    ensures a in ids
  {
    var c := Up(nodes, Some(start), k);
    if m < k {
      assert Reaches(nodes, start, m, a);
    } else if c.None? {
      NoneAbove(nodes, Some(start), k, m);
    } else if c.value !in nodes {
      if m > k {
        assert Up(nodes, Some(start), k + 1) == None;
        NoneAbove(nodes, Some(start), k + 1, m);
      }
    } else {
      var j: nat :| j < k && Reaches(nodes, start, j, c.value);
      WalkRepeats(nodes, Some(start), j, k, m);
      var i: nat :| i < k && Up(nodes, Some(start), i) == Up(nodes, Some(start), m);
      assert Reaches(nodes, start, i, a);
    }
  }

  // ----- _path_ids -----------------------------------------------------------------------

  // The path from a node up, nearest first, without repetition.
  ghost predicate IsPath(nodes: Nodes, start: NodeId, path: seq<NodeId>) {
    && (forall i :: 0 <= i < |path| ==> path[i] in nodes && Reaches(nodes, start, i, path[i]))
    && (forall i, j :: 0 <= i < j < |path| ==> path[i] != path[j])
    && (forall a :: a in nodes && IsAncestorOrSelf(nodes, a, start) ==> a in path)
  }

  method PathIds(nodes: Nodes, node: NodeId) returns (path: seq<NodeId>)
    ensures IsPath(nodes, node, path)
  {
    path := [];
    var seen := {};
    var cursor := Some(node);
    while cursor.Some? && cursor.value in nodes && cursor.value !in seen
      invariant cursor == Up(nodes, Some(node), |path|)
      invariant forall i :: 0 <= i < |path| ==> path[i] in nodes && Reaches(nodes, node, i, path[i])
      invariant forall i, j :: 0 <= i < j < |path| ==> path[i] != path[j]
      invariant forall a :: a in seen <==> a in path
      invariant seen <= nodes.Keys
      decreases nodes.Keys - seen
    {
      seen := seen + {cursor.value};
      path := path + [cursor.value];
      cursor := nodes[cursor.value].parent;
    }
    forall a ensures a in seen <==> a in nodes && exists i: nat :: i < |path| && Reaches(nodes, node, i, a) {
      if a in seen {
        var i :| 0 <= i < |path| && path[i] == a;
        assert Reaches(nodes, node, i, a);
      }
      if i: nat :| i < |path| && Reaches(nodes, node, i, a) {
        assert path[i] == a;
      }
    }
    forall a | a in nodes && IsAncestorOrSelf(nodes, a, node) ensures a in path {
      var m: nat :| Reaches(nodes, node, m, a);
      WalkEnded(nodes, node, |path|, seen, m, a);
    }
  }

  // ----- _build_breadcrumbs --------------------------------------------------------------

  function Reversed<T>(s: seq<T>): (r: seq<T>)
    ensures |r| == |s| && forall i :: 0 <= i < |s| ==> r[i] == s[|s| - 1 - i]
  {
    if s == [] then [] else Reversed(s[1..]) + [s[0]]
  }

  // A path from a root down to a node: every identifier is the parent of the next.
  predicate IsTrail(nodes: Nodes, trail: seq<(NodeId, string)>, node: NodeId) {
    && trail != []
    && (forall i :: 0 <= i < |trail| ==> trail[i].0 in nodes && trail[i].1 == nodes[trail[i].0].title)
    && nodes[trail[0].0].parent == None
    && (forall i :: 0 < i < |trail| ==> nodes[trail[i].0].parent == Some(trail[i - 1].0))
    && trail[|trail| - 1].0 == node
  }

  // The chain climbed so far, from the node upwards.
  predicate Climbs(nodes: Nodes, chain: seq<(NodeId, string)>, node: NodeId) {
    && (forall i :: 0 <= i < |chain| ==> chain[i].0 in nodes && chain[i].1 == nodes[chain[i].0].title)
    && (forall i :: 0 < i < |chain| ==> nodes[chain[i - 1].0].parent == Some(chain[i].0))
    && (chain != [] ==> chain[0].0 == node)
  }

  // The next identifier to visit.
  function Next(nodes: Nodes, chain: seq<(NodeId, string)>, node: NodeId): Option<NodeId> {
    if chain == [] then Some(node) else Above(nodes, Some(chain[|chain| - 1].0))
  }

  lemma {:induction false} ClimbedIsTrail(nodes: Nodes, chain: seq<(NodeId, string)>, node: NodeId)
    requires Climbs(nodes, chain, node) && Next(nodes, chain, node) == None
    ensures IsTrail(nodes, Reversed(chain), node)
  {
    var trail := Reversed(chain);
    forall i | 0 < i < |trail| ensures nodes[trail[i].0].parent == Some(trail[i - 1].0) {
      assert trail[i] == chain[|chain| - 1 - i] && trail[i - 1] == chain[|chain| - i];
    }
  }

  lemma {:induction false} ClimbOn(nodes: Nodes, chain: seq<(NodeId, string)>, node: NodeId, at: NodeId)
    requires Climbs(nodes, chain, node) && Next(nodes, chain, node) == Some(at) && at in nodes
    ensures Climbs(nodes, chain + [(at, nodes[at].title)], node)
    ensures Next(nodes, chain + [(at, nodes[at].title)], node) == nodes[at].parent
  {}

  // The loop has no guard against a cycle; it ends because the table is a forest.
  method BuildBreadcrumbs(nodes: Nodes, node: NodeId) returns (trail: seq<(NodeId, string)>)
    requires Forest(nodes) && node in nodes
    ensures IsTrail(nodes, trail, node)
  {
    var chain: seq<(NodeId, string)> := [];
    var cursor := Some(node);
    ghost var steps: nat :| Up(nodes, Some(node), steps) == None;
    while cursor.Some? && cursor.value in nodes
      invariant |chain| <= steps && cursor == Up(nodes, Some(node), |chain|)
      invariant Climbs(nodes, chain, node) && cursor == Next(nodes, chain, node)
      decreases steps - |chain|
    {
      ClimbOn(nodes, chain, node, cursor.value);
      chain := chain + [(cursor.value, nodes[cursor.value].title)];
      cursor := nodes[cursor.value].parent;
    }
    StaysKnown(nodes, node, |chain|);
    ClimbedIsTrail(nodes, chain, node);
    trail := Reversed(chain);
  }

  // ----- _collect_subtree_ids ------------------------------------------------------------

  predicate IsChild(nodes: Nodes, child: NodeId, parent: NodeId) {
    child in nodes && nodes[child].parent == Some(parent)
  }

  type Children = map<Option<NodeId>, seq<NodeId>>

  function ChildrenOf(children: Children, parent: Option<NodeId>): seq<NodeId> {
    if parent in children then children[parent] else []
  }

  // The children of one parent among the listed rows, in their order.
  function Listed(nodes: Nodes, rows: seq<NodeId>, parent: Option<NodeId>): (r: seq<NodeId>)
    requires forall i :: 0 <= i < |rows| ==> rows[i] in nodes
    ensures forall x :: x in r <==> x in rows && nodes[x].parent == parent
  {
    if rows == [] then []
    else
      var last := rows[|rows| - 1];
      assert rows == rows[..|rows| - 1] + [last];
      Listed(nodes, rows[..|rows| - 1], parent) + if nodes[last].parent == parent then [last] else []
  }

  predicate IsListing(nodes: Nodes, rows: seq<NodeId>) {
    (forall i :: 0 <= i < |rows| ==> rows[i] in nodes) && forall x :: x in nodes ==> x in rows
  }

  ghost predicate AreChildren(nodes: Nodes, children: Children) {
    forall p, x :: x in ChildrenOf(children, p) <==> x in nodes && nodes[x].parent == p
  }

  method BuildChildren(nodes: Nodes, rows: seq<NodeId>) returns (children: Children)
    requires IsListing(nodes, rows)
    ensures forall p :: ChildrenOf(children, p) == Listed(nodes, rows, p)
    ensures AreChildren(nodes, children)
  {
    children := map[];
    for i := 0 to |rows|
      invariant forall p :: ChildrenOf(children, p) == Listed(nodes, rows[..i], p)
    {
      assert rows[..i + 1][..i] == rows[..i];
      var p := nodes[rows[i]].parent;
      children := children[p := ChildrenOf(children, p) + [rows[i]]];
    }
    assert rows[..|rows|] == rows;
  }

  lemma {:induction false} ChildIsBelow(nodes: Nodes, root: NodeId, parent: NodeId, child: NodeId)
    requires IsAncestorOrSelf(nodes, root, parent) && IsChild(nodes, child, parent)
    ensures IsAncestorOrSelf(nodes, root, child)
  {
    assert Up(nodes, Some(child), 0) == Some(child);
    assert Reaches(nodes, child, 1, parent);
    AncestorsCompose(nodes, root, parent, child);
  }

  // A set with the root that is closed under children holds everything below the root.
  lemma {:induction false} ClosedHoldsSubtree(nodes: Nodes, root: NodeId, s: set<NodeId>, x: NodeId, k: nat)
    requires root in s && forall c, p :: p in s && IsChild(nodes, c, p) ==> c in s
    requires x in nodes && Reaches(nodes, x, k, root)
    ensures x in s
    decreases k
  {
    if k > 0 {
      UpAdd(nodes, Some(x), 1, k - 1);
      assert Up(nodes, Some(x), 0) == Some(x);
      var p := nodes[x].parent;
      assert Up(nodes, Some(x), 1) == p;
      if p == None {
        UpOfNone(nodes, k - 1);
      } else if p.value in nodes {
        ClosedHoldsSubtree(nodes, root, s, p.value, k - 1);
        assert IsChild(nodes, x, p.value);
      } else {
        UnknownStops(nodes, p.value, k - 1, root);
        assert IsChild(nodes, x, root);
      }
    }
  }

  lemma {:induction false} UnknownStops(nodes: Nodes, x: NodeId, k: nat, a: NodeId)
    requires x !in nodes && Reaches(nodes, x, k, a)
    ensures a == x
  {
    if k > 0 {
      assert Up(nodes, Some(x), 0) == Some(x);
      assert Up(nodes, Some(x), 1) == None;
      NoneAbove(nodes, Some(x), 1, k);
    }
  }

  // The worklist: everything found or pending is the root or below it, and the children of
  // what was found are found or pending.
  ghost predicate Exploring(nodes: Nodes, root: NodeId, found: set<NodeId>, pending: seq<NodeId>) {
    && found <= Subtree(nodes, root) + {root}
    && (forall x :: x in pending ==> x in Subtree(nodes, root) + {root})
    && (root in found || root in pending)
    && (forall c, p :: p in found && IsChild(nodes, c, p) ==> c in found || c in pending)
  }

  lemma {:induction false} Explore(nodes: Nodes, root: NodeId, found: set<NodeId>, rest: seq<NodeId>, current: NodeId,
      below: seq<NodeId>)
    requires Exploring(nodes, root, found, rest + [current])
    requires forall c :: c in below <==> IsChild(nodes, c, current)
    ensures current in found ==> Exploring(nodes, root, found, rest)
    ensures Exploring(nodes, root, found + {current}, rest + below)
  {
    assert current in rest + [current];
    assert Reaches(nodes, root, 0, root);
    forall c | c in below ensures c in Subtree(nodes, root) {
      ChildIsBelow(nodes, root, current, c);
    }
  }

  // Exactly the node and its descendants, for any table.
  method CollectSubtreeIds(nodes: Nodes, rows: seq<NodeId>, root: NodeId) returns (subtree: set<NodeId>)
    requires IsListing(nodes, rows)
    ensures subtree == Subtree(nodes, root) + {root}
  {
    var children := BuildChildren(nodes, rows);
    subtree := {};
    var stack := [root];
    while stack != []
      invariant Exploring(nodes, root, subtree, stack)
      decreases Subtree(nodes, root) + {root} - subtree, |stack|
    {
      var current := stack[|stack| - 1];
      var below := ChildrenOf(children, Some(current));
      assert current in stack;
      assert stack == stack[..|stack| - 1] + [current];
      Explore(nodes, root, subtree, stack[..|stack| - 1], current, below);
      stack := stack[..|stack| - 1];
      if current in subtree {
        continue;
      }
      subtree := subtree + {current};
      stack := stack + below;
    }
    forall x | x in Subtree(nodes, root) ensures x in subtree {
      var k: nat :| Reaches(nodes, x, k, root);
      ClosedHoldsSubtree(nodes, root, subtree, x, k);
    }
  }

  // ----- Moving a node -------------------------------------------------------------------

  // The walk is the same in two tables that agree on what it passes.
  lemma {:induction false} SameWalk(nodes: Nodes, nodes': Nodes, x: Option<NodeId>, k: nat)
    requires forall i: nat :: i < k ==> Above(nodes, Up(nodes, x, i)) == Above(nodes', Up(nodes, x, i))
    ensures forall i: nat :: i <= k ==> Up(nodes, x, i) == Up(nodes', x, i)
  {
    if k > 0 {
      SameWalk(nodes, nodes', x, k - 1);
      assert Up(nodes, x, k) == Above(nodes, Up(nodes, x, k - 1));
      assert Up(nodes', x, k) == Above(nodes', Up(nodes', x, k - 1));
    }
  }

  function Moved(nodes: Nodes, node: NodeId, parent: Option<NodeId>, position: int): Nodes
    requires node in nodes
  {
    nodes[node := nodes[node].(parent := parent, position := position)]
  }

  // A walk that never passes the moved node is unchanged.
  lemma {:induction false} WalkPast(nodes: Nodes, node: NodeId, parent: Option<NodeId>, position: int,
      x: Option<NodeId>, k: nat)
    requires node in nodes && forall i: nat :: i < k ==> Up(nodes, x, i) != Some(node)
    ensures Up(Moved(nodes, node, parent, position), x, k) == Up(nodes, x, k)
  {
    SameWalk(nodes, Moved(nodes, node, parent, position), x, k);
  }

  // What the service checks before a move.
  ghost predicate MoveAllowed(nodes: Nodes, node: NodeId, parent: Option<NodeId>) {
    parent.Some? ==> parent.value in nodes && !IsAncestorOrSelf(nodes, node, parent.value)
  }

  lemma {:induction false} NotPassed(nodes: Nodes, a: NodeId, x: NodeId, i: nat)
    requires !IsAncestorOrSelf(nodes, a, x)
    ensures Up(nodes, Some(x), i) != Some(a)
  {
    assert !Reaches(nodes, x, i, a);
  }

  lemma {:induction false} MovedIsRooted(nodes: Nodes, node: NodeId, parent: Option<NodeId>, position: int)
    requires Forest(nodes) && node in nodes && MoveAllowed(nodes, node, parent)
    ensures Rooted(Moved(nodes, node, parent, position), Some(node))
  {
    var after := Moved(nodes, node, parent, position);
    assert Up(after, Some(node), 0) == Some(node);
    assert Up(after, Some(node), 1) == parent;
    if parent.Some? {
      var k: nat :| Up(nodes, parent, k) == None;
      forall i: nat | i < k ensures Up(nodes, parent, i) != Some(node) {
        NotPassed(nodes, node, parent.value, i);
      }
      WalkPast(nodes, node, parent, position, parent, k);
      UpAdd(after, Some(node), 1, k);
    }
  }

  // A walk of the old table ends in the new one too: either it never passes the moved node,
  // or from there on it is the moved node's walk.
  lemma {:induction false} StaysRooted(nodes: Nodes, node: NodeId, parent: Option<NodeId>, position: int,
      x: Option<NodeId>, k: nat)
    requires node in nodes && Rooted(Moved(nodes, node, parent, position), Some(node))
    requires Up(nodes, x, k) == None
    ensures Rooted(Moved(nodes, node, parent, position), x)
    decreases k
  {
    var after := Moved(nodes, node, parent, position);
    if x == Some(node) {
    } else if k == 0 {
      assert Up(after, x, 0) == None;
    } else {
      var y := Above(nodes, x);
      assert Up(nodes, x, 0) == x && Up(after, x, 0) == x;
      assert Up(nodes, x, 1) == y && Up(after, x, 1) == y;
      UpAdd(nodes, x, 1, k - 1);
      StaysRooted(nodes, node, parent, position, y, k - 1);
      var m: nat :| Up(after, y, m) == None;
      UpAdd(after, x, 1, m);
    }
  }

  // The check rejects exactly the moves that would leave a dangling parent or close a cycle.
  lemma {:induction false} MoveKeepsForestExactly(nodes: Nodes, node: NodeId, parent: Option<NodeId>, position: int)
    requires Forest(nodes) && node in nodes
    ensures Forest(Moved(nodes, node, parent, position)) <==> MoveAllowed(nodes, node, parent)
  {
    var after := Moved(nodes, node, parent, position);
    if MoveAllowed(nodes, node, parent) {
      MovedIsRooted(nodes, node, parent, position);
      forall x | x in after ensures Rooted(after, Some(x)) {
        var k: nat :| Up(nodes, Some(x), k) == None;
        StaysRooted(nodes, node, parent, position, Some(x), k);
      }
    } else if Forest(after) {
      ClosesCycle(nodes, node, parent, position);
    }
  }

  lemma {:induction false} ClosesCycle(nodes: Nodes, node: NodeId, parent: Option<NodeId>, position: int)
    requires node in nodes && !MoveAllowed(nodes, node, parent)
    ensures !Forest(Moved(nodes, node, parent, position))
  {
    var after := Moved(nodes, node, parent, position);
    assert node in after && after[node].parent == parent;
    if parent.value in nodes {
      var k: nat :| Reaches(nodes, parent.value, k, node);
      var j := FirstVisit(nodes, parent, k, node);
      WalkPast(nodes, node, parent, position, parent, j);
      assert Up(after, Some(node), 0) == Some(node);
      assert Up(after, Some(node), 1) == parent;
      UpAdd(after, Some(node), 1, j);
      assert Reaches(after, node, 1 + j, node);
      CycleIsNotRooted(after, node, 1 + j);
    }
  }

  lemma {:induction false} FirstVisit(nodes: Nodes, x: Option<NodeId>, k: nat, a: NodeId) returns (j: nat)
    requires Up(nodes, x, k) == Some(a)
    ensures Up(nodes, x, j) == Some(a) && forall i: nat :: i < j ==> Up(nodes, x, i) != Some(a)
  {
    j := 0;
    while Up(nodes, x, j) != Some(a)
      invariant j <= k && forall i: nat :: i < j ==> Up(nodes, x, i) != Some(a)
      decreases k - j
    {
      j := j + 1;
    }
  }

  // ----- Creating and deleting -----------------------------------------------------------

  lemma {:induction false} CreateKeepsForest(nodes: Nodes, id: NodeId, node: Node)
    requires Forest(nodes) && id !in nodes && (node.parent.Some? ==> node.parent.value in nodes)
    ensures Forest(nodes[id := node])
  {
    var after := nodes[id := node];
    forall x | x in nodes ensures Rooted(after, Some(x)) {
      KnownWalk(nodes, after, x);
    }
    assert Up(after, Some(id), 0) == Some(id);
    assert Up(after, Some(id), 1) == node.parent;
    if node.parent.Some? {
      var k: nat :| Up(after, node.parent, k) == None;
      UpAdd(after, Some(id), 1, k);
    }
  }

  // A walk that starts in a table without dangling parents stays in it.
  lemma {:induction false} StaysKnown(nodes: Nodes, x: NodeId, k: nat)
    requires NoDangling(nodes) && x in nodes
    ensures Up(nodes, Some(x), k).Some? ==> Up(nodes, Some(x), k).value in nodes
  {
    if k > 0 {
      StaysKnown(nodes, x, k - 1);
    }
  }

  lemma {:induction false} KnownWalk(nodes: Nodes, after: Nodes, x: NodeId)
    requires Forest(nodes) && x in nodes && forall y :: y in nodes ==> y in after && after[y].parent == nodes[y].parent
    ensures Rooted(after, Some(x))
  {
    var k: nat :| Up(nodes, Some(x), k) == None;
    forall i: nat | i < k ensures Above(nodes, Up(nodes, Some(x), i)) == Above(after, Up(nodes, Some(x), i)) {
      StaysKnown(nodes, x, i);
    }
    SameWalk(nodes, after, Some(x), k);
  }

  // Deleting the node cascades to everything below it.
  ghost function Without(nodes: Nodes, root: NodeId): Nodes {
    nodes - (Subtree(nodes, root) + {root})
  }

  lemma {:induction false} DeleteKeepsForest(nodes: Nodes, root: NodeId)
    requires Forest(nodes)
    ensures Forest(Without(nodes, root))
  {
    var after := Without(nodes, root);
    forall x | x in after && nodes[x].parent.Some? ensures nodes[x].parent.value in after {
      var p := nodes[x].parent.value;
      if p in Subtree(nodes, root) || p == root {
        assert Reaches(nodes, root, 0, root);
        ChildIsBelow(nodes, root, p, x);
      }
    }
    forall x | x in after ensures Rooted(after, Some(x)) {
      var k: nat :| Up(nodes, Some(x), k) == None;
      forall i: nat | i < k ensures Above(nodes, Up(nodes, Some(x), i)) == Above(after, Up(nodes, Some(x), i)) {
        OutsideStaysOutside(nodes, root, x, i);
      }
      SameWalk(nodes, after, Some(x), k);
    }
  }

  lemma {:induction false} OutsideStaysOutside(nodes: Nodes, root: NodeId, x: NodeId, i: nat)
    requires NoDangling(nodes) && x in Without(nodes, root)
    ensures Up(nodes, Some(x), i).Some? ==> Up(nodes, Some(x), i).value in Without(nodes, root)
  {
    var y := Up(nodes, Some(x), i);
    if y.Some? {
      StaysKnown(nodes, x, i);
      assert Reaches(nodes, x, i, y.value);
      if y.value in Subtree(nodes, root) || y.value == root {
        assert Reaches(nodes, root, 0, root);
        AncestorsCompose(nodes, root, y.value, x);
      }
    }
  }
}
