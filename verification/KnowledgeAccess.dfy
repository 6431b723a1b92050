// Who may open which node: the three passes over the path to the root, and the visible part
// of the tree.

module KnowledgeAccess {
  import opened Results
  import opened KnowledgeTree

  type UserId = nat
  type RoleId = nat

  datatype Effect = Allow | Deny

  // The rules of each node, by subject.
  type Rules<!S> = map<NodeId, map<S, Effect>>

  datatype AccessIndex = AccessIndex(nodes: Nodes, memberRules: Rules<UserId>, roleRules: Rules<RoleId>)

  predicate HasRule<S>(rules: Rules<S>, node: NodeId, subject: S) {
    node in rules && subject in rules[node]
  }

  // ----- _resolve_employee ---------------------------------------------------------------

  // The rule of the nearest node of the table, going up from `x`, that has one for the subject.
  ghost predicate IsNearest<S(!new)>(nodes: Nodes, rules: Rules<S>, x: NodeId, subject: S, k: nat, a: NodeId) {
    && Reaches(nodes, x, k, a) && a in nodes && HasRule(rules, a, subject)
    && forall i: nat, b :: i < k && Reaches(nodes, x, i, b) && b in nodes ==> !HasRule(rules, b, subject)
  }

  ghost predicate NoRule<S(!new)>(nodes: Nodes, rules: Rules<S>, x: NodeId, subject: S) {
    forall a :: a in nodes && IsAncestorOrSelf(nodes, a, x) ==> !HasRule(rules, a, subject)
  }

  // The rule that decides in one pass, if any.
  ghost predicate Decides<S(!new)>(nodes: Nodes, rules: Rules<S>, x: NodeId, subject: S, effect: Option<Effect>) {
    match effect
    case None => NoRule(nodes, rules, x, subject)
    case Some(e) => exists k: nat, a :: IsNearest(nodes, rules, x, subject, k, a) && rules[a][subject] == e
  }

  ghost predicate OpenToAll(nodes: Nodes, x: NodeId) {
    exists a :: a in nodes && IsAncestorOrSelf(nodes, a, x) && nodes[a].allMembers
  }

  // One pass over the path: the first node with a rule decides.
  method FirstRule<S(==,!new)>(nodes: Nodes, rules: Rules<S>, x: NodeId, path: seq<NodeId>, subject: S)
      returns (effect: Option<Effect>)
    requires IsPath(nodes, x, path)
    ensures Decides(nodes, rules, x, subject, effect)
  {
    for i := 0 to |path|
      invariant forall j :: 0 <= j < i ==> !HasRule(rules, path[j], subject)
    {
      if HasRule(rules, path[i], subject) {
        effect := Some(rules[path[i]][subject]);
        forall j: nat, b | j < i && Reaches(nodes, x, j, b) && b in nodes ensures !HasRule(rules, b, subject) {
          assert b == path[j];
        }
        assert IsNearest(nodes, rules, x, subject, i, path[i]);
        return;
      }
    }
    effect := None;
    forall a | a in nodes && IsAncestorOrSelf(nodes, a, x) ensures !HasRule(rules, a, subject) {
      assert a in path;
    }
  }

  // What the service promises: the nearest personal rule, else the nearest rule of the
  // member's role, else whether the node or an ancestor is open to all members.
  ghost predicate MayOpen(index: AccessIndex, x: NodeId, user: UserId, role: Option<RoleId>) {
    if !NoRule(index.nodes, index.memberRules, x, user) then
      Decides(index.nodes, index.memberRules, x, user, Some(Allow))
    else if role.Some? && !NoRule(index.nodes, index.roleRules, x, role.value) then
      Decides(index.nodes, index.roleRules, x, role.value, Some(Allow))
    else OpenToAll(index.nodes, x)
  }

  // Only one rule can be the nearest.
  lemma {:induction false} NearestIsUnique<S(!new)>(nodes: Nodes, rules: Rules<S>, x: NodeId, subject: S, k: nat,
      a: NodeId, l: nat, b: NodeId)
    requires IsNearest(nodes, rules, x, subject, k, a) && IsNearest(nodes, rules, x, subject, l, b)
    ensures a == b
  {}

  lemma {:induction false} DecidingRule<S(!new)>(nodes: Nodes, rules: Rules<S>, x: NodeId, subject: S, effect: Effect)
    ensures Decides(nodes, rules, x, subject, Some(effect)) ==> !NoRule(nodes, rules, x, subject)
  {
    if Decides(nodes, rules, x, subject, Some(effect)) {
      var k: nat, a :| IsNearest(nodes, rules, x, subject, k, a) && rules[a][subject] == effect;
      assert IsAncestorOrSelf(nodes, a, x);
    }
  }

  lemma {:induction false} DecidesOnce<S(!new)>(nodes: Nodes, rules: Rules<S>, x: NodeId, subject: S,
      effect: Option<Effect>)
    requires Decides(nodes, rules, x, subject, effect)
    ensures effect.None? <==> NoRule(nodes, rules, x, subject)
    ensures effect == Some(Allow) <==> Decides(nodes, rules, x, subject, Some(Allow))
  {
    DecidingRule(nodes, rules, x, subject, Allow);
    if effect.Some? {
      DecidingRule(nodes, rules, x, subject, effect.value);
      var k: nat, a :| IsNearest(nodes, rules, x, subject, k, a) && rules[a][subject] == effect.value;
      if Decides(nodes, rules, x, subject, Some(Allow)) {
        var l: nat, b :| IsNearest(nodes, rules, x, subject, l, b) && rules[b][subject] == Allow;
        NearestIsUnique(nodes, rules, x, subject, k, a, l, b);
      }
    }
  }

  method ResolveEmployee(index: AccessIndex, node: NodeId, user: UserId, role: Option<RoleId>) returns (allowed: bool)
    ensures allowed <==> MayOpen(index, node, user, role)
  {
    var path := PathIds(index.nodes, node);
    var personal := FirstRule(index.nodes, index.memberRules, node, path, user);
    DecidesOnce(index.nodes, index.memberRules, node, user, personal);
    if personal.Some? {
      return personal.value == Allow;
    }
    if role.Some? {
      var byRole := FirstRule(index.nodes, index.roleRules, node, path, role.value);
      DecidesOnce(index.nodes, index.roleRules, node, role.value, byRole);
      if byRole.Some? {
        return byRole.value == Allow;
      }
    }
    allowed := exists i :: 0 <= i < |path| && index.nodes[path[i]].allMembers;
    if allowed {
      var i :| 0 <= i < |path| && index.nodes[path[i]].allMembers;
      assert IsAncestorOrSelf(index.nodes, path[i], node);
    }
  }

  // ----- _compute_visible ----------------------------------------------------------------

  // There is an open node at `x` or below it.
  ghost predicate LeadsToOpen(nodes: Nodes, directly: set<NodeId>, x: NodeId) {
    exists y :: y in directly && y in Subtree(nodes, x)
  }

  ghost function VisibleBelow(nodes: Nodes, directly: set<NodeId>, root: NodeId): set<NodeId> {
    set x | x in Subtree(nodes, root) && LeadsToOpen(nodes, directly, x)
  }

  lemma {:induction false} SubtreeOfChild(nodes: Nodes, parent: NodeId, child: NodeId)
    requires Forest(nodes) && IsChild(nodes, child, parent) && parent in nodes
    ensures Subtree(nodes, child) < Subtree(nodes, parent)
  {
    assert Reaches(nodes, parent, 0, parent);
    ChildIsBelow(nodes, parent, parent, child);
    forall x | x in Subtree(nodes, child) ensures x in Subtree(nodes, parent) {
      AncestorsCompose(nodes, parent, child, x);
    }
    if parent in Subtree(nodes, child) {
      ForestIsAntisymmetric(nodes, parent, child);
      OwnParent(nodes, parent);
    }
    assert parent in Subtree(nodes, parent);
  }

  lemma {:induction false} OwnParent(nodes: Nodes, x: NodeId)
    requires Forest(nodes) && x in nodes
    ensures nodes[x].parent != Some(x)
  {
    if nodes[x].parent == Some(x) {
      assert Up(nodes, Some(x), 0) == Some(x);
      assert Reaches(nodes, x, 1, x);
      CycleIsNotRooted(nodes, x, 1);
    }
  }

  // A node below `root` is `root` or is below one of its children.
  lemma {:induction false} SubtreeSplits(nodes: Nodes, root: NodeId, x: NodeId) returns (child: NodeId)
    requires NoDangling(nodes) && x in Subtree(nodes, root) && x != root
    ensures IsChild(nodes, child, root) && x in Subtree(nodes, child)
  {
    var k: nat :| Reaches(nodes, x, k, root);
    StaysKnown(nodes, x, k - 1);
    child := Up(nodes, Some(x), k - 1).value;
    assert Reaches(nodes, x, k - 1, child);
  }

  // The visible parts of a list of nodes, and whether there is any.
  ghost function MarkedBelow(nodes: Nodes, directly: set<NodeId>, roots: seq<NodeId>): (r: set<NodeId>)
    ensures forall x :: x in r <==> exists j :: 0 <= j < |roots| && x in VisibleBelow(nodes, directly, roots[j])
  {
    if roots == [] then {}
    else MarkedBelow(nodes, directly, roots[..|roots| - 1]) + VisibleBelow(nodes, directly, roots[|roots| - 1])
  }

  ghost predicate AnyLeads(nodes: Nodes, directly: set<NodeId>, roots: seq<NodeId>)
    ensures AnyLeads(nodes, directly, roots) <==> exists j :: 0 <= j < |roots| && LeadsToOpen(nodes, directly, roots[j])
  {
    roots != [] && (AnyLeads(nodes, directly, roots[..|roots| - 1]) || LeadsToOpen(nodes, directly, roots[|roots| - 1]))
  }

  lemma {:induction false} MarkNext(nodes: Nodes, directly: set<NodeId>, roots: seq<NodeId>, i: nat)
    requires i < |roots|
    ensures MarkedBelow(nodes, directly, roots[..i + 1])
         == MarkedBelow(nodes, directly, roots[..i]) + VisibleBelow(nodes, directly, roots[i])
    ensures AnyLeads(nodes, directly, roots[..i + 1])
       <==> AnyLeads(nodes, directly, roots[..i]) || LeadsToOpen(nodes, directly, roots[i])
  {
    assert roots[..i + 1][..i] == roots[..i];
  }

  ghost predicate ListsChildren(nodes: Nodes, node: NodeId, below: seq<NodeId>) {
    forall x :: x in below <==> IsChild(nodes, x, node)
  }

  // The recursive marking: the node's visible part is added, and the result tells whether
  // there is any.
  method Mark(nodes: Nodes, children: Children, directly: set<NodeId>, node: NodeId, before: set<NodeId>)
      returns (found: bool, visible: set<NodeId>)
    requires Forest(nodes) && node in nodes && AreChildren(nodes, children)
    ensures found <==> LeadsToOpen(nodes, directly, node)
    ensures visible == before + VisibleBelow(nodes, directly, node)
    decreases Subtree(nodes, node), 1
  {
    var below := ChildrenOf(children, Some(node));
    assert ListsChildren(nodes, node, below);
    found, visible := MarkChildren(nodes, children, directly, node, below, before);
    LeadsThroughChildren(nodes, directly, node, below);
    MarkedIsVisible(nodes, directly, node, below);
    found := node in directly || found;
    if found {
      visible := visible + {node};
    }
  }

  method MarkChildren(nodes: Nodes, children: Children, directly: set<NodeId>, node: NodeId, below: seq<NodeId>,
      before: set<NodeId>) returns (childVisible: bool, visible: set<NodeId>)
    requires Forest(nodes) && node in nodes && AreChildren(nodes, children) && ListsChildren(nodes, node, below)
    ensures childVisible <==> AnyLeads(nodes, directly, below)
    ensures visible == before + MarkedBelow(nodes, directly, below)
    decreases Subtree(nodes, node), 0
  {
    visible, childVisible := before, false;
    for i := 0 to |below|
      invariant childVisible <==> AnyLeads(nodes, directly, below[..i])
      invariant visible == before + MarkedBelow(nodes, directly, below[..i])
    {
      assert below[i] in below;
      SubtreeOfChild(nodes, node, below[i]);
      var found;
      found, visible := Mark(nodes, children, directly, below[i], visible);
      MarkNext(nodes, directly, below, i);
      childVisible := childVisible || found;
    }
    assert below[..|below|] == below;
  }

  lemma {:induction false} LeadsThroughChildren(nodes: Nodes, directly: set<NodeId>, node: NodeId, below: seq<NodeId>)
    requires Forest(nodes) && node in nodes && ListsChildren(nodes, node, below)
    ensures LeadsToOpen(nodes, directly, node) <==> node in directly || AnyLeads(nodes, directly, below)
  {
    assert Reaches(nodes, node, 0, node);
    assert node in Subtree(nodes, node);
    if j :| 0 <= j < |below| && LeadsToOpen(nodes, directly, below[j]) {
      assert below[j] in below;
      SubtreeOfChild(nodes, node, below[j]);
      var y :| y in directly && y in Subtree(nodes, below[j]);
      assert y in Subtree(nodes, node);
    }
    if y :| y in directly && y in Subtree(nodes, node) && node !in directly {
      var child := SubtreeSplits(nodes, node, y);
      var j :| 0 <= j < |below| && below[j] == child;
      assert LeadsToOpen(nodes, directly, below[j]);
    }
  }

  lemma {:induction false} MarkedIsVisible(nodes: Nodes, directly: set<NodeId>, node: NodeId, below: seq<NodeId>)
    requires Forest(nodes) && node in nodes && ListsChildren(nodes, node, below)
    ensures VisibleBelow(nodes, directly, node)
         == MarkedBelow(nodes, directly, below) + if LeadsToOpen(nodes, directly, node) then {node} else {}
  {
    assert Reaches(nodes, node, 0, node);
    assert node in Subtree(nodes, node);
    forall x | x in MarkedBelow(nodes, directly, below) ensures x in VisibleBelow(nodes, directly, node) {
      var j :| 0 <= j < |below| && x in VisibleBelow(nodes, directly, below[j]);
      assert below[j] in below;
      SubtreeOfChild(nodes, node, below[j]);
    }
    forall x | x in VisibleBelow(nodes, directly, node) && x != node ensures x in MarkedBelow(nodes, directly, below) {
      var child := SubtreeSplits(nodes, node, x);
      var j :| 0 <= j < |below| && below[j] == child;
      assert x in VisibleBelow(nodes, directly, below[j]);
    }
  }

  // Exactly the nodes with an open node at or below them.
  ghost function VisibleNodes(nodes: Nodes, directly: set<NodeId>): set<NodeId> {
    set x | x in nodes && LeadsToOpen(nodes, directly, x)
  }

  method ComputeVisible(nodes: Nodes, rows: seq<NodeId>, directly: set<NodeId>) returns (visible: set<NodeId>)
    requires Forest(nodes) && IsListing(nodes, rows)
    ensures visible == VisibleNodes(nodes, directly)
  {
    var children := BuildChildren(nodes, rows);
    visible := {};
    var roots := ChildrenOf(children, None);
    for i := 0 to |roots|
      invariant visible == MarkedBelow(nodes, directly, roots[..i])
    {
      assert roots[i] in roots;
      MarkNext(nodes, directly, roots, i);
      var found;
      found, visible := Mark(nodes, children, directly, roots[i], visible);
    }
    assert roots[..|roots|] == roots;
    forall x ensures x in visible <==> x in VisibleNodes(nodes, directly) {
      if x in VisibleNodes(nodes, directly) {
        var root := RootAbove(nodes, x);
        var j :| 0 <= j < |roots| && roots[j] == root;
        assert x in VisibleBelow(nodes, directly, roots[j]);
      }
    }
  }

  lemma {:induction false} RootAbove(nodes: Nodes, x: NodeId) returns (root: NodeId)
    requires Forest(nodes) && x in nodes
    ensures root in nodes && nodes[root].parent == None && x in Subtree(nodes, root)
  {
    var k: nat :| Up(nodes, Some(x), k) == None;
    var j: nat := 0;
    while Up(nodes, Some(x), j + 1) != None
      invariant j < k && Up(nodes, Some(x), j) != None
      decreases k - j
    {
      j := j + 1;
      if j == k {
        assert false;
      }
    }
    StaysKnown(nodes, x, j);
    root := Up(nodes, Some(x), j).value;
    assert Reaches(nodes, x, j, root);
  }

  lemma {:induction false} VisibleAbove(nodes: Nodes, directly: set<NodeId>, x: NodeId, a: NodeId)
    requires x in VisibleNodes(nodes, directly) && a in nodes && IsAncestorOrSelf(nodes, a, x)
    ensures a in VisibleNodes(nodes, directly)
  {
    var y :| y in directly && y in Subtree(nodes, x);
    AncestorsCompose(nodes, a, x, y);
    assert y in Subtree(nodes, a);
  }

  // The visible part is the least set that holds everything open and, with a node, its parent.
  lemma {:induction false} VisibleIsLeastClosed(nodes: Nodes, directly: set<NodeId>, other: set<NodeId>)
    requires Forest(nodes) && directly <= nodes.Keys
    ensures directly <= VisibleNodes(nodes, directly)
    ensures ClosedUpwards(nodes, VisibleNodes(nodes, directly))
    ensures directly <= other && ClosedUpwards(nodes, other) ==> VisibleNodes(nodes, directly) <= other
  {
    forall x | x in directly ensures x in VisibleNodes(nodes, directly) {
      assert Reaches(nodes, x, 0, x);
      assert x in Subtree(nodes, x);
    }
    forall x | x in VisibleNodes(nodes, directly) && nodes[x].parent.Some?
      ensures nodes[x].parent.value in VisibleNodes(nodes, directly)
    {
      assert Up(nodes, Some(x), 0) == Some(x);
      assert Reaches(nodes, x, 1, nodes[x].parent.value);
      VisibleAbove(nodes, directly, x, nodes[x].parent.value);
    }
    if directly <= other && ClosedUpwards(nodes, other) {
      forall x | x in VisibleNodes(nodes, directly) ensures x in other {
        var y :| y in directly && y in Subtree(nodes, x);
        var k: nat :| Reaches(nodes, y, k, x);
        WalkStaysInside(nodes, other, y, k);
      }
    }
  }

  predicate ClosedUpwards(nodes: Nodes, s: set<NodeId>) {
    forall x :: x in s && x in nodes && nodes[x].parent.Some? ==> nodes[x].parent.value in s
  }

  lemma {:induction false} WalkStaysInside(nodes: Nodes, s: set<NodeId>, y: NodeId, k: nat)
    requires NoDangling(nodes) && y in nodes && y in s && ClosedUpwards(nodes, s)
    ensures Up(nodes, Some(y), k).Some? ==> Up(nodes, Some(y), k).value in s
    decreases k
  {
    if k > 0 {
      WalkStaysInside(nodes, s, y, k - 1);
      StaysKnown(nodes, y, k - 1);
    }
  }

  // ----- The tree of an employee ---------------------------------------------------------

  ghost function OpenNodes(index: AccessIndex, user: UserId, role: Option<RoleId>): set<NodeId> {
    set x | x in index.nodes && MayOpen(index, x, user, role)
  }

  method DirectlyOpen(index: AccessIndex, rows: seq<NodeId>, user: UserId, role: Option<RoleId>)
      returns (directly: set<NodeId>)
    requires IsListing(index.nodes, rows)
    ensures directly == OpenNodes(index, user, role)
  {
    directly := {};
    ghost var open := OpenNodes(index, user, role);
    for i := 0 to |rows|
      invariant forall x :: x in directly <==> x in rows[..i] && x in open
    {
      var allowed := ResolveEmployee(index, rows[i], user, role);
      assert allowed <==> rows[i] in open;
      assert rows[..i + 1] == rows[..i] + [rows[i]];
      if allowed {
        directly := directly + {rows[i]};
      }
    }
    assert rows[..|rows|] == rows;
  }

  // Everything the employee may open, and the way to it.
  method GetTree(index: AccessIndex, rows: seq<NodeId>, user: UserId, role: Option<RoleId>)
      returns (visible: set<NodeId>)
    requires Forest(index.nodes) && IsListing(index.nodes, rows)
    ensures visible == VisibleNodes(index.nodes, OpenNodes(index, user, role))
    ensures OpenNodes(index, user, role) <= visible && ClosedUpwards(index.nodes, visible)
  {
    var directly := DirectlyOpen(index, rows, user, role);
    visible := ComputeVisible(index.nodes, rows, directly);
    VisibleIsLeastClosed(index.nodes, directly, {});
  }
}
