// What the knowledge base operations write, in the fields of nodes, files and rules.

module KnowledgeEffects {
  import opened Results
  import opened KnowledgeTree
  import opened KnowledgeAccess
  import opened KnowledgeBase
  import Sequences

  // Behind all siblings, and first without any.
  ghost predicate IsLast(nodes: Nodes, parent: Option<NodeId>, except: Option<NodeId>, position: int) {
    && (forall x :: x in nodes && nodes[x].parent == parent && Some(x) != except ==> nodes[x].position < position)
    && ((exists x :: x in nodes && nodes[x].parent == parent && Some(x) != except && nodes[x].position == position - 1)
        || (position == 0 && forall x :: x in nodes && nodes[x].parent == parent ==> Some(x) == except))
  }

  lemma {:induction false} NextIsLast(nodes: Nodes, parent: Option<NodeId>, except: Option<NodeId>)
    ensures IsLast(nodes, parent, except, NextPosition(nodes, parent, except))
  {
    var p := NextPosition(nodes, parent, except);
    forall x | x in nodes && nodes[x].parent == parent && Some(x) != except ensures nodes[x].position < p {
      assert Sibling(nodes, x, parent, except);
    }
    if exists x :: Sibling(nodes, x, parent, except) {
      var x :| Sibling(nodes, x, parent, except) && nodes[x].position == p - 1;
    } else {
      forall x | x in nodes && nodes[x].parent == parent ensures Some(x) == except {
        assert !Sibling(nodes, x, parent, except);
      }
    }
  }

  // A new node is not open to all members; it has the title and kind given, no content yet, and
  // the place given or the last one. It needs no more than a parent that exists.
  lemma {:induction false} CreateWrites(b: Base, id: NodeId, parent: Option<NodeId>, kind: Kind, title: string,
      position: Option<int>)
    ensures var (after, r) := CreateNode(b, id, parent, kind, title, position);
      && (r == Ok(id) <==> parent == None || parent.value in b.tables.nodes)
      && (r != Ok(id) ==> after == b && r == Err(NodeNotFound))
      && (r == Ok(id) ==>
            && after == b.(tables := b.tables.(nodes := b.tables.nodes[id := after.tables.nodes[id]]))
            && var node := after.tables.nodes[id];
               && node.parent == parent && node.kind == kind && node.title == title && !node.allMembers
               && node.content == (if kind == Page then Some([]) else None)
               && if position != None then node.position == position.value
                  else IsLast(b.tables.nodes, parent, None, node.position))
  {
    NextIsLast(b.tables.nodes, parent, None);
  }

  // An accepted update changes exactly the fields given. A node that gets another parent goes
  // last there unless a place is given; otherwise it keeps its place.
  lemma {:induction false} UpdateWrites(b: Base, node: NodeId, change: Change, stuck: set<FileId>)
    requires UpdateNode(b, node, change, stuck).1.Ok?
    ensures var after := UpdateNode(b, node, change, stuck).0.tables.nodes;
      var nodes := b.tables.nodes;
      && node in nodes && after.Keys == nodes.Keys && (forall x :: x in nodes && x != node ==> after[x] == nodes[x])
      && after[node].kind == nodes[node].kind
      && after[node].title == (if change.title != None then change.title.value else nodes[node].title)
      && after[node].allMembers == (if change.allMembers != None then change.allMembers.value
          else nodes[node].allMembers)
      && after[node].parent == (if change.parent != None then change.parent.value else nodes[node].parent)
      && after[node].content == (if change.content != None then change.content else nodes[node].content)
      && (change.position != None ==> after[node].position == change.position.value)
      && (change.position == None && after[node].parent == nodes[node].parent ==>
            after[node].position == nodes[node].position)
      && (change.position == None && after[node].parent != nodes[node].parent ==>
            IsLast(nodes, after[node].parent, Some(node), after[node].position))
  {
    var t := b.tables;
    var with := WithContent(t, node, change.content);
    var parent := NewParent(t.nodes, node, change);
    SameNextPosition(t.nodes, with.nodes, parent, Some(node));
    NextIsLast(t.nodes, parent, Some(node));
  }

  // New content is refused for a section, and for a file that is not one of the organisation's
  // knowledge files or is on another page already.
  lemma {:induction false} ContentRefused(t: Tables, node: NodeId, content: seq<Block>)
    requires node in t.nodes
    ensures ContentError(t, node, Some(content)) == Some(ValidationError) <==> t.nodes[node].kind != Page
    ensures ContentError(t, node, Some(content)) == Some(FileInvalid) <==>
      t.nodes[node].kind == Page
      && exists i :: 0 <= i < |content| && content[i].embeds && content[i].file != None
          && MayNotBind(t, node, content[i].file.value)
  {
    if t.nodes[node].kind == Page {
      if f :| f in ContentIds(Some(content)) - BoundTo(t, node) && !Bindable(t, f) {
        var i :| 0 <= i < |content| && content[i].embeds && content[i].file == Some(f);
        assert MayNotBind(t, node, f);
      }
      if i :|
        0 <= i < |content| && content[i].embeds && content[i].file != None && MayNotBind(t, node, content[i].file.value)
      {
        assert content[i].file.value in ContentIds(Some(content)) - BoundTo(t, node);
        assert !Bindable(t, content[i].file.value);
      }
    }
  }

  predicate MayNotBind(t: Tables, node: NodeId, f: FileId) {
    if f in t.registry then t.registry[f] != node
    else f !in t.files || !t.files[f].knowledge || !t.files[f].ours
  }

  // An accepted order gives every child its place in the list and leaves the rest alone.
  lemma {:induction false} ReorderWrites(b: Base, parent: Option<NodeId>, ordered: seq<NodeId>)
    requires ReorderNodes(b, parent, ordered).1.Ok?
    ensures var after := ReorderNodes(b, parent, ordered).0;
      && after == b.(tables := b.tables.(nodes := after.tables.nodes)) && after.tables.nodes.Keys == b.tables.nodes.Keys
      && (forall i :: 0 <= i < |ordered| ==>
            ordered[i] in b.tables.nodes
            && after.tables.nodes[ordered[i]] == b.tables.nodes[ordered[i]].(position := i))
      && (forall x :: x in b.tables.nodes && b.tables.nodes[x].parent != parent ==>
            after.tables.nodes[x] == b.tables.nodes[x])
  {
    ReorderAcceptsExactly(b, parent, ordered);
    Sequences.MembersSize(ordered);
    forall i | 0 <= i < |ordered| ensures ordered[i] in b.tables.nodes && IndexIn(ordered, ordered[i]) == i {
      assert ordered[i] in ordered && ordered[i] in ChildSet(b.tables.nodes, parent);
      var j := IndexIn(ordered, ordered[i]);
      assert ordered[j] == ordered[i];
    }
  }

  // ----- Who may open what ---------------------------------------------------------------

  // A personal rule on the node itself decides, whatever else there is.
  lemma {:induction false} OwnRuleDecides(index: AccessIndex, x: NodeId, user: UserId, role: Option<RoleId>)
    requires x in index.nodes && x in index.memberRules && user in index.memberRules[x]
    ensures MayOpen(index, x, user, role) <==> index.memberRules[x][user] == Allow
  {
    assert Reaches(index.nodes, x, 0, x);
    assert IsNearest(index.nodes, index.memberRules, x, user, 0, x);
    assert IsAncestorOrSelf(index.nodes, x, x);
    if MayOpen(index, x, user, role) {
      var k: nat, a :| IsNearest(index.nodes, index.memberRules, x, user, k, a) && index.memberRules[a][user] == Allow;
      NearestIsUnique(index.nodes, index.memberRules, x, user, 0, x, k, a);
    }
  }

  // Without a personal rule anywhere, a rule of the role on the node itself decides, even
  // against a node that is open to all.
  lemma {:induction false} RoleRuleDecides(index: AccessIndex, x: NodeId, user: UserId, role: RoleId)
    requires forall a :: a in index.memberRules ==> user !in index.memberRules[a]
    requires x in index.nodes && x in index.roleRules && role in index.roleRules[x]
    ensures MayOpen(index, x, user, Some(role)) <==> index.roleRules[x][role] == Allow
  {
    assert Reaches(index.nodes, x, 0, x);
    assert IsNearest(index.nodes, index.roleRules, x, role, 0, x);
    assert IsAncestorOrSelf(index.nodes, x, x);
    if MayOpen(index, x, user, Some(role)) {
      var k: nat, a :| IsNearest(index.nodes, index.roleRules, x, role, k, a) && index.roleRules[a][role] == Allow;
      NearestIsUnique(index.nodes, index.roleRules, x, role, 0, x, k, a);
    }
  }

  // Without any rule for the user or the role, a node is open exactly if it or a node above it
  // is open to all members.
  lemma {:induction false} OpenWithoutRules(index: AccessIndex, x: NodeId, user: UserId, role: Option<RoleId>)
    requires forall a :: a in index.memberRules ==> user !in index.memberRules[a]
    requires role != None ==> forall a :: a in index.roleRules ==> role.value !in index.roleRules[a]
    ensures MayOpen(index, x, user, role) <==>
      exists a :: a in index.nodes && index.nodes[a].allMembers && IsAncestorOrSelf(index.nodes, a, x)
  {}

  // A file comes unattached, with its object. Only an unattached one can be thrown away: its
  // row goes, and its object unless the object store fails.
  lemma {:induction false} FilesComeAndGo(b: Base, f: FileId, knowledge: bool, ours: bool, stuck: set<FileId>)
    ensures var up := UploadFile(b, f, knowledge, ours);
      && up.tables == b.tables.(files := b.tables.files[f := FileRow(knowledge, ours, false)])
      && (forall x :: x in up.objects <==> x in b.objects || x == f)
    ensures var (after, r) := DiscardFile(b, f, stuck);
      && (r == Ok(f) <==> f in b.tables.files && !b.tables.files[f].attached)
      && (r != Ok(f) ==> after == b && r == Err(if f in b.tables.files then FileInUse else FileNotFound))
      && (r == Ok(f) ==>
            && after.tables.nodes == b.tables.nodes && after.tables.registry == b.tables.registry
            && (forall x :: x in after.tables.files <==> x in b.tables.files && x != f)
            && (forall x :: x in after.tables.files ==> after.tables.files[x] == b.tables.files[x])
            && forall x :: x in after.objects <==> x in b.objects && (x == f ==> f in stuck))
  {}

  // A run takes its operations one after another.
  lemma {:induction false} RunTakesEach(b: Base, ops: seq<Op>, op: Op)
    ensures Run(b, []) == b && Run(b, ops + [op]) == Apply(Run(b, ops), op)
  {
    assert (ops + [op])[..|ops|] == ops;
  }
}
