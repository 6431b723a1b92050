// The knowledge base as tables and stored objects: create, update, delete and reorder as
// transactions, the binding of files to pages, and what every run keeps.

module KnowledgeBase {
  import opened Results
  import opened KnowledgeTree
  import opened Sequences

  datatype FileRow = FileRow(knowledge: bool, ours: bool, attached: bool)

  // The tables of one organisation, and the objects of the external store.
  datatype Tables = Tables(nodes: Nodes, files: map<FileId, FileRow>, registry: map<FileId, NodeId>)

  datatype Base = Base(tables: Tables, objects: set<FileId>)

  datatype Error = NodeNotFound | Cycle | FileInvalid | ValidationError | FileNotFound | FileInUse

  // ----- Files of a page -----------------------------------------------------------------

  // The files that the image and file blocks of a content refer to.
  function ContentIds(content: Option<seq<Block>>): set<FileId> {
    match content
    case None => {}
    case Some(blocks) => set i | 0 <= i < |blocks| && blocks[i].embeds && blocks[i].file.Some? :: blocks[i].file.value
  }

  function BoundTo(t: Tables, node: NodeId): set<FileId> {
    set f | f in t.registry && t.registry[f] == node
  }

  predicate Bindable(t: Tables, f: FileId) {
    f in t.files && t.files[f].knowledge && t.files[f].ours && f !in t.registry
  }

  function Attach(t: Tables, node: NodeId, added: set<FileId>): Tables
    requires added <= t.files.Keys
  {
    t.(files := map f | f in t.files :: if f in added then t.files[f].(attached := true) else t.files[f],
       registry := map f | f in t.registry.Keys + added :: if f in added then node else t.registry[f])
  }

  lemma {:induction false} AttachNext(t: Tables, node: NodeId, added: set<FileId>, f: FileId)
    requires added <= t.files.Keys && f in t.files
    ensures var a := Attach(t, node, added);
      f in a.files && Attach(t, node, added + {f})
        == a.(files := a.files[f := a.files[f].(attached := true)], registry := a.registry[f := node])
  {}

  function Detach(t: Tables, removed: set<FileId>): Tables {
    t.(files := t.files - removed, registry := t.registry - removed)
  }

  // The tables once the page's rows in the registry are those of its new content: new files
  // attached, files no longer used removed from both tables.
  function Rebind(t: Tables, node: NodeId, content: seq<Block>): Tables
    requires forall f :: f in ContentIds(Some(content)) - BoundTo(t, node) ==> Bindable(t, f)
  {
    var wanted, bound := ContentIds(Some(content)), BoundTo(t, node);
    assert forall f :: f in wanted - bound ==> Bindable(t, f);
    Detach(Attach(t, node, wanted - bound), bound - wanted)
  }

  // ----- Positions -----------------------------------------------------------------------

  predicate Sibling(nodes: Nodes, x: NodeId, parent: Option<NodeId>, except: Option<NodeId>) {
    x in nodes && nodes[x].parent == parent && except != Some(x)
  }

  // One more than the greatest position among the siblings; zero without siblings.
  ghost predicate IsNextPosition(nodes: Nodes, parent: Option<NodeId>, except: Option<NodeId>, p: int) {
    if exists x :: Sibling(nodes, x, parent, except) then
      (exists x :: Sibling(nodes, x, parent, except) && nodes[x].position == p - 1)
      && forall x :: Sibling(nodes, x, parent, except) ==> nodes[x].position <= p - 1
    else p == 0
  }

  lemma {:induction false} NextPositionExists(nodes: Nodes, parent: Option<NodeId>, except: Option<NodeId>)
    ensures exists p :: IsNextPosition(nodes, parent, except, p)
  {
    if exists x :: Sibling(nodes, x, parent, except) {
      var siblings := set x | x in nodes && Sibling(nodes, x, parent, except);
      var some :| Sibling(nodes, some, parent, except);
      assert some in siblings;
      var top := Topmost(nodes, siblings);
      assert IsNextPosition(nodes, parent, except, nodes[top].position + 1);
    } else {
      assert IsNextPosition(nodes, parent, except, 0);
    }
  }

  lemma {:induction false} Topmost(nodes: Nodes, s: set<NodeId>) returns (top: NodeId)
    requires s != {} && s <= nodes.Keys
    ensures top in s && forall x :: x in s ==> nodes[x].position <= nodes[top].position
    decreases s
  {
    top :| top in s;
    if s != {top} {
      var other := Topmost(nodes, s - {top});
      if nodes[other].position > nodes[top].position {
        top := other;
      }
    }
  }

  ghost function NextPosition(nodes: Nodes, parent: Option<NodeId>, except: Option<NodeId>): (p: int)
    ensures IsNextPosition(nodes, parent, except, p)
  {
    NextPositionExists(nodes, parent, except);
    var p :| IsNextPosition(nodes, parent, except, p);
    p
  }

  lemma {:induction false} NextPositionIsUnique(nodes: Nodes, parent: Option<NodeId>, except: Option<NodeId>, p: int)
    requires IsNextPosition(nodes, parent, except, p)
    ensures p == NextPosition(nodes, parent, except)
  {}

  // ----- Transactions --------------------------------------------------------------------

  ghost function CreateNode(b: Base, id: NodeId, parent: Option<NodeId>, kind: Kind, title: string,
      position: Option<int>): (Base, Result<NodeId, Error>)
  {
    if parent.Some? && parent.value !in b.tables.nodes then (b, Err(NodeNotFound))
    else
      var p := if position.Some? then position.value else NextPosition(b.tables.nodes, parent, None);
      var node := Node(parent, p, kind, title, if kind == Page then Some([]) else None, false);
      (b.(tables := b.tables.(nodes := b.tables.nodes[id := node])), Ok(id))
  }

  // What a request changes; an absent field is left alone, and `parent` may be set to none.
  datatype Change = Change(
    content: Option<seq<Block>>,
    title: Option<string>,
    allMembers: Option<bool>,
    parent: Option<Option<NodeId>>,
    position: Option<int>)

  ghost function MoveError(nodes: Nodes, node: NodeId, parent: Option<NodeId>): Option<Error> {
    if parent == Some(node) then Some(Cycle)
    else if parent.Some? && parent.value !in nodes then Some(NodeNotFound)
    else if parent.Some? && IsAncestorOrSelf(nodes, node, parent.value) then Some(Cycle)
    else None
  }

  ghost function ContentError(t: Tables, node: NodeId, content: Option<seq<Block>>): Option<Error>
    requires node in t.nodes
  {
    if content.None? then None
    else if t.nodes[node].kind != Page then Some(ValidationError)
    else if exists f :: f in ContentIds(content) - BoundTo(t, node) && !Bindable(t, f) then Some(FileInvalid)
    else None
  }

  // Files that the page loses by the change.
  function Dropped(t: Tables, node: NodeId, content: Option<seq<Block>>): set<FileId> {
    if content.None? then {} else (BoundTo(t, node) - ContentIds(content)) * t.files.Keys
  }

  ghost function WithContent(t: Tables, node: NodeId, content: Option<seq<Block>>): Tables
    requires node in t.nodes && ContentError(t, node, content).None?
  {
    if content.None? then t
    else
      var r := Rebind(t, node, content.value);
      r.(nodes := r.nodes[node := r.nodes[node].(content := content)])
  }

  // An explicit position wins; a node that changes parents goes last.
  ghost function MovedPosition(nodes: Nodes, node: NodeId, parent: Option<NodeId>, position: Option<int>): int
    requires node in nodes
  {
    if position.Some? then position.value
    else if parent != nodes[node].parent then NextPosition(nodes, parent, Some(node))
    else nodes[node].position
  }

  function NewParent(nodes: Nodes, node: NodeId, change: Change): Option<NodeId>
    requires node in nodes
  {
    if change.parent.Some? then change.parent.value else nodes[node].parent
  }

  ghost function Changed(nodes: Nodes, node: NodeId, change: Change): Nodes
    requires node in nodes
  {
    var n := nodes[node];
    nodes[node := n.(
      title := if change.title.Some? then change.title.value else n.title,
      allMembers := if change.allMembers.Some? then change.allMembers.value else n.allMembers,
      parent := NewParent(nodes, node, change),
      position := MovedPosition(nodes, node, NewParent(nodes, node, change), change.position))]
  }

  // `stuck` are the objects whose deletion fails. The content comes first: its objects are
  // gone even if the move then fails and the tables are rolled back.
  ghost function UpdateNode(b: Base, node: NodeId, change: Change, stuck: set<FileId>): (Base, Result<NodeId, Error>) {
    var t := b.tables;
    if node !in t.nodes then (b, Err(NodeNotFound))
    else if ContentError(t, node, change.content).Some? then (b, Err(ContentError(t, node, change.content).value))
    else
      var objects := b.objects - (Dropped(t, node, change.content) - stuck);
      var moveError := if change.parent.Some? then MoveError(t.nodes, node, change.parent.value) else None;
      if moveError.Some? then (Base(t, objects), Err(moveError.value))
      else
        var bound := WithContent(t, node, change.content);
        (Base(bound.(nodes := Changed(bound.nodes, node, change)), objects), Ok(node))
  }

  ghost function FilesBelow(t: Tables, root: NodeId): set<FileId> {
    set f | f in t.registry && t.registry[f] in Subtree(t.nodes, root) + {root}
  }

  ghost function DeleteNode(b: Base, root: NodeId, stuck: set<FileId>): (Base, Result<NodeId, Error>) {
    if root !in b.tables.nodes then (b, Err(NodeNotFound))
    else
      var gone := FilesBelow(b.tables, root);
      (Base(Detach(b.tables, gone).(nodes := Without(b.tables.nodes, root)),
          b.objects - (gone * b.tables.files.Keys - stuck)), Ok(root))
  }

  ghost function ChildSet(nodes: Nodes, parent: Option<NodeId>): set<NodeId> {
    set x | x in nodes && nodes[x].parent == parent
  }

  // The place of an identifier in a list.
  function IndexIn(xs: seq<NodeId>, x: NodeId): (i: nat)
    requires x in xs
    ensures i < |xs| && xs[i] == x && forall j :: 0 <= j < i ==> xs[j] != x
  {
    if xs[0] == x then 0
    else
      assert xs == [xs[0]] + xs[1..];
      1 + IndexIn(xs[1..], x)
  }

  function Reordered(nodes: Nodes, ordered: seq<NodeId>): Nodes {
    map x | x in nodes :: if x in ordered then nodes[x].(position := IndexIn(ordered, x)) else nodes[x]
  }

  ghost function ReorderNodes(b: Base, parent: Option<NodeId>, ordered: seq<NodeId>): (Base, Result<int, Error>) {
    var nodes := b.tables.nodes;
    if parent.Some? && parent.value !in nodes then (b, Err(NodeNotFound))
    else
      var actual := ChildSet(nodes, parent);
      if exists x :: x in ordered && x !in actual then (b, Err(NodeNotFound))
      else if |ordered| != |actual| || Members(ordered) != actual then (b, Err(ValidationError))
      else (b.(tables := b.tables.(nodes := Reordered(nodes, ordered))), Ok(|ordered|))
  }

  // A file arrives unattached, under an identifier never used before.
  function UploadFile(b: Base, f: FileId, knowledge: bool, ours: bool): Base {
    Base(b.tables.(files := b.tables.files[f := FileRow(knowledge, ours, false)]), b.objects + {f})
  }

  // The delete endpoint and the clean-up of orphans: only unattached files.
  function DiscardFile(b: Base, f: FileId, stuck: set<FileId>): (Base, Result<FileId, Error>) {
    if f !in b.tables.files then (b, Err(FileNotFound))
    else if b.tables.files[f].attached then (b, Err(FileInUse))
    else (Base(b.tables.(files := b.tables.files - {f}), b.objects - ({f} - stuck)), Ok(f))
  }

  // The walks, and so the errors of a move, depend on the parent column only; positions of
  // new children depend on the parents and positions.
  lemma {:induction false} SameMoveError(a: Nodes, b: Nodes, node: NodeId, parent: Option<NodeId>)
    requires a.Keys == b.Keys && forall x :: x in a ==> a[x].parent == b[x].parent
    ensures MoveError(a, node, parent) == MoveError(b, node, parent)
  {
    if parent.Some? {
      forall k: nat ensures Up(a, parent, k) == Up(b, parent, k) {
        SameWalk(a, b, parent, k);
      }
      assert forall k: nat :: Reaches(a, parent.value, k, node) <==> Reaches(b, parent.value, k, node);
    }
  }

  lemma {:induction false} SameNextPosition(a: Nodes, b: Nodes, parent: Option<NodeId>, except: Option<NodeId>)
    requires a.Keys == b.Keys && forall x :: x in a ==> a[x].parent == b[x].parent && a[x].position == b[x].position
    ensures NextPosition(a, parent, except) == NextPosition(b, parent, except)
  {
    assert forall x :: Sibling(a, x, parent, except) <==> Sibling(b, x, parent, except);
    NextPositionIsUnique(a, parent, except, NextPosition(b, parent, except));
  }

  lemma {:induction false} ReorderedNext(nodes: Nodes, ordered: seq<NodeId>, i: nat)
    requires Distinct(ordered) && i < |ordered| && ordered[i] in nodes
    ensures Reordered(nodes, ordered[..i + 1])
         == Reordered(nodes, ordered[..i])[ordered[i] := nodes[ordered[i]].(position := i)]
  {
    var before, after := ordered[..i], ordered[..i + 1];
    assert after == before + [ordered[i]];
    forall x | x in before ensures IndexIn(after, x) == IndexIn(before, x) {
      assert after[IndexIn(before, x)] == x;
    }
  }

  // ----- What every transaction keeps ----------------------------------------------------

  predicate RowFor(t: Tables, f: FileId, n: NodeId) {
    f in t.registry && t.registry[f] == n
  }

  predicate OnPage(nodes: Nodes, f: FileId, n: NodeId) {
    n in nodes && f in ContentIds(nodes[n].content)
  }

  ghost predicate RegistryMatches(t: Tables) {
    forall f, n :: RowFor(t, f, n) <==> OnPage(t.nodes, f, n)
  }

  ghost predicate AttachedMatches(t: Tables) {
    && (forall f :: f in t.registry ==> f in t.files && t.files[f].knowledge && t.files[f].ours)
    && (forall f :: f in t.files && t.files[f].knowledge && t.files[f].ours ==>
        (t.files[f].attached <==> f in t.registry))
  }

  // The tree is a forest; the rows of the registry are those of the pages' contents, so that
  // every file is on at most one page; and a file is attached exactly if it is on a page.
  ghost predicate Consistent(t: Tables) {
    && Forest(t.nodes)
    && (forall n :: n in t.nodes ==> (t.nodes[n].content.Some? <==> t.nodes[n].kind == Page))
    && RegistryMatches(t)
    && AttachedMatches(t)
  }

  // Every file row has its object.
  predicate Backed(b: Base) {
    forall f :: f in b.tables.files ==> f in b.objects
  }

  lemma {:induction false} SameParentsForest(a: Nodes, b: Nodes)
    requires Forest(a) && a.Keys == b.Keys && forall x :: x in a ==> b[x].parent == a[x].parent
    ensures Forest(b)
  {
    forall x | x in b ensures Rooted(b, Some(x)) {
      KnownWalk(a, b, x);
    }
  }

  lemma {:induction false} NewNodeHasNoFiles(t: Tables, id: NodeId, node: Node)
    requires RegistryMatches(t) && id !in t.nodes && ContentIds(node.content) == {}
    ensures RegistryMatches(t.(nodes := t.nodes[id := node]))
  {
    var after := t.(nodes := t.nodes[id := node]);
    forall f, n ensures RowFor(after, f, n) <==> OnPage(after.nodes, f, n) {
      assert RowFor(t, f, n) <==> OnPage(t.nodes, f, n);
    }
  }

  lemma {:induction false} CreateKeeps(b: Base, id: NodeId, parent: Option<NodeId>, kind: Kind, title: string,
      position: Option<int>)
    requires Consistent(b.tables) && id !in b.tables.nodes
    ensures Consistent(CreateNode(b, id, parent, kind, title, position).0.tables)
    ensures Backed(b) ==> Backed(CreateNode(b, id, parent, kind, title, position).0)
  {
    var after := CreateNode(b, id, parent, kind, title, position).0;
    if after != b {
      var node := after.tables.nodes[id];
      assert after == b.(tables := b.tables.(nodes := b.tables.nodes[id := node]));
      CreateKeepsForest(b.tables.nodes, id, node);
      assert ContentIds(node.content) == {};
      NewNodeHasNoFiles(b.tables, id, node);
    }
  }

  // ----- Update --------------------------------------------------------------------------

  lemma {:induction false} RebindMatches(t: Tables, node: NodeId, content: seq<Block>)
    requires RegistryMatches(t) && node in t.nodes && ContentError(t, node, Some(content)).None?
    ensures RegistryMatches(WithContent(t, node, Some(content)))
  {
    var after := WithContent(t, node, Some(content));
    var wanted, bound := ContentIds(Some(content)), BoundTo(t, node);
    assert after.nodes == t.nodes[node := t.nodes[node].(content := Some(content))];
    forall f, n ensures RowFor(after, f, n) <==> OnPage(after.nodes, f, n) {
      assert RowFor(t, f, n) <==> OnPage(t.nodes, f, n);
      assert f in wanted - bound ==> Bindable(t, f);
      if n != node {
        assert RowFor(after, f, n) <==> RowFor(t, f, n);
      }
    }
  }

  lemma {:induction false} RebindAttached(t: Tables, node: NodeId, content: seq<Block>)
    requires Consistent(t) && node in t.nodes && ContentError(t, node, Some(content)).None?
    ensures AttachedMatches(WithContent(t, node, Some(content)))
  {}

  lemma {:induction false} MoveErrorIsExact(nodes: Nodes, node: NodeId, parent: Option<NodeId>)
    requires node in nodes
    ensures MoveError(nodes, node, parent).None? <==> MoveAllowed(nodes, node, parent)
  {
    assert Reaches(nodes, node, 0, node);
  }

  // The parent column of the new table is that of the moved one.
  lemma {:induction false} UpdateKeepsForest(nodes: Nodes, with: Nodes, node: NodeId, change: Change)
    requires Forest(nodes) && node in nodes && with.Keys == nodes.Keys
    requires forall x :: x in nodes ==> with[x].parent == nodes[x].parent
    requires change.parent.Some? ==> MoveError(nodes, node, change.parent.value).None?
    ensures Forest(Changed(with, node, change))
  {
    if change.parent.Some? {
      MoveErrorIsExact(nodes, node, change.parent.value);
      MoveKeepsForestExactly(nodes, node, change.parent.value, 0);
      SameParentsForest(Moved(nodes, node, change.parent.value, 0), Changed(with, node, change));
    } else {
      SameParentsForest(nodes, Changed(with, node, change));
    }
  }

  // The registry depends on the pages' contents only.
  lemma {:induction false} SameContentsMatch(t: Tables, nodes: Nodes)
    requires RegistryMatches(t) && nodes.Keys == t.nodes.Keys
    requires forall n :: n in nodes ==> nodes[n].content == t.nodes[n].content
    ensures RegistryMatches(t.(nodes := nodes))
  {
    var after := t.(nodes := nodes);
    forall f, n ensures RowFor(after, f, n) <==> OnPage(nodes, f, n) {
      assert RowFor(t, f, n) <==> OnPage(t.nodes, f, n);
    }
  }

  lemma {:induction false} UpdateKeeps(b: Base, node: NodeId, change: Change, stuck: set<FileId>)
    requires Consistent(b.tables)
    ensures Consistent(UpdateNode(b, node, change, stuck).0.tables)
  {
    var (after, r) := UpdateNode(b, node, change, stuck);
    if r.Ok? {
      var bound := WithContent(b.tables, node, change.content);
      if change.content.Some? {
        RebindMatches(b.tables, node, change.content.value);
        RebindAttached(b.tables, node, change.content.value);
      }
      UpdateKeepsForest(b.tables.nodes, bound.nodes, node, change);
      SameContentsMatch(bound, Changed(bound.nodes, node, change));
    }
  }

  // A refused move after a change of content loses objects: exactly when the change drops a
  // file whose object's deletion succeeds. No other update leaves a file row without object.
  lemma {:induction false} UpdateKeepsObjectsExactly(b: Base, node: NodeId, change: Change, stuck: set<FileId>)
    requires Consistent(b.tables) && Backed(b)
    ensures Backed(UpdateNode(b, node, change, stuck).0) <==> !LosesObjects(b.tables, node, change, stuck)
  {
    var t := b.tables;
    var (after, r) := UpdateNode(b, node, change, stuck);
    if LosesObjects(t, node, change, stuck) {
      var f :| f in Dropped(t, node, change.content) - stuck;
      assert f in after.tables.files && f !in after.objects;
    } else if r.Ok? && change.content.Some? {
      var bound := WithContent(t, node, change.content);
      assert forall f :: f in bound.files ==> f in t.files && f !in Dropped(t, node, change.content);
    }
  }

  ghost predicate LosesObjects(t: Tables, node: NodeId, change: Change, stuck: set<FileId>) {
    && node in t.nodes && ContentError(t, node, change.content).None?
    && change.parent.Some? && MoveError(t.nodes, node, change.parent.value).Some?
    && Dropped(t, node, change.content) - stuck != {}
  }

  // A concrete base: page 1 shows file 7; a request empties the page and moves it under itself.
  lemma {:induction false} RefusedMoveLosesObject()
    ensures exists b: Base, change: Change ::
      Consistent(b.tables) && Backed(b)
      && UpdateNode(b, 1, change, {}).1 == Err(Cycle)
      && UpdateNode(b, 1, change, {}).0.tables == b.tables
      && !Backed(UpdateNode(b, 1, change, {}).0)
  {
    var page := Node(None, 0, Page, "", Some([Block(true, Some(7))]), false);
    var t := Tables(map[1 := page], map[7 := FileRow(true, true, true)], map[7 := 1]);
    var b, change := Base(t, {7}), Change(Some([]), None, None, Some(Some(1)), None);
    assert Up(t.nodes, Some(1), 0) == Some(1) && Up(t.nodes, Some(1), 1) == None;
    assert page.content.value[0] == Block(true, Some(7));
    assert ContentIds(page.content) == {7};
    assert Consistent(t);
    assert ContentIds(Some([])) == {};
    assert BoundTo(t, 1) == {7};
    var (after, r) := UpdateNode(b, 1, change, {});
    assert r == Err(Cycle) && after == Base(t, {7} - ({7} - {}));
    assert 7 in t.files && 7 !in after.objects;
  }

  // ----- Delete --------------------------------------------------------------------------

  lemma {:induction false} DeleteMatches(b: Base, root: NodeId, stuck: set<FileId>)
    requires RegistryMatches(b.tables)
    ensures RegistryMatches(DeleteNode(b, root, stuck).0.tables)
  {
    var t, after := b.tables, DeleteNode(b, root, stuck).0.tables;
    if root in t.nodes {
      forall f, n ensures RowFor(after, f, n) <==> OnPage(after.nodes, f, n) {
        assert RowFor(t, f, n) <==> OnPage(t.nodes, f, n);
      }
    }
  }

  lemma {:induction false} DeleteKeeps(b: Base, root: NodeId, stuck: set<FileId>)
    requires Consistent(b.tables)
    ensures Consistent(DeleteNode(b, root, stuck).0.tables)
    ensures Backed(b) ==> Backed(DeleteNode(b, root, stuck).0)
  {
    DeleteKeepsForest(b.tables.nodes, root);
    DeleteMatches(b, root, stuck);
  }

  // A delete removes exactly the files on the pages of the subtree, rows and objects.
  lemma {:induction false} DeleteRemovesSubtreeFiles(b: Base, root: NodeId, stuck: set<FileId>)
    requires Consistent(b.tables) && root in b.tables.nodes
    ensures var (after, r) := DeleteNode(b, root, stuck);
      && r == Ok(root)
      && (forall n :: n in after.tables.nodes <==> n in b.tables.nodes && !IsAncestorOrSelf(b.tables.nodes, root, n))
      && (forall f :: f in after.tables.files <==> f in b.tables.files && !OnPageBelow(b.tables.nodes, root, f))
      && (forall f :: f in after.objects <==> f in b.objects && (OnPageBelow(b.tables.nodes, root, f) ==> f in stuck))
  {
    var t := b.tables;
    assert Reaches(t.nodes, root, 0, root);
    forall f ensures f in FilesBelow(t, root) <==> OnPageBelow(t.nodes, root, f) {
      FilesBelowArePageFiles(t, root, f);
    }
  }

  lemma {:induction false} FilesBelowArePageFiles(t: Tables, root: NodeId, f: FileId)
    requires Consistent(t) && root in t.nodes
    ensures f in FilesBelow(t, root) <==> OnPageBelow(t.nodes, root, f)
    ensures f in FilesBelow(t, root) ==> f in t.files
  {
    assert Reaches(t.nodes, root, 0, root);
    if f in FilesBelow(t, root) {
      assert RowFor(t, f, t.registry[f]);
      assert InSubtreePage(t.nodes, root, f, t.registry[f]);
    }
    if n :| InSubtreePage(t.nodes, root, f, n) {
      assert OnPage(t.nodes, f, n);
      assert RowFor(t, f, n);
    }
  }

  ghost predicate InSubtreePage(nodes: Nodes, root: NodeId, f: FileId, n: NodeId) {
    n in Subtree(nodes, root) && f in ContentIds(nodes[n].content)
  }

  ghost predicate OnPageBelow(nodes: Nodes, root: NodeId, f: FileId) {
    exists n :: InSubtreePage(nodes, root, f, n)
  }

  // ----- Reorder -------------------------------------------------------------------------

  // A list is accepted exactly if it names every child of the parent once; then the children
  // stand in the order of the list, and nothing else changes.
  lemma {:induction false} ReorderAcceptsExactly(b: Base, parent: Option<NodeId>, ordered: seq<NodeId>)
    requires parent.Some? ==> parent.value in b.tables.nodes
    ensures ReorderNodes(b, parent, ordered).1.Ok?
       <==> Distinct(ordered) && forall x :: x in ordered <==> x in ChildSet(b.tables.nodes, parent)
    ensures ReorderNodes(b, parent, ordered).1.Ok? ==>
      var after := ReorderNodes(b, parent, ordered).0.tables.nodes;
      && after.Keys == b.tables.nodes.Keys
      && (forall i :: 0 <= i < |ordered| ==> ordered[i] in after)
      && (forall i :: 0 <= i < |ordered| ==> after[ordered[i]] == b.tables.nodes[ordered[i]].(position := i))
      && (forall x :: x in after && x !in ordered ==> after[x] == b.tables.nodes[x])
  {
    var actual := ChildSet(b.tables.nodes, parent);
    MembersSize(ordered);
    if forall x :: x in ordered <==> x in actual {
      assert Members(ordered) == actual;
    }
    if ReorderNodes(b, parent, ordered).1.Ok? {
      assert forall x :: x in ordered <==> x in Members(ordered);
      forall i | 0 <= i < |ordered| ensures ordered[i] in b.tables.nodes && IndexIn(ordered, ordered[i]) == i {
        assert ordered[i] in actual;
      }
    }
  }

  lemma {:induction false} ReorderKeeps(b: Base, parent: Option<NodeId>, ordered: seq<NodeId>)
    requires Consistent(b.tables)
    ensures Consistent(ReorderNodes(b, parent, ordered).0.tables)
    ensures Backed(b) ==> Backed(ReorderNodes(b, parent, ordered).0)
  {
    var nodes := b.tables.nodes;
    SameParentsForest(nodes, Reordered(nodes, ordered));
    SameContentsMatch(b.tables, Reordered(nodes, ordered));
  }

  // ----- Runs ----------------------------------------------------------------------------

  datatype Op =
    | Create(id: NodeId, parent: Option<NodeId>, kind: Kind, title: string, position: Option<int>)
    | Update(node: NodeId, change: Change, stuck: set<FileId>)
    | Delete(root: NodeId, stuck: set<FileId>)
    | Reorder(under: Option<NodeId>, ordered: seq<NodeId>)
    | Upload(file: FileId, knowledge: bool, ours: bool)
    | Discard(discarded: FileId, stuck: set<FileId>)

  // New identifiers are drawn afresh.
  predicate Fresh(b: Base, op: Op) {
    match op
    case Create(id, _, _, _, _) => id !in b.tables.nodes
    case Upload(f, _, _) => f !in b.tables.files && f !in b.objects
    case _ => true
  }

  ghost function Apply(b: Base, op: Op): Base {
    match op
    case Create(id, parent, kind, title, position) => CreateNode(b, id, parent, kind, title, position).0
    case Update(node, change, stuck) => UpdateNode(b, node, change, stuck).0
    case Delete(root, stuck) => DeleteNode(b, root, stuck).0
    case Reorder(under, ordered) => ReorderNodes(b, under, ordered).0
    case Upload(f, knowledge, ours) => UploadFile(b, f, knowledge, ours)
    case Discard(f, stuck) => DiscardFile(b, f, stuck).0
  }

  ghost function Run(b: Base, ops: seq<Op>): Base {
    if ops == [] then b else Apply(Run(b, ops[..|ops| - 1]), ops[|ops| - 1])
  }

  ghost predicate FreshRun(b: Base, ops: seq<Op>) {
    ops == [] || (FreshRun(b, ops[..|ops| - 1]) && Fresh(Run(b, ops[..|ops| - 1]), ops[|ops| - 1]))
  }

  const EMPTY := Base(Tables(map[], map[], map[]), {})

  lemma {:induction false} ApplyKeeps(b: Base, op: Op)
    requires Consistent(b.tables) && Fresh(b, op)
    ensures Consistent(Apply(b, op).tables)
  {
    match op
    case Create(id, parent, kind, title, position) => CreateKeeps(b, id, parent, kind, title, position);
    case Update(node, change, stuck) => UpdateKeeps(b, node, change, stuck);
    case Delete(root, stuck) => DeleteKeeps(b, root, stuck);
    case Reorder(under, ordered) => ReorderKeeps(b, under, ordered);
    case Upload(f, knowledge, ours) => UploadKeeps(b, f, knowledge, ours);
    case Discard(f, stuck) => DiscardKeeps(b, f, stuck);
  }

  lemma {:induction false} UploadKeeps(b: Base, f: FileId, knowledge: bool, ours: bool)
    requires Consistent(b.tables) && f !in b.tables.files
    ensures Consistent(UploadFile(b, f, knowledge, ours).tables)
  {
    var t, after := b.tables, UploadFile(b, f, knowledge, ours).tables;
    forall g, n ensures RowFor(after, g, n) <==> OnPage(after.nodes, g, n) {
      assert RowFor(t, g, n) <==> OnPage(t.nodes, g, n);
    }
  }

  lemma {:induction false} DiscardKeeps(b: Base, f: FileId, stuck: set<FileId>)
    requires Consistent(b.tables)
    ensures Consistent(DiscardFile(b, f, stuck).0.tables)
  {
    var t, after := b.tables, DiscardFile(b, f, stuck).0.tables;
    forall g, n ensures RowFor(after, g, n) <==> OnPage(after.nodes, g, n) {
      assert RowFor(t, g, n) <==> OnPage(t.nodes, g, n);
    }
  }

  // Every run of transactions on an empty knowledge base leaves it consistent.
  lemma {:induction false} RunsAreConsistent(ops: seq<Op>)
    requires FreshRun(EMPTY, ops)
    ensures Consistent(Run(EMPTY, ops).tables)
    decreases |ops|
  {
    if ops == [] {
      assert Consistent(EMPTY.tables);
    } else {
      RunsAreConsistent(ops[..|ops| - 1]);
      ApplyKeeps(Run(EMPTY, ops[..|ops| - 1]), ops[|ops| - 1]);
    }
  }

  // The runs in which no update both drops a stored file and asks for a refused move.
  ghost predicate CarefulRun(ops: seq<Op>) {
    ops == []
    || (CarefulRun(ops[..|ops| - 1])
        && (ops[|ops| - 1].Update? ==>
          !LosesObjects(Run(EMPTY, ops[..|ops| - 1]).tables, ops[|ops| - 1].node, ops[|ops| - 1].change,
              ops[|ops| - 1].stuck)))
  }

  // In those runs every file row keeps its object, whichever deletions of objects fail.
  lemma {:induction false} CarefulRunsKeepObjects(ops: seq<Op>)
    requires FreshRun(EMPTY, ops) && CarefulRun(ops)
    ensures Backed(Run(EMPTY, ops))
    decreases |ops|
  {
    if ops != [] {
      var before, op := Run(EMPTY, ops[..|ops| - 1]), ops[|ops| - 1];
      CarefulRunsKeepObjects(ops[..|ops| - 1]);
      RunsAreConsistent(ops[..|ops| - 1]);
      match op
      case Create(id, parent, kind, title, position) => CreateKeeps(before, id, parent, kind, title, position);
      case Update(node, change, stuck) => UpdateKeepsObjectsExactly(before, node, change, stuck);
      case Delete(root, stuck) => DeleteKeeps(before, root, stuck);
      case Reorder(under, ordered) => ReorderKeeps(before, under, ordered);
      case Upload(f, knowledge, ours) =>
      case Discard(f, stuck) =>
    }
  }
}
