// The knowledge base service: methods that change the tables and the stored objects in place,
// each proved to do what the transaction of the model does.

module KnowledgeStore {
  import opened Results
  import opened KnowledgeTree
  import opened Sequences
  import KB = KnowledgeBase

  class Store {
    var nodes: Nodes
    var files: map<FileId, KB.FileRow>
    var registry: map<FileId, NodeId>
    var objects: set<FileId>

    constructor ()
      ensures Valid() && State() == KB.EMPTY
    {
      nodes, files, registry, objects := map[], map[], map[], {};
      new;
      KB.RunsAreConsistent([]);
    }

    // The nodes are a forest, the registry has the rows of the pages' contents, and a file is
    // attached exactly if it is on a page.
    ghost predicate Valid()
      reads this
    {
      KB.Consistent(Tables())
    }

    function Tables(): KB.Tables
      reads this
    {
      KB.Tables(nodes, files, registry)
    }

    function State(): KB.Base
      reads this
    {
      KB.Base(Tables(), objects)
    }

    // One pass over the rows for the greatest position.
    method NextPosition(rows: seq<NodeId>, parent: Option<NodeId>, except: Option<NodeId>) returns (p: int)
      requires IsListing(nodes, rows)
      ensures p == KB.NextPosition(nodes, parent, except)
    {
      var top: Option<NodeId> := None;
      for i := 0 to |rows|
        invariant top.None? ==> forall j :: 0 <= j < i ==> !KB.Sibling(nodes, rows[j], parent, except)
        invariant top.Some? ==> KB.Sibling(nodes, top.value, parent, except)
        invariant top.Some? ==> forall j :: 0 <= j < i && KB.Sibling(nodes, rows[j], parent, except) ==>
          nodes[rows[j]].position <= nodes[top.value].position
      {
        if KB.Sibling(nodes, rows[i], parent, except) {
          if top.None? || nodes[top.value].position < nodes[rows[i]].position {
            top := Some(rows[i]);
          }
        }
      }
      p := if top.Some? then nodes[top.value].position + 1 else 0;
      forall x | KB.Sibling(nodes, x, parent, except)
        ensures top.Some? && nodes[x].position <= nodes[top.value].position
      {
        assert x in rows;
      }
      KB.NextPositionIsUnique(nodes, parent, except, p);
    }

    method CreateNode(rows: seq<NodeId>, id: NodeId, parent: Option<NodeId>, kind: Kind, title: string,
        position: Option<int>) returns (r: Result<NodeId, KB.Error>)
      requires IsListing(nodes, rows)
      requires Valid() && id !in nodes
      modifies this
      ensures Valid()
      ensures (State(), r) == KB.CreateNode(old(State()), id, parent, kind, title, position)
    {
      KB.ApplyKeeps(State(), KB.Create(id, parent, kind, title, position));
      if parent.Some? && parent.value !in nodes {
        return Err(KB.NodeNotFound);
      }
      var p: int;
      if position.Some? {
        p := position.value;
      } else {
        p := NextPosition(rows, parent, None);
      }
      nodes := nodes[id := Node(parent, p, kind, title, if kind == Page then Some([]) else None, false)];
      r := Ok(id);
    }

    // Attaches the new files one by one; the first one that may not be bound stops the request.
    method AttachFiles(node: NodeId, toAdd: set<FileId>) returns (ok: bool)
      requires forall f :: f in toAdd ==> !KB.RowFor(Tables(), f, node)
      modifies this
      ensures nodes == old(nodes) && objects == old(objects)
      ensures ok <==> forall f :: f in toAdd ==> KB.Bindable(old(Tables()), f)
      ensures ok ==> toAdd <= old(files.Keys) && Tables() == KB.Attach(old(Tables()), node, toAdd)
    {
      var left := toAdd;
      while left != {}
        invariant left <= toAdd && nodes == old(nodes) && objects == old(objects)
        invariant forall f :: f in toAdd - left ==> KB.Bindable(old(Tables()), f)
        invariant toAdd - left <= old(files.Keys) && Tables() == KB.Attach(old(Tables()), node, toAdd - left)
        decreases left
      {
        var f :| f in left;
        if f !in files || !files[f].knowledge || !files[f].ours || f in registry {
          assert !KB.Bindable(old(Tables()), f);
          return false;
        }
        KB.AttachNext(old(Tables()), node, toAdd - left, f);
        files := files[f := files[f].(attached := true)];
        registry := registry[f := node];
        assert toAdd - (left - {f}) == toAdd - left + {f};
        left := left - {f};
      }
      assert toAdd - left == toAdd;
      ok := true;
    }

    // Removes rows and objects of files one by one; a failed deletion of an object is logged
    // and leaves the object behind.
    method RemoveFiles(toRemove: set<FileId>, stuck: set<FileId>)
      modifies this
      ensures nodes == old(nodes)
      ensures Tables() == KB.Detach(old(Tables()), toRemove)
      ensures objects == old(objects) - (toRemove * old(files.Keys) - stuck)
    {
      var left := toRemove;
      while left != {}
        invariant left <= toRemove && nodes == old(nodes)
        invariant Tables() == KB.Detach(old(Tables()), toRemove - left)
        invariant objects == old(objects) - ((toRemove - left) * old(files.Keys) - stuck)
        decreases left
      {
        var f :| f in left;
        registry := registry - {f};
        if f in files {
          files := files - {f};
          if f !in stuck {
            objects := objects - {f};
          }
        }
        assert toRemove - (left - {f}) == toRemove - left + {f};
        left := left - {f};
      }
      assert toRemove - left == toRemove;
    }

    // _recompute_file_bindings and the assignment of the content: additions come first, since
    // they may fail and a deleted object cannot be brought back.
    method ReplaceContent(node: NodeId, content: seq<Block>, stuck: set<FileId>) returns (ok: bool)
      requires node in nodes && nodes[node].kind == Page
      modifies this
      ensures ok <==> KB.ContentError(old(Tables()), node, Some(content)).None?
      ensures ok ==> Tables() == KB.WithContent(old(Tables()), node, Some(content))
      ensures ok ==> objects == old(objects) - (KB.Dropped(old(Tables()), node, Some(content)) - stuck)
      ensures !ok ==> objects == old(objects)
    {
      var newIds := KB.ContentIds(Some(content));
      var currentIds := KB.BoundTo(Tables(), node);
      ok := AttachFiles(node, newIds - currentIds);
      if !ok {
        return;
      }
      RemoveFiles(currentIds - newIds, stuck);
      nodes := nodes[node := nodes[node].(content := Some(content))];
      assert (currentIds - newIds) * old(files.Keys) == KB.Dropped(old(Tables()), node, Some(content));
    }

    // The request is one transaction: an error restores the tables, but not the objects.
    method UpdateNode(rows: seq<NodeId>, node: NodeId, change: KB.Change, stuck: set<FileId>)
        returns (r: Result<NodeId, KB.Error>)
      requires IsListing(nodes, rows)
      requires Valid()
      modifies this
      ensures Valid()
      ensures (State(), r) == KB.UpdateNode(old(State()), node, change, stuck)
    {
      KB.ApplyKeeps(State(), KB.Update(node, change, stuck));
      if node !in nodes {
        return Err(KB.NodeNotFound);
      }
      var begun := Tables();
      if change.content.Some? {
        if nodes[node].kind != Page {
          return Err(KB.ValidationError);
        }
        var ok := ReplaceContent(node, change.content.value, stuck);
        if !ok {
          Rollback(begun);
          return Err(KB.FileInvalid);
        }
      }
      assert Tables() == KB.WithContent(begun, node, change.content);
      assert objects == old(objects) - (KB.Dropped(begun, node, change.content) - stuck);
      if change.parent.Some? {
        KB.SameMoveError(begun.nodes, nodes, node, change.parent.value);
      }
      var error := ChangeFields(rows, node, change);
      if error.Some? {
        Rollback(begun);
        return Err(error.value);
      }
      r := Ok(node);
    }

    method Rollback(begun: KB.Tables)
      modifies this
      ensures Tables() == begun && objects == old(objects)
    {
      nodes, files, registry := begun.nodes, begun.files, begun.registry;
    }

    // The fields of the node, then its place in the tree.
    method ChangeFields(rows: seq<NodeId>, node: NodeId, change: KB.Change) returns (error: Option<KB.Error>)
      requires IsListing(nodes, rows) && node in nodes
      modifies this`nodes
      ensures error == if change.parent.Some? then KB.MoveError(old(nodes), node, change.parent.value) else None
      ensures error.None? ==> nodes == KB.Changed(old(nodes), node, change)
    {
      SetTitleAndAccess(node, change);
      error := None;
      if change.parent.Some? {
        KB.SameMoveError(old(nodes), nodes, node, change.parent.value);
        KB.SameNextPosition(old(nodes), nodes, change.parent.value, Some(node));
        error := MoveNode(rows, node, change.parent.value, change.position);
      } else if change.position.Some? {
        nodes := nodes[node := nodes[node].(position := change.position.value)];
      }
    }

    method SetTitleAndAccess(node: NodeId, change: KB.Change)
      requires node in nodes
      modifies this`nodes
      ensures nodes == old(nodes)[node := old(nodes)[node].(
        title := if change.title.Some? then change.title.value else old(nodes)[node].title,
        allMembers := if change.allMembers.Some? then change.allMembers.value else old(nodes)[node].allMembers)]
    {
      if change.title.Some? {
        nodes := nodes[node := nodes[node].(title := change.title.value)];
      }
      if change.allMembers.Some? {
        nodes := nodes[node := nodes[node].(allMembers := change.allMembers.value)];
      }
    }

    // _move_node.
    method MoveNode(rows: seq<NodeId>, node: NodeId, parent: Option<NodeId>, position: Option<int>)
        returns (error: Option<KB.Error>)
      requires IsListing(nodes, rows) && node in nodes
      modifies this`nodes
      ensures error == KB.MoveError(old(nodes), node, parent)
      ensures nodes == if error.Some? then old(nodes)
          else Moved(old(nodes), node, parent, KB.MovedPosition(old(nodes), node, parent, position))
    {
      if parent == Some(node) {
        return Some(KB.Cycle);
      }
      if parent.Some? {
        if parent.value !in nodes {
          return Some(KB.NodeNotFound);
        }
        var ancestors := AncestorIds(nodes, parent.value);
        if node in ancestors {
          return Some(KB.Cycle);
        }
      }
      var movedParent := parent != nodes[node].parent;
      var p := nodes[node].position;
      if position.Some? {
        p := position.value;
      } else if movedParent {
        p := NextPosition(rows, parent, Some(node));
      }
      nodes := nodes[node := nodes[node].(parent := parent, position := p)];
      error := None;
    }

    method DeleteNode(rows: seq<NodeId>, root: NodeId, stuck: set<FileId>) returns (r: Result<NodeId, KB.Error>)
      requires IsListing(nodes, rows)
      requires Valid()
      modifies this
      ensures Valid()
      ensures (State(), r) == KB.DeleteNode(old(State()), root, stuck)
    {
      KB.ApplyKeeps(State(), KB.Delete(root, stuck));
      if root !in nodes {
        return Err(KB.NodeNotFound);
      }
      var subtree := CollectSubtreeIds(nodes, rows, root);
      var fileIds := set f | f in registry && registry[f] in subtree;
      assert fileIds == KB.FilesBelow(Tables(), root);
      RemoveFiles(fileIds, stuck);
      nodes := nodes - subtree;
      r := Ok(root);
    }

    method ReorderNodes(parent: Option<NodeId>, ordered: seq<NodeId>) returns (r: Result<int, KB.Error>)
      requires Valid()
      modifies this
      ensures Valid()
      ensures (State(), r) == KB.ReorderNodes(old(State()), parent, ordered)
    {
      KB.ApplyKeeps(State(), KB.Reorder(parent, ordered));
      if parent.Some? && parent.value !in nodes {
        return Err(KB.NodeNotFound);
      }
      var actual := set x | x in nodes && nodes[x].parent == parent;
      assert actual == KB.ChildSet(nodes, parent);
      for i := 0 to |ordered|
        invariant State() == old(State())
        invariant forall j :: 0 <= j < i ==> ordered[j] in actual
      {
        if ordered[i] !in actual {
          return Err(KB.NodeNotFound);
        }
      }
      if |ordered| != |actual| || Members(ordered) != actual {
        return Err(KB.ValidationError);
      }
      MembersSize(ordered);
      forall x | x in ordered ensures x in nodes {
        assert x in actual;
      }
      Renumber(ordered);
      r := Ok(|ordered|);
    }

    method Renumber(ordered: seq<NodeId>)
      requires Distinct(ordered) && forall x :: x in ordered ==> x in nodes
      modifies this`nodes
      ensures nodes == KB.Reordered(old(nodes), ordered)
    {
      for i := 0 to |ordered|
        invariant nodes == KB.Reordered(old(nodes), ordered[..i])
      {
        assert ordered[i] in ordered;
        KB.ReorderedNext(old(nodes), ordered, i);
        nodes := nodes[ordered[i] := nodes[ordered[i]].(position := i)];
      }
      assert ordered[..|ordered|] == ordered;
    }

    method UploadFile(f: FileId, knowledge: bool, ours: bool)
      requires Valid() && f !in files && f !in objects
      modifies this
      ensures Valid()
      ensures State() == KB.UploadFile(old(State()), f, knowledge, ours)
    {
      KB.ApplyKeeps(State(), KB.Upload(f, knowledge, ours));
      objects := objects + {f};
      files := files[f := KB.FileRow(knowledge, ours, false)];
    }

    method DiscardFile(f: FileId, stuck: set<FileId>) returns (r: Result<FileId, KB.Error>)
      requires Valid()
      modifies this
      ensures Valid()
      ensures (State(), r) == KB.DiscardFile(old(State()), f, stuck)
    {
      KB.ApplyKeeps(State(), KB.Discard(f, stuck));
      if f !in files {
        return Err(KB.FileNotFound);
      }
      if files[f].attached {
        return Err(KB.FileInUse);
      }
      if f !in stuck {
        objects := objects - {f};
      }
      files := files - {f};
      assert objects == old(objects) - ({f} - stuck);
      r := Ok(f);
    }
  }
}
