/** Creating, moving and deleting tree nodes: each edit changes the children lists as a list edit would. */
module TreeEdits {
  import opened Common
  import opened FracIndices
  import opened OpSort
  import opened TreeShapes
  import opened TreeKids
  import opened TreeIndices
  import opened TreeSplices

  datatype TreeError = OutOfBounds | NoNode | Deleted | OwnAncestor | NoRoom

  class Tree {
    const peer: nat
    const index: TreeIndex
    var nextCounter: int
    var lamport: int

    /** The next op is later than all in the tree, and names no node yet. */
    ghost predicate Valid()
      reads this, index
    {
      index.Valid() && Behind(index.history, lamport) && Unused(index.nodes, peer, nextCounter)
    }

    constructor (peer: nat, index: TreeIndex, nextCounter: int, lamport: int)
      requires index.Valid() && Behind(index.history, lamport) && Unused(index.nodes, peer, nextCounter)
      ensures Valid() && this.index == index && this.peer == peer
    {
      this.peer, this.index, this.nextCounter, this.lamport := peer, index, nextCounter, lamport;
    }

    /** One more op at the clock: the placements take one Step. */
    method Put(node: Id, parent: Parent, fi: Bytes)
      requires Valid() && Known(node, peer, nextCounter + 1) && KnownParent(parent, peer, nextCounter)
      modifies this`nextCounter, this`lamport, index
      ensures Valid() && lamport == old(lamport) + 1 && nextCounter == old(nextCounter) + 1
      ensures index.nodes == Step(old(index.nodes), TreeOp(node, Place(parent, fi, old(lamport), peer)))
    {
      hide TreeIndex.Valid, Step, Unused, Behind, Sooner, Known;
      var op := TreeOp(node, Place(parent, fi, lamport, peer));
      NextIsLater(index.history, lamport, op);
      UnusedNext(index.nodes, peer, nextCounter, op);
      index.ApplyLocal(op);
      lamport, nextCounter := lamport + 1, nextCounter + 1;
    }

    /** The parent's children without target, in order. */
    method Rest(target: Id, parent: Parent) returns (rest: seq<Id>)
      requires Valid() && parent != Trash
      ensures rest == Others(ListAt(index.children, parent), target)
      ensures KidsBut(index.nodes, parent, target, rest)
    {
      hide Unused, CountsRight, Indexed, Ranked;
      var all := ListAt(index.children, parent);
      var skip := |all|;
      if target in index.nodes && index.nodes[target].parent == parent { skip := index.IndexOf(target); }
      rest := if skip < |all| then Removed(all, skip) else all;
      RestIs(index.nodes, index.children, parent, target, skip);
    }

    /** m + 1 indexes that Rise strictly between the siblings at i - 1 and i + m: for target, and for the m siblings
        from i on, which leave no gap there. */
    method Positions(target: Id, parent: Parent, i: nat) returns (r: Option<seq<Bytes>>, ids: seq<Id>, ghost m: nat)
      requires Valid() && parent != Trash && i <= |Others(ListAt(index.children, parent), target)|
      ensures var rest := Others(ListAt(index.children, parent), target);
        && i + m <= |rest| && ids == [target] + rest[i..i + m] && KidsBut(index.nodes, parent, target, rest)
        && (r.Some? ==> |r.value| == m + 1 && Rises(FiAt(index.nodes, rest, i - 1), r.value, FiAt(index.nodes, rest, i + m)))
        && (AllEnd(index.nodes) ==> r.Some?)
    {
      hide Unused, Behind, TreeIndex.Valid, Ranked, KidsBut, NewOf, SpreadOf, Less, Rises, AllEnd, Others;
      var rest := Rest(target, parent);
      var n := |rest|;
      ids, m := [target], 0;
      if n == 0 {
        FirstChild(index.nodes);
        return Some([[TERMINATOR]]), ids, m;
      }
      KidsThere(index.nodes, parent, target, rest);
      var left := if i > 0 then Some(index.nodes[rest[i - 1]].fi) else None;
      var right := if i < n then Some(index.nodes[rest[i]].fi) else None;
      var next := right;
      if left.Some? && left == right {
        ids, m, next := SameFrom(rest, i, left.value, ids);
      }
      Bounds(index.nodes, parent, target, rest, i, m);
      if |ids| == 1 {
        var fi := New(left, right);
        OneRises(left, right);
        return if fi.None? then None else Some([fi.value]), ids, m;
      }
      r := Evenly(left, next, |ids|);
      SpreadRises(left, next, |ids|);
    }

    /** The children from i on that share left's index, and the first other index after them. */
    method SameFrom(rest: seq<Id>, i: nat, left: Bytes, ids: seq<Id>) returns (more: seq<Id>, ghost m: nat, next: Option<Bytes>)
      requires i < |rest| && (forall k :: 0 <= k < |rest| ==> rest[k] in index.nodes) && index.nodes[rest[i]].fi == left
      ensures 1 <= m && i + m <= |rest| && more == ids + rest[i..i + m] && next == FiAt(index.nodes, rest, i + m)
      ensures forall k :: i <= k < i + m ==> index.nodes[rest[k]].fi == left
      ensures next != Some(left)
    {
      more, m, next := ids + [rest[i]], 1, None;
      var k := i + 1;
      while k < |rest|
        invariant i < k <= |rest| && m == k - i && more == ids + rest[i..k] && next == None
        invariant forall j :: i <= j < k ==> index.nodes[rest[j]].fi == left
      {
        var f := index.nodes[rest[k]].fi;
        if f != left { return more, m, Some(f); }
        more := more + [rest[k]];
        assert rest[i..k + 1] == rest[i..k] + [rest[k]];
        k, m := k + 1, m + 1;
      }
    }

    lemma {:induction false} IndexAcyclic()
      requires index.Valid()
      ensures Acyclic(index.nodes) && CountsRight(index.nodes, index.childCount)
    {
      TreeApart(index.history);
    }

    lemma {:induction false} IndexLists()
      requires index.Valid()
      ensures Indexed(index.nodes, index.children)
    {
    }

    /** Puts each node under parent at its index, in turn. */
    method PutAll(ids: seq<Id>, parent: Parent, fis: seq<Bytes>, ghost rest: seq<Id>, ghost i: nat, ghost m: nat)
      requires Valid() && |fis| == |ids| == m + 1 && i + m <= |rest| && parent != Trash
      requires ids == [ids[0]] + rest[i..i + m] && KidsBut(index.nodes, parent, ids[0], rest)
      requires Known(ids[0], peer, nextCounter + 1) && KnownParent(parent, peer, nextCounter)
      requires !Cyclic(index.nodes, TreeOp(ids[0], Place(parent, fis[0], lamport, peer)))
      modifies this`nextCounter, this`lamport, index
      ensures Valid() && index.nodes == PlacedAll(old(index.nodes), ids, fis, parent, old(lamport), peer)
    {
      hide Unused, Above, Acyclic, Cyclic, KidsBut, PlacedAll, TreeIndex.Valid, Behind, Known;
      ghost var n0, l0 := index.nodes, lamport;
      ghost var c0 := nextCounter;
      assert ids[..0] == [] && fis[..0] == [];
      NonePlaced(n0, parent, l0, peer);
      for k := 0 to |ids|
        invariant Valid() && lamport == l0 + k && nextCounter == c0 + k
        invariant index.nodes == PlacedAll(n0, ids[..k], fis[..k], parent, l0, peer)
      {
        PlaceNext(n0, ids, fis, parent, l0, peer, k);
        IdsKnown(n0, parent, ids, rest, i, m, peer, c0, k);
        IndexAcyclic();
        NotCyclic(n0, ids, fis, parent, rest, i, m, l0, peer, k);
        Put(ids[k], parent, fis[k]);
      }
      assert ids[..|ids|] == ids && fis[..|fis|] == fis;
    }

    /** Finds room for target as child number i of parent and puts it there: nothing but that changes
        in any list, and siblings given new indexes keep their order. */
    method Splice(target: Id, parent: Parent, i: nat) returns (ok: bool)
      requires Valid() && parent != Trash && i <= |Others(ListAt(index.children, parent), target)|
      requires Known(target, peer, nextCounter + 1) && KnownParent(parent, peer, nextCounter)
      requires parent.Under? ==> !Above(index.nodes, target, parent.id)
      modifies this`nextCounter, this`lamport, index
      ensures Valid() && (old(AllEnd(index.nodes)) ==> ok && AllEnd(index.nodes))
      ensures ok ==> Spliced(old(index.children), index.children, target, parent, i)
      ensures ok ==> index.nodes.Keys == old(index.nodes.Keys) + {target} && index.nodes[target].parent == parent
      ensures !ok ==> index.nodes == old(index.nodes) && index.children == old(index.children)
    {
      hide Unused, Behind, TreeIndex.Valid, Above, Acyclic, KidsBut, PlacedAll, Indexed, Rises, AllEnd, Ranked, Spliced, Others;
      IndexLists();
      var fis, ids, m := Positions(target, parent, i);
      if fis.None? { return false; }
      ghost var rest, n0, c0 := Others(ListAt(index.children, parent), target), index.nodes, index.children;
      ghost var l0 := lamport;
      PutAll(ids, parent, fis.value, rest, i, m);
      IndexLists();
      SplicedIs(n0, index.nodes, c0, index.children, parent, rest, i, m, ids, fis.value, l0, peer);
      return true;
    }

    /** Adds a node as child number i of parent. */
    method CreateAt(parent: Parent, i: int) returns (r: Result<Id, TreeError>)
      requires Valid() && parent != Trash
      modifies this`nextCounter, this`lamport, index
      ensures Valid() && (old(AllEnd(index.nodes)) ==> r != Err(NoRoom) && AllEnd(index.nodes))
      ensures r == Err(OutOfBounds) <==> !(0 <= i <= |old(ListAt(index.children, parent))|)
      ensures r == Err(NoNode) <==> 0 <= i <= |old(ListAt(index.children, parent))| && parent.Under? && parent.id !in old(index.nodes)
      ensures r.Ok? ==> r.value !in old(index.nodes) && index.nodes.Keys == old(index.nodes.Keys) + {r.value}
      ensures r.Ok? ==> 0 <= i <= |old(ListAt(index.children, parent))|
      ensures r.Ok? ==> ListAt(index.children, parent) == Inserted(old(ListAt(index.children, parent)), i, r.value)
      ensures r.Ok? ==> forall q: Parent :: q != Trash && q != parent ==> ListAt(index.children, q) == ListAt(old(index.children), q)
      ensures r.Err? ==> index.nodes == old(index.nodes) && index.children == old(index.children)
    {
      hide Unused, Behind, TreeIndex.Valid, Above, Indexed, AllEnd, Others, Inserted;
      IndexLists();
      if i < 0 || i > |ListAt(index.children, parent)| { return Err(OutOfBounds); }
      if parent.Under? && parent.id !in index.nodes { return Err(NoNode); }
      var target := Id(peer, nextCounter);
      if parent.Under? { AllKnown(index.nodes, peer, nextCounter, parent.id); }
      ghost var c0 := index.children;
      NewNode(index.nodes, c0, peer, nextCounter, parent);
      var ok := Splice(target, parent, i);
      if !ok { return Err(NoRoom); }
      return Ok(target);
    }

    /** Puts node under parent as child number i, counted without the node; where it already is, no op. */
    method Move(node: Id, parent: Parent, i: int) returns (r: Option<TreeError>)
      requires Valid() && parent != Trash
      modifies this`nextCounter, this`lamport, index
      ensures Valid() && (old(AllEnd(index.nodes)) ==> r != Some(NoRoom) && AllEnd(index.nodes))
      ensures r == Some(OutOfBounds) <==> !(0 <= i <= |Others(old(ListAt(index.children, parent)), node)|)
      ensures r == None ==> i >= 0 && Spliced(old(index.children), index.children, node, parent, i)
      ensures r == None ==> index.nodes.Keys == old(index.nodes.Keys) && node in index.nodes && index.nodes[node].parent == parent
      ensures r != None ==> index.nodes == old(index.nodes) && index.children == old(index.children)
      ensures r == Some(Deleted) ==> node !in old(index.nodes) || old(index.nodes)[node].parent == Trash
      ensures r == Some(NoNode) ==> parent.Under? && parent.id !in old(index.nodes)
      ensures r == Some(OwnAncestor) ==> parent.Under? && Above(old(index.nodes), node, parent.id)
      ensures r == None ==> node in old(index.nodes) && old(index.nodes)[node].parent != Trash
      ensures r == None && parent.Under? ==> !Above(old(index.nodes), node, parent.id)
      ensures r == None && parent.Under? ==> parent.id in old(index.nodes) || index.nodes == old(index.nodes)
    {
      hide Unused, Behind, TreeIndex.Valid, Above, Acyclic, Indexed, AllEnd, Others, Spliced, CountsRight;
      IndexLists();
      IndexAcyclic();
      ghost var n0, c0 := index.nodes, index.children;
      var n := |ListAt(index.children, parent)|;
      OthersSize(n0, c0, parent, node);
      if node in index.nodes && index.nodes[node].parent == parent {
        var at := index.IndexOf(node);
        if at == i {
          InPlace(n0, c0, parent, node, i);
          if parent.Under? { ChildNotAbove(n0, node); }
          return None;
        }
        n := n - 1;
      }
      if i < 0 || i > n { return Some(OutOfBounds); }
      if node !in index.nodes || index.nodes[node].parent == Trash { return Some(Deleted); }
      if parent.Under? {
        if parent.id !in index.nodes { return Some(NoNode); }
        var own := index.Closes(TreeOp(node, Place(parent, [], lamport, peer)));
        if own { return Some(OwnAncestor); }
      }
      AllKnown(n0, peer, nextCounter, node);
      if parent.Under? { AllKnown(n0, peer, nextCounter, parent.id); }
      var ok := Splice(node, parent, i);
      if !ok { return Some(NoRoom); }
      assert index.nodes.Keys == n0.Keys;
      return None;
    }

    /** Puts a node in the trash: exactly the nodes it is Above of stop being Live. */
    method Delete(node: Id) returns (r: Option<TreeError>)
      requires Valid()
      modifies this`nextCounter, this`lamport, index
      ensures Valid() && (r == None <==> node in old(index.nodes) && old(index.nodes)[node].parent != Trash)
      ensures old(AllEnd(index.nodes)) ==> AllEnd(index.nodes)
      ensures r == None ==> forall x: Id :: Above(index.nodes, node, x) ==> !Live(index.nodes, x)
      ensures r == None ==> forall x: Id :: !Above(index.nodes, node, x) ==> (Live(index.nodes, x) <==> Live(old(index.nodes), x))
      ensures r == None ==> forall q: Parent :: q != Trash ==> ListAt(index.children, q) == Others(ListAt(old(index.children), q), node)
      ensures r != None ==> index.nodes == old(index.nodes) && index.children == old(index.children)
    {
      hide Unused, Behind, TreeIndex.Valid, Above, Indexed, Live, Others;
      IndexLists();
      ghost var n0, c0 := index.nodes, index.children;
      var at := index.IndexOf(node);
      if at < 0 { return Some(Deleted); }
      AllKnown(n0, peer, nextCounter, node);
      ghost var place := Place(Trash, [], lamport, peer);
      Put(node, Trash, []);
      IndexLists();
      forall q: Parent | q != Trash ensures ListAt(index.children, q) == Others(ListAt(c0, q), node) {
        DeletedList(n0, c0, index.children, node, place, q);
      }
      forall x: Id ensures Above(index.nodes, node, x) ==> !Live(index.nodes, x)
        ensures !Above(index.nodes, node, x) ==> (Live(index.nodes, x) <==> Live(n0, x))
      {
        DeletedWith(n0, node, place, x);
      }
      return None;
    }
  }
}
