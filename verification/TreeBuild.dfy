/** The whole-document merge's own replay of a tree: same cycle rule, another walk. */
module TreeBuilds {
  import opened Common
  import opened OpSort
  import opened TreeShapes
  import opened TreeKids
  import opened TreeIndices
  import opened TreeTurns

  /** The current placements and how many nodes hang under each node; the top level is not counted. */
  ghost predicate CountsBelow(nodes: Places, counts: map<Parent, int>) {
    forall p: Parent :: p != Top ==> CountAt(counts, p) == |ChildSet(nodes, p)|
  }

  /** Decides Above(current, node, parent). */
  method WouldCycle(current: Places, childCount: map<Parent, int>, node: Id, parent: Id) returns (c: bool)
    requires Acyclic(current) && CountsBelow(current, childCount)
    ensures c <==> Above(current, node, parent)
  {
    hide Acyclic, Above, Up, ChildSet;
    SelfAbove(current, node);
    if parent == node { return true; }
    assert CountAt(childCount, Under(node)) == |ChildSet(current, Under(node))|;
    SkipWalk(current, childCount, node, parent);
    if CountAt(childCount, Under(node)) == 0 { return false; }
    var at := parent;
    ghost var k: nat := 0;
    UpStart(current, parent);
    WalkEnds(current, parent, 0);
    while true
      invariant Up(current, parent, k) == Some(at) && k <= |current|
      invariant forall j: nat :: j < k ==> Up(current, parent, j) != Some(node)
      decreases |current| - k
    {
      if at == node {
        IsAbove(current, node, parent, k);
        return true;
      }
      UpNext(current, parent, k);
      if at !in current || !current[at].parent.Under? {
        NotAbove(current, node, parent, k + 1);
        return false;
      }
      at := current[at].parent.id;
      k := k + 1;
      WalkEnds(current, parent, k);
    }
  }

  /** Placements of all nodes after a container's ops are applied in order. */
  method BuildTree(ops: seq<TreeOp>) returns (current: Places)
    requires Stamped(ops, StampOf)
    ensures current == TreeOf(ops) && Acyclic(current)
    ensures exists order :: InTurn(order, ops) && PlacedByLast(order, current)
  {
    hide CountsBelow, Acyclic, Cyclic, Above, SortedOps, Stamped, Replay, InTurn, PlacedByLast;
    TreeTurn(ops);
    var sorted := SortedOps(ops, StampOf);
    current := map[];
    var childCount: map<Parent, int> := map[];
    NothingBelow();
    for i := 0 to |sorted|
      invariant current == Replay(sorted[..i]) && CountsBelow(current, childCount) && Acyclic(current)
    {
      ReplayNext(sorted, i);
      var op := sorted[i];
      StepAcyclic(current, op);
      var cyclic := false;
      CyclicIs(current, op);
      if op.place.parent.Under? { cyclic := WouldCycle(current, childCount, op.node, op.place.parent.id); }
      if !cyclic {
        CountsMoved(current, childCount, op.node, op.place);
        if op.node in current && current[op.node].parent != Top {
          childCount := childCount[current[op.node].parent := CountAt(childCount, current[op.node].parent) - 1];
        }
        if op.place.parent != Top {
          childCount := childCount[op.place.parent := CountAt(childCount, op.place.parent) + 1];
        }
        current := current[op.node := op.place];
      }
    }
    assert sorted[..|sorted|] == sorted;
  }

  lemma {:induction false} CyclicIs(nodes: Places, op: TreeOp)
    ensures Cyclic(nodes, op) <==> op.place.parent.Under? && Above(nodes, op.node, op.place.parent.id)
  {
  }

  lemma {:induction false} NothingBelow()
    ensures CountsBelow(map[], map[]) && Acyclic(map[]) && Replay([]) == map[]
  {
    NothingCyclic();
    forall p: Parent ensures CountAt(map[], p) == |ChildSet(map[], p)| { assert ChildSet(map[], p) == {}; }
  }

  /** The counts kept as a node moves: one less where it was, one more where it is. */
  lemma {:induction false} CountsMoved(nodes: Places, counts: map<Parent, int>, n: Id, place: Place)
    requires CountsBelow(nodes, counts)
    ensures var less := if n in nodes && nodes[n].parent != Top then counts[nodes[n].parent := CountAt(counts, nodes[n].parent) - 1] else counts;
      var more := if place.parent != Top then less[place.parent := CountAt(less, place.parent) + 1] else less;
      CountsBelow(nodes[n := place], more)
  {
    hide ChildSet;
    var now := nodes[n := place];
    var less := if n in nodes && nodes[n].parent != Top then counts[nodes[n].parent := CountAt(counts, nodes[n].parent) - 1] else counts;
    var more := if place.parent != Top then less[place.parent := CountAt(less, place.parent) + 1] else less;
    forall p: Parent | p != Top ensures CountAt(more, p) == |ChildSet(now, p)| {
      ChildrenMoved(nodes, n, place, p);
      assert CountAt(counts, p) == |ChildSet(nodes, p)|;
    }
  }
}
