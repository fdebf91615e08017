/** Placements of a movable tree's nodes: ancestors, cycles, child counts, and what a move keeps. */
module TreeShapes {
  import opened Common
  import opened FracIndices
  import opened OpSort

  /** Where a node hangs: at the top level, in the trash once deleted, or under a node. */
  datatype Parent = Top | Trash | Under(id: Id)

  /** Where the move with this (lamport, peer) put a node, and at which fractional index. */
  datatype Place = Place(parent: Parent, fi: Bytes, lamport: int, peer: nat)

  datatype TreeOp = TreeOp(node: Id, place: Place)

  type Places = map<Id, Place>

  // ----- ancestors -----

  /** The node k levels above x. */
  ghost function Up(nodes: Places, x: Id, k: nat): Option<Id>
    decreases k
  {
    if k == 0 then Some(x)
    else if x in nodes && nodes[x].parent.Under? then Up(nodes, nodes[x].parent.id, k - 1)
    else None
  }

  /** a is x or above it. */
  ghost predicate Above(nodes: Places, a: Id, x: Id) {
    exists k: nat :: Up(nodes, x, k) == Some(a)
  }

  ghost predicate Acyclic(nodes: Places) {
    forall x: Id, k: nat :: k > 0 ==> Up(nodes, x, k) != Some(x)
  }

  lemma {:induction false} UpAdd(nodes: Places, x: Id, i: nat, j: nat)
    requires Up(nodes, x, i).Some?
    ensures Up(nodes, x, i + j) == Up(nodes, Up(nodes, x, i).value, j)
    decreases i
  {
    if i > 0 { UpAdd(nodes, nodes[x].parent.id, i - 1, j); }
  }

  lemma {:induction false} UpSome(nodes: Places, x: Id, i: nat, k: nat)
    requires i < k && Up(nodes, x, k).Some?
    ensures Up(nodes, x, i).Some? && Up(nodes, x, i).value in nodes
    decreases i
  {
    if i > 0 { UpSome(nodes, nodes[x].parent.id, i - 1, k - 1); }
  }

  /** The first time a walk up comes to a. */
  lemma {:induction false} FirstHit(nodes: Places, x: Id, a: Id, k: nat) returns (i: nat)
    requires Up(nodes, x, k) == Some(a)
    ensures i <= k && Up(nodes, x, i) == Some(a) && forall j: nat :: j < i ==> Up(nodes, x, j) != Some(a)
    decreases k
  {
    if x == a {
      i := 0;
    } else {
      var p := nodes[x].parent.id;
      var h := FirstHit(nodes, p, a, k - 1);
      i := h + 1;
      forall j: nat | j < i ensures Up(nodes, x, j) != Some(a) {
        if j > 0 { assert Up(nodes, x, j) == Up(nodes, p, j - 1); }
      }
    }
  }

  /** A walk that does not pass n does not see where n is put. */
  lemma {:induction false} SameWalk(nodes: Places, now: Places, n: Id, x: Id, k: nat)
    requires n in now && now == nodes[n := now[n]]
    requires forall j: nat :: j < k ==> Up(now, x, j) != Some(n)
    ensures Up(now, x, k) == Up(nodes, x, k)
    decreases k
  {
    if k > 0 {
      assert Up(now, x, 0) != Some(n);
      if x in nodes && nodes[x].parent.Under? {
        var p := nodes[x].parent.id;
        forall j: nat | j < k - 1 ensures Up(now, p, j) != Some(n) { assert Up(now, x, j + 1) == Up(now, p, j); }
        SameWalk(nodes, now, n, p, k - 1);
      }
    }
  }

  /** Where n is put does not change what n is above of. */
  lemma {:induction false} AboveSame(nodes: Places, n: Id, place: Place, x: Id)
    requires Above(nodes[n := place], n, x)
    ensures Above(nodes, n, x)
  {
    var now := nodes[n := place];
    var k: nat :| Up(now, x, k) == Some(n);
    var i := FirstHit(now, x, n, k);
    SameWalk(nodes, now, n, x, i);
  }

  /** A move that does not put a node under itself closes no cycle. */
  lemma {:induction false} MoveAcyclic(nodes: Places, n: Id, place: Place)
    requires Acyclic(nodes) && !(place.parent.Under? && Above(nodes, n, place.parent.id))
    ensures Acyclic(nodes[n := place])
  {
    hide Above, Up;
    var now := nodes[n := place];
    forall x: Id, k: nat | k > 0 ensures Up(now, x, k) != Some(x) {
      if Up(now, x, k) == Some(x) { CycleWas(nodes, n, place, x, k); }
    }
  }

  /** A cycle after a move was there before, or the move closed it. */
  lemma {:induction false} CycleWas(nodes: Places, n: Id, place: Place, x: Id, k: nat)
    requires k > 0 && Up(nodes[n := place], x, k) == Some(x)
    ensures Up(nodes, x, k) == Some(x) || (place.parent.Under? && Above(nodes, n, place.parent.id))
  {
    hide Above;
    var now := nodes[n := place];
    if i: nat :| i < k && Up(now, x, i) == Some(n) {
      UpAdd(now, x, i, k);
      UpAdd(now, x, k, i);
      Reaches(now, n, k);
      AboveSame(nodes, n, place, place.parent.id);
    } else {
      SameWalk(nodes, now, n, x, k);
    }
  }

  lemma {:induction false} Reaches(nodes: Places, n: Id, k: nat)
    requires k > 0 && Up(nodes, n, k) == Some(n)
    ensures n in nodes && nodes[n].parent.Under? && Above(nodes, n, nodes[n].parent.id)
  {
    assert Up(nodes, nodes[n].parent.id, k - 1) == Some(n);
  }

  // ----- how far a walk can go -----

  ghost function Passed(nodes: Places, x: Id, k: nat): set<Id> {
    set j | 0 <= j < k && Up(nodes, x, j).Some? :: Up(nodes, x, j).value
  }

  lemma {:induction false} PassedSize(nodes: Places, x: Id, k: nat)
    requires Acyclic(nodes) && Up(nodes, x, k).Some?
    ensures |Passed(nodes, x, k)| == k
  {
    if k == 0 {
      assert Passed(nodes, x, 0) == {};
    } else {
      UpSome(nodes, x, k - 1, k);
      PassedSize(nodes, x, k - 1);
      var y := Up(nodes, x, k - 1).value;
      assert Passed(nodes, x, k) == Passed(nodes, x, k - 1) + {y};
      if y in Passed(nodes, x, k - 1) {
        var j :| 0 <= j < k - 1 && Up(nodes, x, j) == Some(y);
        UpAdd(nodes, x, j, k - 1 - j);
      }
    }
  }

  /** A walk up takes at most as many steps as there are nodes. */
  lemma {:induction false} WalkEnds(nodes: Places, x: Id, k: nat)
    requires Acyclic(nodes) && Up(nodes, x, k).Some?
    ensures k <= |nodes|
  {
    PassedSize(nodes, x, k);
    if k > 0 { UpSome(nodes, x, k - 1, k); }
    var p := Passed(nodes, x, k);
    forall y | y in p ensures y in nodes.Keys {
      var j :| 0 <= j < k && Up(nodes, x, j) == Some(y);
      UpSome(nodes, x, j, k);
    }
    Subset(p, nodes.Keys);
  }

  lemma {:induction false} Subset<X>(a: set<X>, b: set<X>)
    requires a <= b
    ensures |a| <= |b|
  {
    assert b == a + (b - a) && |a + (b - a)| == |a| + |b - a|;
  }

  // ----- children -----

  ghost function ChildSet(nodes: Places, p: Parent): set<Id> {
    set x | x in nodes && nodes[x].parent == p
  }

  function CountAt(counts: map<Parent, int>, p: Parent): int {
    if p in counts then counts[p] else 0
  }

  /** Every parent's count is the number of nodes under it. */
  ghost predicate CountsRight(nodes: Places, counts: map<Parent, int>) {
    forall p: Parent :: CountAt(counts, p) == |ChildSet(nodes, p)|
  }

  /** A node without children is above nothing but itself, so no walk is needed to know. */
  lemma {:induction false} Childless(nodes: Places, n: Id, x: Id)
    requires ChildSet(nodes, Under(n)) == {}
    ensures Above(nodes, n, x) <==> x == n
  {
    assert Up(nodes, n, 0) == Some(n);
    if x != n && Above(nodes, n, x) {
      var k: nat :| Up(nodes, x, k) == Some(n);
      HasChild(nodes, n, x, k);
    }
  }

  lemma {:induction false} HasChild(nodes: Places, n: Id, x: Id, k: nat)
    requires k > 0 && Up(nodes, x, k) == Some(n)
    ensures exists y :: y in ChildSet(nodes, Under(n))
  {
    UpSome(nodes, x, k - 1, k);
    UpAdd(nodes, x, k - 1, 1);
    var y := Up(nodes, x, k - 1).value;
    assert Up(nodes, y, 1) == Up(nodes, nodes[y].parent.id, 0);
    assert y in ChildSet(nodes, Under(n));
  }

  /** The cycle test that walks only when the node has children. */
  lemma {:induction false} SkipWalk(nodes: Places, counts: map<Parent, int>, n: Id, x: Id)
    requires CountAt(counts, Under(n)) == |ChildSet(nodes, Under(n))|
    ensures Above(nodes, n, x) <==> x == n || (CountAt(counts, Under(n)) > 0 && Above(nodes, n, x))
  {
    hide Above, CountAt;
    SelfAbove(nodes, n);
    if CountAt(counts, Under(n)) <= 0 { Childless(nodes, n, x); }
  }

  lemma {:induction false} SelfAbove(nodes: Places, n: Id)
    ensures Above(nodes, n, n)
  {
    assert Up(nodes, n, 0) == Some(n);
  }

  /** Counts after a move: one less where the node was, one more where it is. */
  function Recount(nodes: Places, counts: map<Parent, int>, n: Id, p: Parent): map<Parent, int> {
    var less := if n in nodes then counts[nodes[n].parent := CountAt(counts, nodes[n].parent) - 1] else counts;
    less[p := CountAt(less, p) + 1]
  }

  lemma {:induction false} RecountRight(nodes: Places, counts: map<Parent, int>, n: Id, place: Place)
    requires CountsRight(nodes, counts)
    ensures CountsRight(nodes[n := place], Recount(nodes, counts, n, place.parent))
  {
    hide ChildSet;
    var now := nodes[n := place];
    forall p: Parent ensures CountAt(Recount(nodes, counts, n, place.parent), p) == |ChildSet(now, p)| {
      ChildrenMoved(nodes, n, place, p);
      assert CountAt(counts, p) == |ChildSet(nodes, p)|;
    }
  }

  lemma {:induction false} ChildrenMoved(nodes: Places, n: Id, place: Place, p: Parent)
    ensures |ChildSet(nodes[n := place], p)| ==
      |ChildSet(nodes, p)| - (if n in nodes && nodes[n].parent == p then 1 else 0) + (if place.parent == p then 1 else 0)
  {
    var was, now := ChildSet(nodes, p), ChildSet(nodes[n := place], p);
    assert now - {n} == was - {n};
    assert n in was <==> n in nodes && nodes[n].parent == p;
    assert n in now <==> place.parent == p;
    SwapOne(was, now, n);
  }

  lemma {:induction false} SwapOne<X>(a: set<X>, b: set<X>, x: X)
    requires a - {x} == b - {x}
    ensures |b| == |a| - (if x in a then 1 else 0) + (if x in b then 1 else 0)
  {
    Without(a, x);
    Without(b, x);
  }

  lemma {:induction false} Without<X>(a: set<X>, x: X)
    ensures |a - {x}| == |a| - if x in a then 1 else 0
  {
    if x !in a { assert a - {x} == a; }
  }

  // ----- replaying moves -----

  /** Putting the node where the op says would make it its own ancestor. */
  ghost predicate Cyclic(nodes: Places, op: TreeOp) {
    op.place.parent.Under? && Above(nodes, op.node, op.place.parent.id)
  }

  /** A move takes effect unless it would close a cycle. */
  ghost function Step(nodes: Places, op: TreeOp): Places {
    if Cyclic(nodes, op) then nodes else nodes[op.node := op.place]
  }

  ghost function Replay(ops: seq<TreeOp>): Places {
    if ops == [] then map[] else Step(Replay(ops[..|ops| - 1]), ops[|ops| - 1])
  }

  lemma {:induction false} StepAcyclic(nodes: Places, op: TreeOp)
    requires Acyclic(nodes)
    ensures Acyclic(Step(nodes, op))
  {
    hide Acyclic, Above;
    if !Cyclic(nodes, op) { MoveAcyclic(nodes, op.node, op.place); }
  }

  /** Whatever moves are replayed, and in whatever order, no node is ever its own ancestor. */
  lemma {:induction false} ReplayAcyclic(ops: seq<TreeOp>)
    ensures Acyclic(Replay(ops))
  {
    if ops == [] {
      NothingCyclic();
    } else {
      ReplayAcyclic(ops[..|ops| - 1]);
      StepAcyclic(Replay(ops[..|ops| - 1]), ops[|ops| - 1]);
    }
  }

  lemma {:induction false} NothingCyclic()
    ensures Acyclic(map[])
  {
    forall x: Id, k: nat | k > 0 ensures Up(map[], x, k) != Some(x) {}
  }

  lemma {:induction false} ReplayNext(ops: seq<TreeOp>, i: nat)
    requires i < |ops|
    ensures Replay(ops[..i + 1]) == Step(Replay(ops[..i]), ops[i])
  {
    assert ops[..i + 1][..i] == ops[..i];
  }

  /** Every placement is that of one of the ops. */
  lemma {:induction false} PlacedBy(ops: seq<TreeOp>, x: Id) returns (i: nat)
    requires x in Replay(ops)
    ensures i < |ops| && ops[i] == TreeOp(x, Replay(ops)[x])
  {
    hide Cyclic;
    var last := |ops| - 1;
    if ops[last] == TreeOp(x, Replay(ops)[x]) {
      i := last;
    } else {
      i := PlacedBy(ops[..last], x);
    }
  }

  // ----- the order of ops -----

  /** Moves differ in lamport or peer, so the counter never decides. */
  function StampOf(op: TreeOp): Stamp { Stamp(op.place.lamport, op.place.peer, 0) }

  /** A tree's state: the ops replayed in order. */
  ghost function TreeOf(ops: seq<TreeOp>): Places { Replay(SortedOps(ops, StampOf)) }

  /** Peers that hold the same ops, however they came by them, hold the same tree. */
  lemma {:induction false} SameTree(a: seq<TreeOp>, b: seq<TreeOp>)
    requires Stamped(a, StampOf) && Stamped(b, StampOf) && multiset(a) == multiset(b)
    ensures TreeOf(a) == TreeOf(b) && Acyclic(TreeOf(a))
  {
    SortedInOrder(a, StampOf);
    SortedInOrder(b, StampOf);
    OneOrder(SortedOps(a, StampOf), SortedOps(b, StampOf), StampOf);
    ReplayAcyclic(SortedOps(a, StampOf));
  }

  /** A local op, later than all the others, is one more step. */
  lemma {:induction false} TreeNext(ops: seq<TreeOp>, op: TreeOp)
    requires forall x :: x in ops ==> Sooner(x, op, StampOf)
    ensures TreeOf(ops + [op]) == Step(TreeOf(ops), op)
  {
    SortedLast(ops, op, StampOf);
    var r := SortedOps(ops, StampOf);
    assert (r + [op])[..|r|] == r;
  }
}
