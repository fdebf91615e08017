/** Which moves of a tree stand: turn by turn from the lowest lamport up, the last that closed no cycle. */
module TreeTurns {
  import opened Common
  import opened OpSort
  import opened FracIndices
  import opened TreeShapes
  import opened TreeKids

  /** All the ops, each before those of a higher lamport and, at one lamport, before those of a higher peer. */
  ghost predicate InTurn(order: seq<TreeOp>, ops: seq<TreeOp>) {
    && multiset(order) == multiset(ops)
    && forall i, j :: 0 <= i < j < |order| ==>
         order[i].place.lamport < order[j].place.lamport
         || (order[i].place.lamport == order[j].place.lamport && order[i].place.peer < order[j].place.peer)
  }

  /** When its turn comes, the move does not put its node under itself or a node below it. */
  ghost predicate TakesEffect(order: seq<TreeOp>, i: nat)
    requires i < |order|
  {
    !(order[i].place.parent.Under? && Above(Replay(order[..i]), order[i].node, order[i].place.parent.id))
  }

  /** The i-th op is the last move of x that takes effect, and puts x at that place. */
  ghost predicate LastPuts(order: seq<TreeOp>, i: nat, x: Id, place: Place) {
    && i < |order| && order[i] == TreeOp(x, place) && TakesEffect(order, i)
    && forall j :: i < j < |order| && order[j].node == x ==> !TakesEffect(order, j)
  }

  /** The nodes are those with a move that takes effect, each where the last such put it. */
  ghost predicate PlacedByLast(order: seq<TreeOp>, nodes: Places) {
    && (forall i :: 0 <= i < |order| && TakesEffect(order, i) ==> order[i].node in nodes)
    && (forall x: Id :: x in nodes ==> exists i: nat :: LastPuts(order, i, x, nodes[x]))
  }

  lemma {:induction false} EffectBefore(order: seq<TreeOp>, i: nat, n: nat)
    requires i < n <= |order|
    ensures TakesEffect(order[..n], i) <==> TakesEffect(order, i)
  {
    assert order[..n][..i] == order[..i];
  }

  lemma {:induction false} StepEffect(order: seq<TreeOp>)
    requires order != []
    ensures var n := |order| - 1; Replay(order) == if TakesEffect(order, n) then Replay(order[..n])[order[n].node := order[n].place] else Replay(order[..n])
  {
    hide Above;
  }

  lemma {:induction false} LastStays(order: seq<TreeOp>, i: nat, x: Id, place: Place)
    requires order != [] && LastPuts(order[..|order| - 1], i, x, place)
    requires order[|order| - 1].node != x || !TakesEffect(order, |order| - 1)
    ensures LastPuts(order, i, x, place)
  {
    hide TakesEffect;
    var n := |order| - 1;
    EffectBefore(order, i, n);
    forall j | i < j < |order| && order[j].node == x ensures !TakesEffect(order, j) {
      if j < n { EffectBefore(order, j, n); assert order[..n][j] == order[j]; }
    }
  }

  /** Replaying moves in any order leaves each node where the last of its moves that took effect put it. */
  lemma {:induction false} ReplayPlaces(order: seq<TreeOp>)
    ensures PlacedByLast(order, Replay(order))
  {
    hide TakesEffect, PlacedByLast, Replay;
    if order == [] {
      NothingPlaced();
    } else {
      ReplayPlaces(order[..|order| - 1]);
      PlacesNext(order);
    }
  }

  lemma {:induction false} PlacesNext(order: seq<TreeOp>)
    requires order != [] && PlacedByLast(order[..|order| - 1], Replay(order[..|order| - 1]))
    ensures PlacedByLast(order, Replay(order))
  {
    hide TakesEffect, LastPuts, Replay;
    var n := |order| - 1;
    var p, was, now := order[..n], Replay(order[..n]), Replay(order);
    StepEffect(order);
    forall i | 0 <= i < |order| && TakesEffect(order, i) ensures order[i].node in now {
      if i < n { EffectBefore(order, i, n); assert p[i] == order[i]; }
    }
    forall x | x in now ensures exists i: nat :: LastPuts(order, i, x, now[x]) {
      if TakesEffect(order, n) && order[n].node == x {
        LastIs(order);
      } else {
        var i: nat :| LastPuts(p, i, x, was[x]);
        LastStays(order, i, x, was[x]);
      }
    }
  }

  lemma {:induction false} LastIs(order: seq<TreeOp>)
    requires order != [] && TakesEffect(order, |order| - 1)
    ensures LastPuts(order, |order| - 1, order[|order| - 1].node, order[|order| - 1].place)
  {
    hide TakesEffect;
  }

  lemma {:induction false} NothingPlaced()
    ensures PlacedByLast([], Replay([]))
  {
  }

  /** A tree's state: the turns of its ops, lowest lamport and peer first. */
  lemma {:induction false} TreeTurn(ops: seq<TreeOp>)
    requires Stamped(ops, StampOf)
    ensures exists order :: InTurn(order, ops) && PlacedByLast(order, TreeOf(ops)) && TreeOf(ops) == Replay(order)
  {
    hide PlacedByLast, Replay;
    var order := SortedOps(ops, StampOf);
    SortedInOrder(ops, StampOf);
    ReplayPlaces(order);
    assert InTurn(order, ops);
  }

  /** Two authors, neither having seen the other, put A below B and B below A at one lamport: the lower peer's move stands,
      and B stays where it was. */
  lemma {:induction false} CrossingMoves(ops: seq<TreeOp>, a: TreeOp, b: TreeOp, all: seq<TreeOp>)
    requires a.place.parent == Under(b.node) && b.place.parent == Under(a.node) && a.node != b.node
    requires a.place.lamport == b.place.lamport && a.place.peer < b.place.peer
    requires forall x :: x in ops ==> x.place.lamport < a.place.lamport
    requires Stamped(ops, StampOf) && !Above(TreeOf(ops), a.node, b.node)
    requires multiset(all) == multiset(ops + [a, b]) && Stamped(all, StampOf)
    ensures TreeOf(all) == TreeOf(ops)[a.node := a.place]
  {
    hide SortedOps, Replay, Above, Stamped, Acyclic;
    var one, two := ops + [a], ops + [a, b];
    assert two == one + [b];
    StampedNext(ops, a);
    StampedNext(one, b);
    SameTree(all, two);
    TreeNext(ops, a);
    TreeNext(one, b);
    ChildBelow(TreeOf(one), a, b.node);
  }

  lemma {:induction false} ChildBelow(nodes: Places, a: TreeOp, p: Id)
    requires a.node in nodes && nodes[a.node] == a.place && a.place.parent == Under(p)
    ensures Above(nodes, p, a.node)
  {
    assert Up(nodes, p, 0) == Some(p);
    assert Up(nodes, a.node, 1) == Some(p);
  }

  // ----- siblings -----

  /** Byte order: the first byte that differs decides, or a proper prefix comes first. */
  lemma {:induction false} LessAt(a: Bytes, b: Bytes)
    ensures Less(a, b) <==> exists n: nat :: n <= |a| && n < |b| && a[..n] == b[..n] && (n == |a| || a[n] < b[n])
  {
    if Less(a, b) {
      var n := LessFirst(a, b);
    }
    if n: nat :| n <= |a| && n < |b| && a[..n] == b[..n] && (n == |a| || a[n] < b[n]) { FirstLess(a, b, n); }
  }

  lemma {:induction false} LessFirst(a: Bytes, b: Bytes) returns (n: nat)
    requires Less(a, b)
    ensures n <= |a| && n < |b| && a[..n] == b[..n] && (n == |a| || a[n] < b[n])
  {
    if |a| == 0 || a[0] < b[0] {
      n := 0;
    } else {
      var m := LessFirst(a[1..], b[1..]);
      n := m + 1;
      assert a[..n] == [a[0]] + a[1..][..m] && b[..n] == [b[0]] + b[1..][..m];
    }
  }

  lemma {:induction false} FirstLess(a: Bytes, b: Bytes, n: nat)
    requires n <= |a| && n < |b| && a[..n] == b[..n] && (n == |a| || a[n] < b[n])
    ensures Less(a, b)
  {
    if n > 0 {
      assert a[0] == a[..n][0] && b[0] == b[..n][0];
      assert a[1..][..n - 1] == a[..n][1..] && b[1..][..n - 1] == b[..n][1..];
      FirstLess(a[1..], b[1..], n - 1);
    }
  }

  /** Siblings stand by fractional index; those with equal ones by ascending lamport of the move that put them there, at one
      lamport by ascending peer. */
  lemma {:induction false} SiblingsInOrder(nodes: Places, children: map<Parent, seq<Id>>, p: Parent, i: nat, j: nat)
    requires Indexed(nodes, children) && p != Trash && i < j < |ListAt(children, p)|
    ensures ListAt(children, p)[i] in nodes && ListAt(children, p)[j] in nodes
    ensures var x, y := nodes[ListAt(children, p)[i]], nodes[ListAt(children, p)[j]];
      && (x.fi == y.fi ==> x.lamport < y.lamport || (x.lamport == y.lamport && x.peer < y.peer))
      && (x.fi != y.fi ==> exists n: nat :: n <= |x.fi| && n < |y.fi| && x.fi[..n] == y.fi[..n] && (n == |x.fi| || x.fi[n] < y.fi[n]))
  {
    hide Less;
    KidsAt(nodes, children, p);
    var kids := ListAt(children, p);
    assert PlaceBefore(nodes[kids[i]], nodes[kids[j]]);
    LessAt(nodes[kids[i]].fi, nodes[kids[j]].fi);
  }
}
