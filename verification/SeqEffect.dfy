/** The effect of one op: the elements it marks deleted and the run it puts in. */
module SeqEffect {
  import opened Common
  import opened KeyOrder
  import opened SeqTypes
  import opened SeqOrder
  import opened SeqInsert
  import opened SeqReference
  import opened SeqEdits
  import opened SeqFits
  import opened SeqPlan
  import opened Ops

  datatype Place = NoRun | Place(left: Option<Id>, right: Option<Id>, cells: seq<Cell>)

  /** Which elements a delete takes: those of a range of ranks of the author's view, or those of
      the ids it recorded. */
  datatype Marks = NoMarks | ByRank(seen: seq<Id>, low: int, len: int) | ByIds(span: DeleteSpan)

  datatype Effect = Effect(marks: Marks, place: Place)

  const NoEffect := Effect(NoMarks, NoRun)

  /** The delete atom, of the op starting at `id`, that takes element x. */
  ghost function Target(marks: Marks, id: Id, x: Id): Option<Id> {
    match marks
    case NoMarks => None
    case ByRank(seen, low, len) =>
      if exists k :: 0 <= k < |seen| && seen[k] == x && low <= k < low + Size(len) then
        var k :| 0 <= k < |seen| && seen[k] == x && low <= k < low + Size(len);
        Some(Id(id.peer, id.counter + if len < 0 then Size(len) - 1 - (k - low) else k - low))
      else None
    case ByIds(span) =>
      if span.Covers(x) then Some(Id(id.peer, id.counter + span.AtomFor(x.counter))) else None
  }

  ghost function MarkNode(n: Node, t: Option<Id>): Node {
    if t.Some? then AddDeleter(n, t.value) else n
  }

  /** m is n with the marked elements deleted. */
  ghost predicate MarkedBy(n: seq<Node>, marks: Marks, id: Id, m: seq<Node>) {
    |m| == |n| && forall i :: 0 <= i < |n| ==> m[i] == MarkNode(n[i], Target(marks, id, n[i].id))
  }

  // ----- the marks of a delete -----

  lemma {:induction false} SeenDistinct(nodes: seq<Node>, v: View)
    requires Distinct(nodes)
    ensures forall i, j :: 0 <= i < j < |Seen(nodes, v)| ==> Seen(nodes, v)[i] != Seen(nodes, v)[j]
    ensures forall i :: 0 <= i < |Seen(nodes, v)| ==> Seen(nodes, v)[i] in Ids(nodes)
  {
    if nodes != [] {
      SeenDistinct(nodes[..|nodes| - 1], v);
      PrefixIds(nodes, |nodes| - 1);
    }
  }

  lemma {:induction false} SeenVisible(nodes: seq<Node>, v: View, k: nat)
    requires k < |Seen(nodes, v)|
    ensures Visible(nodes[Nth(nodes, v, k)], v) && |Seen(nodes[..Nth(nodes, v, k)], v)| == k
    ensures nodes[Nth(nodes, v, k)].id == Seen(nodes, v)[k]
  {
    NthSeen(nodes, v, k);
  }

  lemma {:induction false} RankTarget(nodes: seq<Node>, v: View, low: nat, len: int, id: Id, i: nat)
    requires Distinct(nodes) && i < |nodes|
    ensures var k := |Seen(nodes[..i], v)| - low;
      Target(ByRank(Seen(nodes, v), low, len), id, nodes[i].id) ==
      if Visible(nodes[i], v) && 0 <= k < Size(len)
      then Some(Id(id.peer, id.counter + if len < 0 then Size(len) - 1 - k else k)) else None
  {
    hide Visible, Seen;
    var seen := Seen(nodes, v);
    SeenDistinct(nodes, v);
    if Visible(nodes[i], v) {
      NthIs(nodes, v, i);
    } else if exists k :: 0 <= k < |seen| && seen[k] == nodes[i].id && low <= k < low + Size(len) {
      var k :| 0 <= k < |seen| && seen[k] == nodes[i].id;
      SeenVisible(nodes, v, k);
      IndexOfIs(nodes, i);
      IndexOfIs(nodes, Nth(nodes, v, k));
    }
  }

  lemma {:induction false} RemoveAtMarks(nodes: seq<Node>, v: View, id: Id, low: nat, len: int)
    requires Distinct(nodes)
    ensures MarkedBy(nodes, ByRank(Seen(nodes, v), low, len), id, RemoveAt(nodes, v, id, low, len))
  {
    hide Target, Seen, Visible, RemoveAt, Distinct;
    var m := RemoveAt(nodes, v, id, low, len);
    forall i | 0 <= i < |nodes|
      ensures m[i] == MarkNode(nodes[i], Target(ByRank(Seen(nodes, v), low, len), id, nodes[i].id))
    {
      RankTarget(nodes, v, low, len, id, i);
      RemovedOne(nodes, v, id, low, len, i);
    }
  }

  lemma {:induction false} RemoveIdsMarks(nodes: seq<Node>, id: Id, span: DeleteSpan)
    ensures MarkedBy(nodes, ByIds(span), id, RemoveIds(nodes, id, span))
  {
  }

  lemma {:induction false} OneMarks(nodes: seq<Node>, v: View, id: Id, from: nat)
    requires Distinct(nodes) && from < |Seen(nodes, v)|
    ensures var src := Nth(nodes, v, from);
      MarkedBy(nodes, ByRank(Seen(nodes, v), from, 1), id, nodes[src := AddDeleter(nodes[src], id)])
  {
    hide Target, Seen, Visible, Distinct;
    var src := Nth(nodes, v, from);
    var m := nodes[src := AddDeleter(nodes[src], id)];
    forall i | 0 <= i < |nodes|
      ensures m[i] == MarkNode(nodes[i], Target(ByRank(Seen(nodes, v), from, 1), id, nodes[i].id))
    {
      RankTarget(nodes, v, from, 1, id, i);
      if Visible(nodes[i], v) && |Seen(nodes[..i], v)| == from { NthIs(nodes, v, i); }
    }
  }

  // ----- deleters do not matter to the order -----

  ghost predicate SameShape(n: seq<Node>, m: seq<Node>) {
    |m| == |n| && forall i :: 0 <= i < |n| ==> n[i].id == m[i].id && n[i].left == m[i].left && n[i].right == m[i].right
  }

  lemma {:induction false} ShapeIds(n: seq<Node>, m: seq<Node>)
    requires SameShape(n, m)
    ensures Ids(m) == Ids(n) && (Distinct(n) ==> Distinct(m))
    ensures Distinct(n) ==> forall x :: x in Ids(n) ==> IndexOf(m, x) == IndexOf(n, x)
  {
    forall x | x in Ids(n) ensures x in Ids(m) {
      var i :| 0 <= i < |n| && n[i].id == x;
      assert m[i].id == x;
    }
    forall x | x in Ids(m) ensures x in Ids(n) {
      var i :| 0 <= i < |m| && m[i].id == x;
      assert n[i].id == x;
    }
  }

  lemma {:induction false} ShapeKeyFor(n: seq<Node>, m: seq<Node>, key: Keys, l: Option<Id>, r: Option<Id>, peer: nat)
    requires SameShape(n, m) && Distinct(n)
    ensures RightParent(m, l, r) == RightParent(n, l, r)
    ensures KeyFor(m, key, l, r, peer) == KeyFor(n, key, l, r, peer)
  {
    ShapeIds(n, m);
  }

  lemma {:induction false} ShapeOrdered(n: seq<Node>, m: seq<Node>, key: Keys)
    requires SameShape(n, m) && Ordered(n, key)
    ensures Ordered(m, key)
  {
    hide KeyFor;
    ShapeIds(n, m);
    ShapeBetween(n, m);
    ShapeSorted(n, m, key);
    forall i | 0 <= i < |m| ensures K(m, key, i) == KeyFor(m, key, m[i].left, m[i].right, m[i].id.peer) {
      ShapeKeyFor(n, m, key, n[i].left, n[i].right, n[i].id.peer);
    }
  }

  lemma {:induction false} ShapeBetween(n: seq<Node>, m: seq<Node>)
    requires SameShape(n, m) && Distinct(n) && BetweenOrigins(n)
    ensures BetweenOrigins(m)
  {
    ShapeIds(n, m);
  }

  lemma {:induction false} ShapeSorted(n: seq<Node>, m: seq<Node>, key: Keys)
    requires SameShape(n, m) && Sorted(n, key)
    ensures Sorted(m, key)
  {
    forall i, j | 0 <= i < j < |m| ensures Less(K(m, key, i), K(m, key, j)) {
      assert K(m, key, i) == K(n, key, i) && K(m, key, j) == K(n, key, j);
    }
  }

  // ----- execution -----

  ghost function NodeAt(nodes: seq<Node>, x: Id): Node
    requires x in Ids(nodes)
  {
    nodes[IndexOf(nodes, x)]
  }

  ghost function RunOf(place: Place, id: Id): seq<Node> {
    if place.NoRun? then [] else Run(id, place.left, place.right, place.cells)
  }

  ghost function KeysAfter(n: seq<Node>, key: Keys, place: Place, id: Id): Keys {
    if place.NoRun? then key
    else WithRun(key, KeyFor(n, key, place.left, place.right, id.peer), RunOf(place, id))
  }

  /** m is what the effect makes of n. */
  ghost predicate Executed(n: seq<Node>, key: Keys, e: Effect, id: Id, m: seq<Node>) {
    var run := RunOf(e.place, id);
    && Ordered(m, KeysAfter(n, key, e.place, id))
    && Ids(m) == Ids(n) + Ids(run)
    && (e.place.Place? ==> Present(n, e.place.left) && Present(n, e.place.right))
    && (forall x :: x in Ids(n) ==> NodeAt(m, x) == MarkNode(NodeAt(n, x), Target(e.marks, id, x)))
    && (forall k :: 0 <= k < |run| ==> run[k].id !in Ids(n) && NodeAt(m, run[k].id) == run[k])
  }

  lemma {:induction false} MarkedExecuted(n: seq<Node>, key: Keys, marks: Marks, id: Id, m: seq<Node>)
    requires Ordered(n, key) && MarkedBy(n, marks, id, m)
    ensures Executed(n, key, Effect(marks, NoRun), id, m)
  {
    hide Ordered, Target;
    OrderedParts(n, key);
    ShapeIds(n, m);
    ShapeOrdered(n, m, key);
    assert Ids(RunOf(NoRun, id)) == {};
  }

  lemma {:induction false} SplicedAt(n: seq<Node>, at: nat, run: seq<Node>, x: Id)
    requires at <= |n| && Distinct(Splice(n, at, run)) && Distinct(n)
    ensures Ids(Splice(n, at, run)) == Ids(n) + Ids(run)
    ensures x in Ids(n) ==> NodeAt(Splice(n, at, run), x) == NodeAt(n, x)
  {
    var m := Splice(n, at, run);
    SplicedIds(n, at, run);
    if x in Ids(n) {
      var i := IndexOf(n, x);
      IndexOfIs(m, if i < at then i else i + |run|);
    }
  }

  lemma {:induction false} SplicedIds(n: seq<Node>, at: nat, run: seq<Node>)
    requires at <= |n|
    ensures Ids(Splice(n, at, run)) == Ids(n) + Ids(run)
  {
    var m := Splice(n, at, run);
    forall x | x in Ids(n) + Ids(run) ensures x in Ids(m) {
      if x in Ids(n) {
        var i :| 0 <= i < |n| && n[i].id == x;
        assert m[if i < at then i else i + |run|].id == x;
      } else {
        var k :| 0 <= k < |run| && run[k].id == x;
        assert m[at + k].id == x;
      }
    }
    forall x | x in Ids(m) ensures x in Ids(n) + Ids(run) {
      var i :| 0 <= i < |m| && m[i].id == x;
      if at <= i < at + |run| { assert run[i - at].id == x; }
      else { assert n[if i < at then i else i - |run|].id == x; }
    }
  }

  /** An insert into the marked sequence. */
  lemma {:induction false} InsertExecuted(n: seq<Node>, key: Keys, marks: Marks, n1: seq<Node>, v: View, left: int, id: Id, cells: seq<Cell>)
    requires Ordered(n, key) && MarkedBy(n, marks, id, n1) && Causal(n1, v)
    requires -1 <= left < |n1| && id.peer == v.peer && cells != [] && NewAtoms(n1, id, |cells|)
    ensures var place := Place(OriginAt(n1, left), OriginAt(n1, NextSeen(n1, v, left + 1)), cells);
      Executed(n, key, Effect(marks, place), id, InsertAfter(n1, v, left, id, cells))
  {
    hide Ordered, Target, KeyFor, NextSeen, PlaceAfter, Distinct, Causal, NewAtoms, MarkedBy, NodeAt, Present, KeysAfter;
    var l, r := OriginAt(n1, left), OriginAt(n1, NextSeen(n1, v, left + 1));
    var run := Run(id, l, r, cells);
    var at := PlaceAfter(n1, v, left, id.peer);
    InsertKeys(n, key, marks, n1, v, left, id, cells);
    OrderedParts(n, key);
    OrderedParts(Splice(n1, at, run), KeysAfter(n, key, Place(l, r, cells), id));
    SplicedExecuted(n, n1, marks, id, at, run);
    RunIsRun(n1, id, l, r, cells);
    MarkedShape(n, marks, id, n1);
    ShapeIds(n, n1);
  }

  lemma {:induction false} MarkedShape(n: seq<Node>, marks: Marks, id: Id, m: seq<Node>)
    requires MarkedBy(n, marks, id, m)
    ensures SameShape(n, m)
  {
  }

  lemma {:induction false} InsertKeys(n: seq<Node>, key: Keys, marks: Marks, n1: seq<Node>, v: View, left: int, id: Id, cells: seq<Cell>)
    requires Ordered(n, key) && MarkedBy(n, marks, id, n1) && Causal(n1, v)
    requires -1 <= left < |n1| && id.peer == v.peer && cells != [] && NewAtoms(n1, id, |cells|)
    ensures var place := Place(OriginAt(n1, left), OriginAt(n1, NextSeen(n1, v, left + 1)), cells);
      && Present(n, place.left) && Present(n, place.right)
      && Ordered(InsertAfter(n1, v, left, id, cells), KeysAfter(n, key, place, id))
  {
    hide Ordered, Target, KeyFor, NextSeen, PlaceAfter, Distinct, Causal, NewAtoms, MarkedBy, InsertAfter, SameShape;
    var l, r := OriginAt(n1, left), OriginAt(n1, NextSeen(n1, v, left + 1));
    OrderedParts(n, key);
    MarkedShape(n, marks, id, n1);
    ShapeIds(n, n1);
    ShapeOrdered(n, n1, key);
    ShapeKeyFor(n, n1, key, l, r, id.peer);
    InsertAfterOrdered(n1, key, v, left, id, cells);
    IndexAt(n1, left);
    IndexAt(n1, NextSeen(n1, v, left + 1));
  }

  lemma {:induction false} SplicedExecuted(n: seq<Node>, n1: seq<Node>, marks: Marks, id: Id, at: nat, run: seq<Node>)
    requires Distinct(n) && MarkedBy(n, marks, id, n1) && at <= |n1| && Distinct(Splice(n1, at, run))
    ensures Ids(Splice(n1, at, run)) == Ids(n) + Ids(run)
    ensures forall x :: x in Ids(n) ==> NodeAt(Splice(n1, at, run), x) == MarkNode(NodeAt(n, x), Target(marks, id, x))
    ensures forall k :: 0 <= k < |run| ==> NodeAt(Splice(n1, at, run), run[k].id) == run[k]
  {
    hide Target;
    var m := Splice(n1, at, run);
    ShapeIds(n, n1);
    SplicedIds(n1, at, run);
    forall x | x in Ids(n) ensures NodeAt(m, x) == MarkNode(NodeAt(n, x), Target(marks, id, x)) {
      SplicedAt(n1, at, run, x);
    }
    forall k | 0 <= k < |run| ensures NodeAt(m, run[k].id) == run[k] {
      IndexOfIs(m, at + k);
    }
  }
}
