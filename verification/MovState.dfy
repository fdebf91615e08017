/** A MovableList's positions and elements, and what local ops do to them. */
module MovStates {
  import opened Common
  import opened SeqTypes
  import opened SeqInsert
  import opened SeqReference
  import opened SeqEdits
  import opened SeqLive
  import opened SeqApply
  import opened SeqSwap
  import opened Ops
  import opened MovRanks

  type Elems = map<ElemKey, Elem>

  /** The position holds its element: no later move took it elsewhere. */
  predicate IsHome(n: Node, elems: Elems) {
    n.cell.Position? && n.cell.elem in elems && elems[n.cell.elem].pos == n.id
  }

  ghost function Homes(elems: Elems): set<Id> { set e | e in elems :: elems[e].pos }

  ghost predicate HasNode(nodes: seq<Node>, id: Id, cell: Cell) {
    exists i :: 0 <= i < |nodes| && nodes[i].id == id && nodes[i].cell == cell
  }

  /** Every element is at a position made for it. */
  ghost predicate Housed(nodes: seq<Node>, elems: Elems) {
    forall e :: e in elems ==> HasNode(nodes, elems[e].pos, Position(e))
  }

  ghost predicate Homed(nodes: seq<Node>, elems: Elems, homes: set<Id>) {
    forall i :: 0 <= i < |nodes| ==> (IsHome(nodes[i], elems) <==> nodes[i].id in homes)
  }

  lemma {:induction false} HousedHomed(nodes: seq<Node>, elems: Elems)
    requires Distinct(nodes) && Housed(nodes, elems)
    ensures Homed(nodes, elems, Homes(elems))
  {
    forall i | 0 <= i < |nodes| ensures IsHome(nodes[i], elems) <==> nodes[i].id in Homes(elems) {
      if e :| e in elems && elems[e].pos == nodes[i].id {
        assert HasNode(nodes, elems[e].pos, Position(e));
        var j :| 0 <= j < |nodes| && nodes[j].id == nodes[i].id && nodes[j].cell == Position(e);
        SameIndex(nodes, i, j);
      }
    }
  }

  lemma {:induction false} SameIndex(nodes: seq<Node>, i: nat, j: nat)
    requires Distinct(nodes) && i < |nodes| && j < |nodes| && nodes[i].id == nodes[j].id
    ensures i == j
  {
  }

  // ----- the index built anew -----

  /** The ids of live nodes that are home to an element, in node order. */
  ghost function BuiltSlots(nodes: seq<Node>, elems: Elems): seq<Id> {
    if nodes == [] then []
    else
      var n := nodes[|nodes| - 1];
      BuiltSlots(nodes[..|nodes| - 1], elems) + if n.deleters == {} && IsHome(n, elems) then [n.id] else []
  }

  /** For each other live position, how many slots come before it. */
  ghost function BuiltLost(nodes: seq<Node>, elems: Elems): seq<nat> {
    if nodes == [] then []
    else
      var n := nodes[|nodes| - 1];
      var before := nodes[..|nodes| - 1];
      BuiltLost(before, elems) + if n.deleters == {} && !IsHome(n, elems) then [|BuiltSlots(before, elems)|] else []
  }

  /** The index is that of the list of live positions. */
  lemma {:induction false} BuiltSeen(nodes: seq<Node>, elems: Elems, homes: set<Id>, v: View)
    requires AllInView(nodes, v) && Homed(nodes, elems, homes)
    ensures BuiltSlots(nodes, elems) == Slots(Seen(nodes, v), homes) && BuiltLost(nodes, elems) == LostRanks(Seen(nodes, v), homes)
  {
    hide Visible, IsHome;
    if nodes != [] {
      var m := |nodes| - 1;
      var n := nodes[m];
      BuiltSeen(nodes[..m], elems, homes, v);
      assert InView(n, v) && (IsHome(n, elems) <==> n.id in homes);
      InViewVisible(n, v);
      OneMore(Seen(nodes[..m], v), n.id, homes);
      assert Seen(nodes, v) == if Visible(n, v) then Seen(nodes[..m], v) + [n.id] else Seen(nodes[..m], v);
      assert BuiltSlots(nodes[..m], elems) + [] == BuiltSlots(nodes[..m], elems) && BuiltLost(nodes[..m], elems) + [] == BuiltLost(nodes[..m], elems);
    }
  }

  lemma {:induction false} OneMore(ids: seq<Id>, x: Id, homes: set<Id>)
    ensures Slots(ids + [x], homes) == Slots(ids, homes) + (if x in homes then [x] else [])
    ensures LostRanks(ids + [x], homes) == LostRanks(ids, homes) + (if x in homes then [] else [|Slots(ids, homes)|])
  {
    assert (ids + [x])[..|ids|] == ids;
  }

  // ----- what an op leaves in place -----

  /** Everything merged is in view, every element is housed. */
  ghost predicate Whole(s: SeqVal, v: View) {
    AllInView(s.nodes, v) && Distinct(s.nodes) && Housed(s.nodes, s.elems)
  }

  lemma {:induction false} WholeIndex(s: SeqVal, v: View)
    requires Whole(s, v)
    ensures BuiltSlots(s.nodes, s.elems) == Slots(Seen(s.nodes, v), Homes(s.elems))
    ensures BuiltLost(s.nodes, s.elems) == LostRanks(Seen(s.nodes, v), Homes(s.elems))
  {
    hide AllInView, Distinct, Housed, Homed, Homes;
    HousedHomed(s.nodes, s.elems);
    BuiltSeen(s.nodes, s.elems, Homes(s.elems), v);
  }

  /** Old nodes keep their ids and cells. */
  ghost predicate Kept(nodes: seq<Node>, now: seq<Node>) {
    forall i :: 0 <= i < |nodes| ==> HasNode(now, nodes[i].id, nodes[i].cell)
  }

  lemma {:induction false} KeptHoused(nodes: seq<Node>, now: seq<Node>, elems: Elems)
    requires Kept(nodes, now) && Housed(nodes, elems)
    ensures Housed(now, elems)
  {
    forall e | e in elems ensures HasNode(now, elems[e].pos, Position(e)) {
      var i :| 0 <= i < |nodes| && nodes[i].id == elems[e].pos && nodes[i].cell == Position(e);
    }
  }

  lemma {:induction false} SplicedKept(nodes: seq<Node>, at: nat, run: seq<Node>)
    requires at <= |nodes|
    ensures Kept(nodes, Splice(nodes, at, run))
    ensures forall k :: 0 <= k < |run| ==> HasNode(Splice(nodes, at, run), run[k].id, run[k].cell)
  {
    var now := Splice(nodes, at, run);
    forall i | 0 <= i < |nodes| ensures HasNode(now, nodes[i].id, nodes[i].cell) {
      var j := if i < at then i else i + |run|;
      assert now[j] == nodes[i];
    }
    forall k | 0 <= k < |run| ensures HasNode(now, run[k].id, run[k].cell) { assert now[at + k] == run[k]; }
  }

  lemma {:induction false} MarkedKept(nodes: seq<Node>, i: nat, d: Id)
    requires i < |nodes|
    ensures Kept(nodes, nodes[i := AddDeleter(nodes[i], d)])
  {
    var now := nodes[i := AddDeleter(nodes[i], d)];
    forall j | 0 <= j < |nodes| ensures HasNode(now, nodes[j].id, nodes[j].cell) { assert now[j].id == nodes[j].id; }
  }

  lemma {:induction false} SplicedDistinct(nodes: seq<Node>, at: nat, id: Id, run: seq<Node>)
    requires at <= |nodes| && Distinct(nodes) && FreshAtoms(nodes, id, |run|)
    requires forall k :: 0 <= k < |run| ==> run[k].id == Id(id.peer, id.counter + k)
    ensures Distinct(Splice(nodes, at, run))
  {
    hide Splice;
    var now := Splice(nodes, at, run);
    forall i, j | 0 <= i < j < |now| ensures now[i].id != now[j].id {
      AfterSplice(nodes, at, run, i);
      AfterSplice(nodes, at, run, j);
      if at <= i < at + |run| && at + |run| <= j { assert FreshFor(nodes[j - |run|], id, |run|); }
      if i < at <= j < at + |run| { assert FreshFor(nodes[i], id, |run|); }
    }
  }

  lemma {:induction false} AfterSplice(nodes: seq<Node>, at: nat, run: seq<Node>, i: nat)
    requires at <= |nodes| && i < |nodes| + |run|
    ensures Splice(nodes, at, run)[i] == if i < at then nodes[i] else if i < at + |run| then run[i - at] else nodes[i - |run|]
  {
  }

  lemma {:induction false} StillInView(n: Node, v: View, k: nat)
    requires InView(n, v)
    ensures InView(n, Later(v, k))
  {
  }

  lemma {:induction false} SplicedInView(nodes: seq<Node>, at: nat, run: seq<Node>, v: View)
    requires at <= |nodes| && AllInView(nodes, v) && forall k :: 0 <= k < |run| ==> run[k].id == Id(v.peer, v.own + k) && run[k].deleters == {}
    ensures AllInView(Splice(nodes, at, run), Later(v, |run|))
  {
    hide Splice;
    var now := Splice(nodes, at, run);
    forall i | 0 <= i < |now| ensures InView(now[i], Later(v, |run|)) {
      AfterSplice(nodes, at, run, i);
      if i < at { StillInView(nodes[i], v, |run|); }
      if i >= at + |run| { StillInView(nodes[i - |run|], v, |run|); }
    }
  }

  lemma {:induction false} MarkedWhole(nodes: seq<Node>, elems: Elems, i: nat, v: View)
    requires i < |nodes| && AllInView(nodes, v) && Distinct(nodes) && Housed(nodes, elems)
    ensures var now := nodes[i := AddDeleter(nodes[i], Id(v.peer, v.own))]; AllInView(now, Later(v, 1)) && Distinct(now) && Housed(now, elems)
  {
    hide HasNode;
    var now := nodes[i := AddDeleter(nodes[i], Id(v.peer, v.own))];
    MarkedKept(nodes, i, Id(v.peer, v.own));
    KeptHoused(nodes, now, elems);
    forall j | 0 <= j < |now| ensures InView(now[j], Later(v, 1)) { StillInView(nodes[j], v, 1); }
  }

  /** An insert is a splice of the run somewhere. */
  lemma {:induction false} InsertIsSplice(nodes: seq<Node>, v: View, id: Id, pos: int, cells: seq<Cell>, strict: bool) returns (at: nat, run: seq<Node>)
    requires Insert(nodes, v, id, pos, cells, strict).Some?
    ensures at <= |nodes| && |run| == |cells| && Insert(nodes, v, id, pos, cells, strict).value == Splice(nodes, at, run)
    ensures forall k :: 0 <= k < |run| ==> run[k].id == Id(id.peer, id.counter + k) && run[k].cell == cells[k] && run[k].deleters == {}
  {
    hide Locate, PlaceAfter;
    if cells == [] {
      at, run := 0, [];
      assert Splice(nodes, 0, []) == nodes;
    } else {
      var left := if pos > 0 then Locate(nodes, v, pos, strict) else Some(-1);
      AnyLocate(nodes, v, pos, strict);
      var end := NextSeen(nodes, v, left.value + 1);
      at := PlaceAt(nodes, v, left.value, id.peer);
      run := Run(id, OriginAt(nodes, left.value), OriginAt(nodes, end), cells);
    }
  }

  lemma {:induction false} AnyLocate(nodes: seq<Node>, v: View, pos: int, strict: bool)
    ensures pos > 0 && Locate(nodes, v, pos, strict).Some? ==> -1 <= Locate(nodes, v, pos, strict).value < |nodes|
  {
  }

  lemma {:induction false} PlaceAt(nodes: seq<Node>, v: View, left: int, peer: nat) returns (at: nat)
    requires -1 <= left < |nodes|
    ensures at == PlaceAfter(nodes, v, left, peer) <= |nodes|
  {
    at := PlaceAfter(nodes, v, left, peer);
  }

  /** Elements an insert makes are at its positions; the others stay. */
  lemma {:induction false} NewElemsAt(elems: Elems, op: Op, n: nat, e: ElemKey)
    requires op.body.Items? && n <= |op.body.items|
    ensures var r := NewElems(elems, op, n);
      var k := e.lamport - op.lamport;
      if e.peer == op.id.peer && 0 <= k < n then e in r && r[e].pos == Id(op.id.peer, op.id.counter + k)
      else (e in r <==> e in elems) && (e in elems ==> r[e] == elems[e])
  {
    if n > 0 { NewElemsAt(elems, op, n - 1, e); }
  }

  /** No element is named as one of the op's. */
  ghost predicate NewKeys(elems: Elems, op: Op, n: nat) {
    forall e :: e in elems ==> !(e.peer == op.id.peer && op.lamport <= e.lamport < op.lamport + n)
  }

  // ----- a local op -----

  /** The op's author has everything merged, its ids and elements are new, and its writes are the latest. */
  ghost predicate Local(s: SeqVal, op: Op, v: View) {
    && op.cont.kind == MovableList && op.IsSeq() && Mergeable(s, op, v) && Whole(s, v)
    && (op.body.Items? ==> NewKeys(s.elems, op, |op.body.items|))
    && (op.body.ListMove? && op.body.elem in s.elems ==> Writer(op.lamport, op.id.peer).After(s.elems[op.body.elem].posWriter))
    && (op.body.ListSet? && op.body.elem in s.elems ==> Writer(op.lamport, op.id.peer).After(s.elems[op.body.elem].valueWriter))
  }

  lemma {:induction false} LocalParts(s: SeqVal, op: Op, v: View)
    requires Local(s, op, v)
    ensures WellFormed(op, v) && FreshAtoms(s.nodes, op.id, op.len) && op.id == Id(v.peer, v.own) && Whole(s, v)
    ensures op.cont.kind == MovableList && op.IsSeq()
  {
    hide Whole, FreshAtoms;
  }

  /** After a local insert the list of live positions has the new ones spliced in. */
  lemma {:induction false} InsertLocal(s: SeqVal, op: Op, v: View, now: SeqVal, byPosition: bool)
    requires Local(s, op, v) && op.body.Items? && Apply(s, op, v, byPosition, true) == Some(now)
    ensures Whole(now, Later(v, op.len)) && op.pos <= |Seen(s.nodes, v)|
    ensures Seen(now.nodes, Later(v, op.len)) == Splice(Seen(s.nodes, v), Clamp(op.pos, |Seen(s.nodes, v)|), RunIds(op.id, op.len))
    ensures forall x: Id :: x in Homes(now.elems) <==> x in Homes(s.elems) || InAtoms(x, op.id, op.len)
  {
    hide Insert, Seen, AllInView, Distinct, FreshAtoms, Mergeable, NewElems, HasNode, NewKeys, Splice;
    LocalParts(s, op, v);
    InsertEdits(s.nodes, v, op.pos, Cells(op), true);
    var at, run := InsertIsSplice(s.nodes, v, op.id, op.pos, Cells(op), true);
    SplicedDistinct(s.nodes, at, op.id, run);
    SplicedInView(s.nodes, at, run, v);
    SplicedKept(s.nodes, at, run);
    NewHoused(s, op, now.nodes, run);
    NewHomes(s.elems, op);
  }

  lemma {:induction false} NewHoused(s: SeqVal, op: Op, now: seq<Node>, run: seq<Node>)
    requires op.cont.kind == MovableList && op.body.Items? && op.len == |op.body.items| == |run| && Housed(s.nodes, s.elems) && Kept(s.nodes, now)
    requires forall k :: 0 <= k < |run| ==> run[k].id == Id(op.id.peer, op.id.counter + k) && run[k].cell == Cells(op)[k]
    requires forall k :: 0 <= k < |run| ==> HasNode(now, run[k].id, run[k].cell)
    ensures Housed(now, NewElems(s.elems, op, op.len))
  {
    hide HasNode, NewElems;
    KeptHoused(s.nodes, now, s.elems);
    var elems := NewElems(s.elems, op, op.len);
    forall e | e in elems ensures HasNode(now, elems[e].pos, Position(e)) {
      NewElemsAt(s.elems, op, op.len, e);
      var k := e.lamport - op.lamport;
      if e.peer == op.id.peer && 0 <= k < op.len {
        assert HasNode(now, run[k].id, run[k].cell);
        assert run[k].cell == Position(ElemKey(op.id.peer, op.lamport + k));
      }
    }
  }

  lemma {:induction false} NewHomes(elems: Elems, op: Op)
    requires op.body.Items? && op.len == |op.body.items| && NewKeys(elems, op, op.len)
    ensures forall x: Id :: x in Homes(NewElems(elems, op, op.len)) <==> x in Homes(elems) || InAtoms(x, op.id, op.len)
  {
    hide NewElems;
    var now := NewElems(elems, op, op.len);
    forall x: Id ensures x in Homes(now) <==> x in Homes(elems) || InAtoms(x, op.id, op.len) {
      if InAtoms(x, op.id, op.len) {
        var e := ElemKey(op.id.peer, op.lamport + (x.counter - op.id.counter));
        NewElemsAt(elems, op, op.len, e);
        assert now[e].pos == x;
      }
      if x in Homes(elems) {
        var e :| e in elems && elems[e].pos == x;
        NewElemsAt(elems, op, op.len, e);
        assert now[e].pos == x;
      }
      if x in Homes(now) {
        var e :| e in now && now[e].pos == x;
        NewElemsAt(elems, op, op.len, e);
      }
    }
  }

  /** After a delete of the element at op index o, the list of live positions is without it. */
  lemma {:induction false} DeleteLocal(s: SeqVal, op: Op, v: View, now: SeqVal, byPosition: bool, o: nat)
    requires Local(s, op, v) && op.body.DeleteSeq? && op.body.span.len == 1 && Apply(s, op, v, byPosition, true) == Some(now)
    requires o < |Seen(s.nodes, v)| && Seen(s.nodes, v)[o] == Id(op.body.span.peer, op.body.span.counter)
    ensures Whole(now, Later(v, 1)) && now.elems == s.elems
    ensures Seen(now.nodes, Later(v, 1)) == Without(Seen(s.nodes, v), o, 1)
  {
    hide Seen, AllInView, FreshAtoms, Mergeable, Housed, Visible, RemoveIds, Without, Nth;
    LocalParts(s, op, v);
    var src := SeenNode(s.nodes, v, o);
    OneByIds(s.nodes, op.id, op.body.span, src);
    MarkedWhole(s.nodes, s.elems, src, v);
    SameViews(s.nodes, v, 1);
    OneRemoved(s.nodes, v, src, op.id, Later(v, 1));
  }

  lemma {:induction false} SeenNode(nodes: seq<Node>, v: View, o: nat) returns (src: nat)
    requires o < |Seen(nodes, v)|
    ensures src < |nodes| && src == Nth(nodes, v, o) && Visible(nodes[src], v) && |Seen(nodes[..src], v)| == o && nodes[src].id == Seen(nodes, v)[o]
  {
    hide Visible;
    src := Nth(nodes, v, o);
    NthIs(nodes, v, src);
  }

  lemma {:induction false} OneByIds(nodes: seq<Node>, id: Id, span: DeleteSpan, src: nat)
    requires Distinct(nodes) && src < |nodes| && span.len == 1 && nodes[src].id == Id(span.peer, span.counter)
    ensures RemoveIds(nodes, id, span) == nodes[src := AddDeleter(nodes[src], id)]
  {
    forall i | 0 <= i < |nodes| ensures RemoveIds(nodes, id, span)[i] == nodes[src := AddDeleter(nodes[src], id)][i] {
      if span.Covers(nodes[i].id) { SameIndex(nodes, i, src); }
    }
  }

  /** After a move of the element at op index `from`, its position there is gone and its new one is in at
      the op's position of the rest. */
  lemma {:induction false} MoveLocal(s: SeqVal, op: Op, v: View, now: SeqVal, byPosition: bool)
    requires Local(s, op, v) && op.body.ListMove? && op.body.elem in s.elems && Apply(s, op, v, byPosition, true) == Some(now)
    requires 0 <= op.body.from < |Seen(s.nodes, v)| && Seen(s.nodes, v)[op.body.from] == s.elems[op.body.elem].pos
    ensures Whole(now, Later(v, 1))
    ensures var rest := Without(Seen(s.nodes, v), op.body.from, 1);
      op.pos <= |rest| && Seen(now.nodes, Later(v, 1)) == Splice(rest, Clamp(op.pos, |rest|), [op.id])
    ensures op.id in Homes(now.elems)
    ensures forall x :: x != op.id && x != s.elems[op.body.elem].pos ==> (x in Homes(s.elems) <==> x in Homes(now.elems))
    ensures now.elems == s.elems[op.body.elem := s.elems[op.body.elem].(pos := op.id, posWriter := Writer(op.lamport, op.id.peer))]
  {
    hide Seen, AllInView, FreshAtoms, Mergeable, Housed, Visible, Without, Insert, Distinct, Nth;
    LocalParts(s, op, v);
    MoveEdits(s.nodes, v, op.body.from, op.pos, Position(op.body.elem), true);
    var src := SeenNode(s.nodes, v, op.body.from);
    var gone := s.nodes[src := AddDeleter(s.nodes[src], op.id)];
    MarkedWhole(s.nodes, s.elems, src, v);
    MoveWhole(s, op, v, gone, now, src);
    MovedHomes(s, op, now.elems);
  }

  lemma {:induction false} MoveWhole(s: SeqVal, op: Op, v: View, gone: seq<Node>, now: SeqVal, src: nat)
    requires op.body.ListMove? && op.id == Id(v.peer, v.own) && op.body.elem in s.elems && src < |s.nodes| && FreshAtoms(s.nodes, op.id, 1)
    requires gone == s.nodes[src := AddDeleter(s.nodes[src], op.id)]
    requires AllInView(gone, Later(v, 1)) && Distinct(gone) && Housed(gone, s.elems)
    requires Insert(gone, Later(v, 1), op.id, op.pos, [Position(op.body.elem)], true) == Some(now.nodes)
    requires now.elems == s.elems[op.body.elem := s.elems[op.body.elem].(pos := op.id, posWriter := Writer(op.lamport, op.id.peer))]
    ensures Whole(now, Later(v, 1))
  {
    hide Insert, HasNode, Splice, AllInView, Distinct;
    var at, run := InsertIsSplice(gone, Later(v, 1), op.id, op.pos, [Position(op.body.elem)], true);
    OneInView(gone, at, run, Later(v, 1));
    OneDistinct(s.nodes, gone, src, at, run, op.id);
    SplicedKept(gone, at, run);
    KeptHoused(gone, now.nodes, s.elems);
    assert HasNode(now.nodes, run[0].id, run[0].cell);
  }

  lemma {:induction false} OneInView(nodes: seq<Node>, at: nat, run: seq<Node>, w: View)
    requires at <= |nodes| && AllInView(nodes, w) && |run| == 1 && w.Has(run[0].id) && run[0].deleters == {}
    ensures AllInView(Splice(nodes, at, run), w)
  {
    hide Splice;
    var now := Splice(nodes, at, run);
    forall i | 0 <= i < |now| ensures InView(now[i], w) {
      AfterSplice(nodes, at, run, i);
      if i < at { assert InView(nodes[i], w); }
      if i > at { assert InView(nodes[i - 1], w); }
    }
  }

  lemma {:induction false} OneDistinct(nodes: seq<Node>, gone: seq<Node>, src: nat, at: nat, run: seq<Node>, id: Id)
    requires src < |nodes| && gone == nodes[src := AddDeleter(nodes[src], id)] && FreshAtoms(nodes, id, 1) && Distinct(gone)
    requires at <= |gone| && |run| == 1 && run[0].id == id
    ensures Distinct(Splice(gone, at, run))
  {
    hide Splice;
    var now := Splice(gone, at, run);
    forall i | 0 <= i < |gone| ensures gone[i].id != id { assert FreshFor(nodes[i], id, 1); }
    forall i, j | 0 <= i < j < |now| ensures now[i].id != now[j].id {
      AfterSplice(gone, at, run, i);
      AfterSplice(gone, at, run, j);
    }
  }

  lemma {:induction false} MovedHomes(s: SeqVal, op: Op, now: Elems)
    requires op.body.ListMove? && op.body.elem in s.elems
    requires now == s.elems[op.body.elem := s.elems[op.body.elem].(pos := op.id, posWriter := Writer(op.lamport, op.id.peer))]
    ensures op.id in Homes(now)
    ensures forall x :: x != op.id && x != s.elems[op.body.elem].pos ==> (x in Homes(s.elems) <==> x in Homes(now))
  {
    var e0 := op.body.elem;
    assert now[e0].pos == op.id;
    forall x | x != op.id && x != s.elems[e0].pos ensures x in Homes(s.elems) <==> x in Homes(now) {
      if x in Homes(s.elems) {
        var e :| e in s.elems && s.elems[e].pos == x;
        assert now[e].pos == x;
      }
      if x in Homes(now) {
        var e :| e in now && now[e].pos == x;
        assert s.elems[e].pos == x;
      }
    }
  }

  /** A set moves nothing. */
  lemma {:induction false} SetLocal(s: SeqVal, op: Op, v: View, now: SeqVal, byPosition: bool)
    requires Local(s, op, v) && op.body.ListSet? && Apply(s, op, v, byPosition, true) == Some(now)
    ensures Whole(now, Later(v, 1)) && now.nodes == s.nodes && Homes(now.elems) == Homes(s.elems)
    ensures Seen(now.nodes, Later(v, 1)) == Seen(s.nodes, v)
    ensures op.body.elem in s.elems ==> op.body.elem in now.elems && now.elems[op.body.elem].value == op.body.value
    ensures forall e :: e in s.elems && e != op.body.elem ==> e in now.elems && now.elems[e] == s.elems[e]
  {
    hide Seen, FreshAtoms, Mergeable, HasNode, Distinct;
    LocalParts(s, op, v);
    SameViews(s.nodes, v, 1);
    SeenSame(s.nodes, v, Later(v, 1));
    forall i | 0 <= i < |s.nodes| ensures InView(s.nodes[i], Later(v, 1)) { StillInView(s.nodes[i], v, 1); }
    forall e | e in s.elems ensures e in now.elems && now.elems[e].pos == s.elems[e].pos {}
    assert now.elems.Keys == s.elems.Keys;
  }
}
