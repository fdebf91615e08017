/** Applying an op is executing its effect, and the effect depends only on what its author knows. */
module SeqApply {
  import opened Common
  import opened SeqTypes
  import opened SeqOrder
  import opened SeqInsert
  import opened SeqReference
  import opened SeqEdits
  import opened SeqFits
  import opened SeqPlan
  import opened SeqEffect
  import opened Ops

  /** An op as its author made it: it takes the author's next ids, one per atom. */
  ghost predicate WellFormed(op: Op, v: View) {
    && v.peer == op.id.peer && v.own == op.id.counter
    && (v.peer in v.vv ==> v.vv[v.peer] <= v.own)
    && op.len >= 1
    && (match op.body
        case Items(items) => op.len == |items|
        case DeleteSeq(span) => op.len == Size(span.len)
        case _ => op.len == 1)
  }

  ghost function InsertPlace(nodes: seq<Node>, v: View, pos: int, cells: seq<Cell>, strict: bool): Option<Place> {
    if cells == [] then Some(NoRun)
    else
      var left := if pos > 0 then Locate(nodes, v, pos, strict) else Some(-1);
      if left.None? then None
      else Some(Place(OriginAt(nodes, left.value), OriginAt(nodes, NextSeen(nodes, v, left.value + 1)), cells))
  }

  ghost function WithMarks(marks: Marks, p: Option<Place>): Option<Effect> {
    if p.None? then None else Some(Effect(marks, p.value))
  }

  /** Whether a move finds its element and the position to take it from. */
  ghost predicate Moves(s: SeqVal, op: Op, v: View)
    requires op.body.ListMove?
  {
    op.body.elem in s.elems && 0 <= op.body.from < |Seen(s.nodes, v)|
  }

  ghost function Gone(nodes: seq<Node>, v: View, id: Id, from: nat): seq<Node>
    requires from < |Seen(nodes, v)|
  {
    var src := Nth(nodes, v, from);
    nodes[src := AddDeleter(nodes[src], id)]
  }

  ghost function EffectOf(s: SeqVal, op: Op, v: View, byPosition: bool, strict: bool): Option<Effect> {
    match op.body
    case Items(_) => WithMarks(NoMarks, InsertPlace(s.nodes, v, op.pos, Cells(op), strict))
    case MarkStart(info) =>
      WithMarks(NoMarks, InsertPlace(s.nodes, v, op.pos, [StartAnchor(info, Writer(op.lamport, op.id.peer))], strict))
    case MarkEnd =>
      if op.id !in s.pendingEnd then Some(NoEffect)
      else WithMarks(NoMarks, InsertPlace(s.nodes, v, s.pendingEnd[op.id], [EndAnchor], strict))
    case DeleteSeq(span) =>
      if byPosition && op.cont.kind != MovableList then
        if CanRemoveAt(s.nodes, v, op.pos, span.len) then
          Some(Effect(ByRank(Seen(s.nodes, v), Low(op.pos, span.len), span.len), NoRun))
        else if strict then None
        else Some(Effect(ByIds(span), NoRun))
      else Some(Effect(ByIds(span), NoRun))
    case ListMove(elem, from) =>
      if elem !in s.elems then Some(NoEffect)
      else if !Moves(s, op, v) then (if strict then None else Some(NoEffect))
      else
        WithMarks(ByRank(Seen(s.nodes, v), from, 1),
                  InsertPlace(Gone(s.nodes, v, op.id, from), Later(v, 1), op.pos, [Position(elem)], strict))
    case ListSet(_, _) => Some(NoEffect)
    case Other(_) => Some(NoEffect)
  }

  // ----- applying is executing -----

  lemma {:induction false} NothingExecuted(n: seq<Node>, key: Keys, id: Id)
    requires Ordered(n, key)
    ensures Executed(n, key, NoEffect, id, n)
  {
    MarkedExecuted(n, key, NoMarks, id, n);
  }

  lemma {:induction false} InsertPlaced(n: seq<Node>, key: Keys, marks: Marks, n1: seq<Node>, v: View, id: Id, pos: int, cells: seq<Cell>, strict: bool)
    requires Ordered(n, key) && MarkedBy(n, marks, id, n1) && Causal(n1, v)
    requires id.peer == v.peer && cells != [] && NewAtoms(n1, id, |cells|)
    ensures var r, p := Insert(n1, v, id, pos, cells, strict), InsertPlace(n1, v, pos, cells, strict);
      && (r.None? <==> p.None?)
      && (r.Some? ==> Executed(n, key, Effect(marks, p.value), id, r.value))
  {
    hide Ordered, Locate, InsertAfter, Causal, MarkedBy, Executed, NewAtoms, NextSeen;
    var left: Option<int> := if pos > 0 then Locate(n1, v, pos, strict) else Some(-1);
    if left.Some? { InsertExecuted(n, key, marks, n1, v, left.value, id, cells); }
  }

  lemma {:induction false} NoMarksAtAll(n: seq<Node>, id: Id)
    ensures MarkedBy(n, NoMarks, id, n)
  {
  }

  lemma {:induction false} FreshNew(n: seq<Node>, id: Id, k: nat, j: nat)
    requires FreshAtoms(n, id, k) && j <= k
    ensures NewAtoms(n, id, j)
  {
    forall i | 0 <= i < |n| ensures !InAtoms(n[i].id, id, j) {
      assert FreshFor(n[i], id, k);
    }
  }

  /** The author's own new atoms do not change which of the others it has. */
  lemma {:induction false} CausalGone(n: seq<Node>, m: seq<Node>, v: View)
    requires Causal(n, v) && SameShape(n, m) && FreshAtoms(n, Id(v.peer, v.own), 1)
    ensures Causal(m, Later(v, 1))
  {
    forall i | 0 <= i < |m| ensures CausalAt(m[i], Later(v, 1)) {
      assert CausalAt(n[i], v) && FreshFor(n[i], Id(v.peer, v.own), 1);
    }
  }

  lemma {:induction false} ApplyMoveExecutes(s: SeqVal, key: Keys, op: Op, v: View, strict: bool)
    requires Ordered(s.nodes, key) && Causal(s.nodes, v) && WellFormed(op, v) && FreshAtoms(s.nodes, op.id, 1)
    requires op.body.ListMove? && Moves(s, op, v)
    ensures var r, e := ApplyMove(s, op, v, strict), EffectOf(s, op, v, true, strict);
      && (r.None? <==> e.None?)
      && (r.Some? ==> Executed(s.nodes, key, e.value, op.id, r.value.nodes))
  {
    hide Ordered, Causal, Executed, FreshAtoms, Insert, InsertPlace, Seen, Visible, MarkedBy, SameShape, Nth;
    var from := op.body.from;
    var gone := Gone(s.nodes, v, op.id, from);
    OrderedParts(s.nodes, key);
    OneMarks(s.nodes, v, op.id, from);
    MarkedShape(s.nodes, ByRank(Seen(s.nodes, v), from, 1), op.id, gone);
    CausalGone(s.nodes, gone, v);
    FreshNew(s.nodes, op.id, 1, 1);
    ShapeNew(s.nodes, gone, op.id, 1);
    InsertPlaced(s.nodes, key, ByRank(Seen(s.nodes, v), from, 1), gone, Later(v, 1), op.id, op.pos,
                 [Position(op.body.elem)], strict);
  }

  lemma {:induction false} ShapeNew(n: seq<Node>, m: seq<Node>, id: Id, k: nat)
    requires SameShape(n, m) && NewAtoms(n, id, k)
    ensures NewAtoms(m, id, k)
  {
    forall i | 0 <= i < |m| ensures !InAtoms(m[i].id, id, k) {
      assert !InAtoms(n[i].id, id, k);
    }
  }

  lemma {:induction false} ApplyDeleteExecutes(s: SeqVal, key: Keys, op: Op, v: View, byPosition: bool, strict: bool)
    requires Ordered(s.nodes, key) && op.body.DeleteSeq?
    ensures var r, e := ApplyDelete(s, op, v, byPosition, strict), EffectOf(s, op, v, byPosition, strict);
      && (r.None? <==> e.None?)
      && (r.Some? ==> Executed(s.nodes, key, e.value, op.id, r.value.nodes))
  {
    hide Ordered, Executed, RemoveAt, RemoveIds, MarkedBy, Seen;
    var span := op.body.span;
    OrderedParts(s.nodes, key);
    if byPosition && op.cont.kind != MovableList && CanRemoveAt(s.nodes, v, op.pos, span.len) {
      var low := Low(op.pos, span.len);
      RemoveAtMarks(s.nodes, v, op.id, low, span.len);
      MarkedExecuted(s.nodes, key, ByRank(Seen(s.nodes, v), low, span.len), op.id, RemoveAt(s.nodes, v, op.id, low, span.len));
    } else {
      RemoveIdsMarks(s.nodes, op.id, span);
      MarkedExecuted(s.nodes, key, ByIds(span), op.id, RemoveIds(s.nodes, op.id, span));
    }
  }

  /** Merging an op executes its effect. */
  lemma {:induction false} ApplyExecutes(s: SeqVal, key: Keys, op: Op, v: View, byPosition: bool, strict: bool)
    requires Ordered(s.nodes, key) && Causal(s.nodes, v) && WellFormed(op, v) && FreshAtoms(s.nodes, op.id, op.len)
    ensures var r, e := Apply(s, op, v, byPosition, strict), EffectOf(s, op, v, byPosition, strict);
      && (r.None? <==> e.None?)
      && (r.Some? ==> Executed(s.nodes, key, e.value, op.id, r.value.nodes))
  {
    hide Ordered, Causal, Executed, FreshAtoms, Insert, InsertPlace, ApplyDelete, Seen, NewAtoms, MarkedBy;
    var n := s.nodes;
    NoMarksAtAll(n, op.id);
    NothingExecuted(n, key, op.id);
    FreshNew(n, op.id, op.len, op.len);
    match op.body
    case Items(items) =>
      InsertPlaced(n, key, NoMarks, n, v, op.id, op.pos, Cells(op), strict);
    case MarkStart(info) =>
      InsertPlaced(n, key, NoMarks, n, v, op.id, op.pos, [StartAnchor(info, Writer(op.lamport, op.id.peer))], strict);
    case MarkEnd =>
      if op.id in s.pendingEnd {
        InsertPlaced(n, key, NoMarks, n, v, op.id, s.pendingEnd[op.id], [EndAnchor], strict);
      }
    case DeleteSeq(span) => ApplyDeleteExecutes(s, key, op, v, byPosition, strict);
    case ListMove(elem, from) =>
      if Moves(s, op, v) { ApplyMoveExecutes(s, key, op, v, strict); }
    case ListSet(_, _) =>
    case Other(_) =>
  }

  // ----- and the effect depends only on what the author knows -----

  lemma {:induction false} SamePlace(a: seq<Node>, b: seq<Node>, v: View, pos: int, cells: seq<Cell>, strict: bool)
    requires Distinct(a) && Known(a, v) == Known(b, v)
    ensures InsertPlace(a, v, pos, cells, strict) == InsertPlace(b, v, pos, cells, strict)
  {
    hide Distinct, Known, Locate, NextSeen;
    if cells != [] {
      if pos > 0 { SameLeft(a, b, v, pos, strict); }
      var i: Option<int> := if pos > 0 then Locate(a, v, pos, strict) else Some(-1);
      var j: Option<int> := if pos > 0 then Locate(b, v, pos, strict) else Some(-1);
      if i.Some? { SameRight(a, b, v, i.value, j.value); }
    }
  }

  ghost function Flip(known: seq<Sight>, x: Id): seq<Sight> {
    seq(|known|, i requires 0 <= i < |known| => if known[i].id == x then Sight(x, false) else known[i])
  }

  lemma {:induction false} KnownGone(nodes: seq<Node>, v: View, src: nat)
    requires Distinct(nodes) && src < |nodes| && v.Has(nodes[src].id) && FreshAtoms(nodes, Id(v.peer, v.own), 1)
    ensures Known(nodes[src := AddDeleter(nodes[src], Id(v.peer, v.own))], Later(v, 1)) == Flip(Known(nodes, v), nodes[src].id)
  {
    var m := nodes[src := AddDeleter(nodes[src], Id(v.peer, v.own))];
    KnownFlipped(nodes, m, v, src, |nodes|);
    assert m[..|nodes|] == m && nodes[..|nodes|] == nodes;
  }

  lemma {:induction false} KnownFlipped(nodes: seq<Node>, m: seq<Node>, v: View, src: nat, i: nat)
    requires Distinct(nodes) && src < |nodes| && v.Has(nodes[src].id) && FreshAtoms(nodes, Id(v.peer, v.own), 1)
    requires m == nodes[src := AddDeleter(nodes[src], Id(v.peer, v.own))] && i <= |nodes|
    ensures Known(m[..i], Later(v, 1)) == Flip(Known(nodes[..i], v), nodes[src].id)
  {
    if i > 0 {
      var k := i - 1;
      KnownFlipped(nodes, m, v, src, k);
      assert m[..i][..k] == m[..k] && nodes[..i][..k] == nodes[..k];
      assert FreshFor(nodes[k], Id(v.peer, v.own), 1);
      SameView(nodes[k], v, 1);
      if k == src { assert Id(v.peer, v.own) in m[k].deleters; }
      FlipStep(Known(nodes[..k], v), if v.Has(nodes[k].id) then [Sight(nodes[k].id, Visible(nodes[k], v))] else [], nodes[src].id);
    }
  }

  lemma {:induction false} FlipStep(a: seq<Sight>, b: seq<Sight>, x: Id)
    ensures Flip(a + b, x) == Flip(a, x) + Flip(b, x)
  {
  }

  lemma {:induction false} SameMove(a: seq<Node>, b: seq<Node>, v: View, from: nat, pos: int, cells: seq<Cell>, strict: bool)
    requires Distinct(a) && Distinct(b) && Known(a, v) == Known(b, v) && from < |Seen(a, v)|
    requires FreshAtoms(a, Id(v.peer, v.own), 1) && FreshAtoms(b, Id(v.peer, v.own), 1)
    ensures Seen(a, v) == Seen(b, v)
    ensures InsertPlace(Gone(a, v, Id(v.peer, v.own), from), Later(v, 1), pos, cells, strict) ==
            InsertPlace(Gone(b, v, Id(v.peer, v.own), from), Later(v, 1), pos, cells, strict)
  {
    hide Distinct, Known, Visible, FreshAtoms, Seen, InsertPlace, Flip, SameShape, MarkedBy;
    SameSeenKnown(a, b, v);
    var id := Id(v.peer, v.own);
    SeenHas(a, v, from);
    SeenHas(b, v, from);
    KnownGone(a, v, Nth(a, v, from));
    KnownGone(b, v, Nth(b, v, from));
    OneMarks(a, v, id, from);
    MarkedShape(a, ByRank(Seen(a, v), from, 1), id, Gone(a, v, id, from));
    ShapeIds(a, Gone(a, v, id, from));
    SamePlace(Gone(a, v, id, from), Gone(b, v, id, from), Later(v, 1), pos, cells, strict);
  }

  lemma {:induction false} SeenHas(nodes: seq<Node>, v: View, k: nat)
    requires k < |Seen(nodes, v)|
    ensures var i := Nth(nodes, v, k); v.Has(nodes[i].id) && nodes[i].id == Seen(nodes, v)[k]
  {
    SeenVisible(nodes, v, k);
  }

  /** Two states that agree on what an op names. */
  ghost predicate Agree(s: SeqVal, t: SeqVal, op: Op, v: View) {
    && Known(s.nodes, v) == Known(t.nodes, v)
    && (op.id in s.pendingEnd <==> op.id in t.pendingEnd)
    && (op.id in s.pendingEnd ==> s.pendingEnd[op.id] == t.pendingEnd[op.id])
    && (op.body.ListMove? ==> (op.body.elem in s.elems <==> op.body.elem in t.elems))
  }

  lemma {:induction false} SameEffect(s: SeqVal, t: SeqVal, op: Op, v: View, byPosition: bool, strict: bool)
    requires Distinct(s.nodes) && Distinct(t.nodes) && Agree(s, t, op, v) && WellFormed(op, v)
    requires FreshAtoms(s.nodes, op.id, op.len) && FreshAtoms(t.nodes, op.id, op.len)
    ensures EffectOf(s, op, v, byPosition, strict) == EffectOf(t, op, v, byPosition, strict)
    ensures op.body.ListMove? ==> Moves(s, op, v) == Moves(t, op, v)
  {
    hide Distinct, Known, FreshAtoms, Seen, InsertPlace, Visible, Gone;
    SameSeenKnown(s.nodes, t.nodes, v);
    match op.body
    case Items(items) => SamePlace(s.nodes, t.nodes, v, op.pos, Cells(op), strict);
    case MarkStart(info) =>
      SamePlace(s.nodes, t.nodes, v, op.pos, [StartAnchor(info, Writer(op.lamport, op.id.peer))], strict);
    case MarkEnd =>
      if op.id in s.pendingEnd { SamePlace(s.nodes, t.nodes, v, s.pendingEnd[op.id], [EndAnchor], strict); }
    case DeleteSeq(span) =>
    case ListMove(elem, from) =>
      if Moves(s, op, v) { SameMove(s.nodes, t.nodes, v, from, op.pos, [Position(elem)], strict); }
    case ListSet(_, _) =>
    case Other(_) =>
  }
}
