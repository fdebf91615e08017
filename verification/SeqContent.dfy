/** What merged ops leave in a sequence, read off the ops themselves: the elements each puts in, and the elements each
    deletes. */
module SeqContents {
  import opened Common
  import opened SeqTypes
  import opened SeqOrder
  import opened SeqInsert
  import opened SeqReference
  import opened SeqEdits
  import opened SeqFits
  import opened SeqPlan
  import opened SeqEffect
  import opened SeqApply
  import opened SeqSwap
  import opened SeqConverge
  import opened Ops
  import opened MovStates

  /** The insert's k-th item goes in as element x: the item itself, in a MovableList the position of its element. */
  ghost predicate PutsItem(op: Op, k: nat, x: Id, c: Cell)
    requires op.body.Items? && k < |op.body.items|
  {
    && x == Id(op.id.peer, op.id.counter + k)
    && c == if op.cont.kind == MovableList then Position(ElemKey(op.id.peer, op.lamport + k)) else Plain(op.body.items[k])
  }

  /** The op puts in element x with cell c: an insert's k-th item under the op's k-th id, a mark's anchors, a move's new
      position. `begun` says that the mark a mark end closes is there. */
  ghost predicate Puts(s: SeqVal, begun: bool, op: Op, v: View, x: Id, c: Cell) {
    match op.body
    case Items(items) =>
      exists k :: 0 <= k < |items| && PutsItem(op, k, x, c)
    case MarkStart(info) => x == op.id && c == StartAnchor(info, Writer(op.lamport, op.id.peer))
    case MarkEnd => begun && x == op.id && c == EndAnchor
    case ListMove(elem, from) => elem in s.elems && 0 <= from < |Seen(s.nodes, v)| && x == op.id && c == Position(elem)
    case _ => false
  }

  /** The position, among what its author saw, of the element a delete's atom k takes. */
  function Rank(op: Op, len: int, k: int): int { if len < 0 then op.pos - k else op.pos + k }

  /** The id a delete recorded for its atom k. */
  function Named(span: DeleteSpan, k: int): Id {
    Id(span.peer, if span.len < 0 then span.counter - span.len - 1 - k else span.counter + k)
  }

  /** Every position of the delete is one its author saw. */
  ghost predicate InReach(seen: seq<Id>, op: Op, len: int) {
    len != 0 && forall k :: 0 <= k < Size(len) ==> 0 <= Rank(op, len, k) < |seen|
  }

  /** The op deletes element x by its atom k: the one at that position of its author's view where positions are read and
      reach it, else the one it recorded; a move deletes the position it starts from. */
  ghost predicate Takes(s: SeqVal, op: Op, v: View, byPosition: bool, x: Id, k: int) {
    var seen := Seen(s.nodes, v);
    match op.body
    case DeleteSeq(span) =>
      && 0 <= k < Size(span.len)
      && if byPosition && op.cont.kind != MovableList && InReach(seen, op, span.len) then x == seen[Rank(op, span.len, k)]
         else x == Named(span, k)
    case ListMove(elem, from) => k == 0 && elem in s.elems && 0 <= from < |seen| && x == seen[from]
    case _ => false
  }

  ghost predicate HasDeleter(nodes: seq<Node>, x: Id, d: Id) {
    exists i :: 0 <= i < |nodes| && nodes[i].id == x && d in nodes[i].deleters
  }

  // ----- one op -----

  lemma {:induction false} SplicedNode(nodes: seq<Node>, at: nat, run: seq<Node>, x: Id, c: Cell)
    requires at <= |nodes|
    ensures HasNode(Splice(nodes, at, run), x, c) <==> HasNode(nodes, x, c) || HasNode(run, x, c)
  {
    hide Splice;
    var now := Splice(nodes, at, run);
    SplicedKept(nodes, at, run);
    if HasNode(now, x, c) {
      var i :| 0 <= i < |now| && now[i].id == x && now[i].cell == c;
      AfterSplice(nodes, at, run, i);
      if i < at { assert HasNode(nodes, nodes[i].id, nodes[i].cell); }
      else if i < at + |run| { assert HasNode(run, run[i - at].id, run[i - at].cell); }
      else { assert HasNode(nodes, nodes[i - |run|].id, nodes[i - |run|].cell); }
    }
    if HasNode(nodes, x, c) { var i :| 0 <= i < |nodes| && nodes[i].id == x && nodes[i].cell == c; }
    if HasNode(run, x, c) { var k :| 0 <= k < |run| && run[k].id == x && run[k].cell == c; }
  }

  /** An insert adds its cells under its ids. */
  lemma {:induction false} InsertedNode(nodes: seq<Node>, v: View, id: Id, pos: int, cells: seq<Cell>, strict: bool, x: Id, c: Cell)
    requires Insert(nodes, v, id, pos, cells, strict).Some?
    ensures HasNode(Insert(nodes, v, id, pos, cells, strict).value, x, c) <==>
      HasNode(nodes, x, c) || exists k :: 0 <= k < |cells| && x == Id(id.peer, id.counter + k) && c == cells[k]
  {
    hide Insert, Splice;
    var at, run := InsertIsSplice(nodes, v, id, pos, cells, strict);
    SplicedNode(nodes, at, run, x, c);
    if HasNode(run, x, c) {
      var k :| 0 <= k < |run| && run[k].id == x && run[k].cell == c;
      assert x == Id(id.peer, id.counter + k) && c == cells[k];
    }
    if k :| 0 <= k < |cells| && x == Id(id.peer, id.counter + k) && c == cells[k] { assert run[k].id == x && run[k].cell == c; }
  }

  lemma {:induction false} InsertedOne(nodes: seq<Node>, v: View, id: Id, pos: int, cell: Cell, strict: bool, x: Id, c: Cell)
    requires Insert(nodes, v, id, pos, [cell], strict).Some?
    ensures HasNode(Insert(nodes, v, id, pos, [cell], strict).value, x, c) <==> HasNode(nodes, x, c) || (x == id && c == cell)
  {
    hide Insert, HasNode;
    InsertedNode(nodes, v, id, pos, [cell], strict, x, c);
    assert Id(id.peer, id.counter + 0) == id && [cell][0] == cell;
  }

  lemma {:induction false} SameNodes(nodes: seq<Node>, now: seq<Node>, x: Id, c: Cell)
    requires |now| == |nodes| && forall i :: 0 <= i < |nodes| ==> now[i].id == nodes[i].id && now[i].cell == nodes[i].cell
    ensures HasNode(now, x, c) <==> HasNode(nodes, x, c)
  {
    if HasNode(now, x, c) { var i :| 0 <= i < |now| && now[i].id == x && now[i].cell == c; assert nodes[i].id == x; }
    if HasNode(nodes, x, c) { var i :| 0 <= i < |nodes| && nodes[i].id == x && nodes[i].cell == c; assert now[i].id == x; }
  }

  /** Merging an op adds what it puts in and nothing else. */
  lemma {:induction false} ApplyPuts(s: SeqVal, op: Op, v: View, byPosition: bool, strict: bool, now: SeqVal, x: Id, c: Cell)
    requires Apply(s, op, v, byPosition, strict) == Some(now)
    ensures HasNode(now.nodes, x, c) <==> HasNode(s.nodes, x, c) || Puts(s, op.id in s.pendingEnd, op, v, x, c)
  {
    hide Insert, Seen, HasNode, RemoveAt, RemoveIds, NewElems;
    match op.body
    case Items(items) => ItemsPut(s, op, v, byPosition, strict, now, x, c);
    case MarkStart(info) => InsertedOne(s.nodes, v, op.id, op.pos, StartAnchor(info, Writer(op.lamport, op.id.peer)), strict, x, c);
    case MarkEnd => if op.id in s.pendingEnd { InsertedOne(s.nodes, v, op.id, s.pendingEnd[op.id], EndAnchor, strict, x, c); }
    case DeleteSeq(span) => DeletePuts(s, op, v, byPosition, strict, now, x, c);
    case ListMove(elem, from) => MovePuts(s, op, v, byPosition, strict, now, x, c);
    case ListSet(_, _) =>
    case Other(_) =>
  }

  lemma {:induction false} ItemsPut(s: SeqVal, op: Op, v: View, byPosition: bool, strict: bool, now: SeqVal, x: Id, c: Cell)
    requires op.body.Items? && Apply(s, op, v, byPosition, strict) == Some(now)
    ensures HasNode(now.nodes, x, c) <==> HasNode(s.nodes, x, c) || Puts(s, op.id in s.pendingEnd, op, v, x, c)
  {
    hide Insert, HasNode, NewElems;
    InsertedNode(s.nodes, v, op.id, op.pos, Cells(op), strict, x, c);
    var cells := Cells(op);
    if k :| 0 <= k < |cells| && x == Id(op.id.peer, op.id.counter + k) && c == cells[k] { assert PutsItem(op, k, x, c); }
    if k :| 0 <= k < |op.body.items| && PutsItem(op, k, x, c) { assert c == cells[k]; }
  }

  lemma {:induction false} DeletePuts(s: SeqVal, op: Op, v: View, byPosition: bool, strict: bool, now: SeqVal, x: Id, c: Cell)
    requires op.body.DeleteSeq? && Apply(s, op, v, byPosition, strict) == Some(now)
    ensures HasNode(now.nodes, x, c) <==> HasNode(s.nodes, x, c)
  {
    hide HasNode, Seen, Visible;
    SameNodes(s.nodes, now.nodes, x, c);
  }

  lemma {:induction false} MovePuts(s: SeqVal, op: Op, v: View, byPosition: bool, strict: bool, now: SeqVal, x: Id, c: Cell)
    requires op.body.ListMove? && Apply(s, op, v, byPosition, strict) == Some(now)
    ensures HasNode(now.nodes, x, c) <==> HasNode(s.nodes, x, c) || Puts(s, op.id in s.pendingEnd, op, v, x, c)
  {
    hide Insert, HasNode, Seen, Nth;
    if op.body.elem in s.elems && 0 <= op.body.from < |Seen(s.nodes, v)| {
      var src := Nth(s.nodes, v, op.body.from);
      var gone := s.nodes[src := AddDeleter(s.nodes[src], op.id)];
      SameNodes(s.nodes, gone, x, c);
      InsertedOne(gone, v.(own := op.id.counter + 1), op.id, op.pos, Position(op.body.elem), strict, x, c);
    }
  }

  /** The element of that rank in a view. */
  lemma {:induction false} RankOf(nodes: seq<Node>, v: View, i: nat, r: nat)
    requires Distinct(nodes) && i < |nodes| && r < |Seen(nodes, v)|
    ensures Seen(nodes, v)[r] == nodes[i].id <==> Visible(nodes[i], v) && |Seen(nodes[..i], v)| == r
  {
    hide Seen, Visible, Nth;
    if Visible(nodes[i], v) { NthIs(nodes, v, i); }
    if Seen(nodes, v)[r] == nodes[i].id {
      SeenVisible(nodes, v, r);
      SameIndex(nodes, i, Nth(nodes, v, r));
    }
  }

  ghost predicate TakesSome(s: SeqVal, op: Op, v: View, byPosition: bool, x: Id, d: Id) {
    exists k :: d == Id(op.id.peer, op.id.counter + k) && Takes(s, op, v, byPosition, x, k)
  }

  /** Every node of `now` is that of `nodes` with the deleters `Takes` adds. */
  ghost predicate Took(s: SeqVal, op: Op, v: View, byPosition: bool, n: Node, m: Node) {
    m.id == n.id && forall d :: d in m.deleters <==> d in n.deleters || TakesSome(s, op, v, byPosition, n.id, d)
  }

  lemma {:induction false} AllTook(s: SeqVal, op: Op, v: View, byPosition: bool, now: seq<Node>, x: Id, d: Id)
    requires |now| == |s.nodes| && forall i :: 0 <= i < |now| ==> Took(s, op, v, byPosition, s.nodes[i], now[i])
    ensures HasDeleter(now, x, d) <==> HasDeleter(s.nodes, x, d) || (x in Ids(s.nodes) && TakesSome(s, op, v, byPosition, x, d))
  {
    hide TakesSome;
    var nodes := s.nodes;
    if HasDeleter(now, x, d) {
      var i :| 0 <= i < |now| && now[i].id == x && d in now[i].deleters;
      assert Took(s, op, v, byPosition, nodes[i], now[i]) && nodes[i].id == x;
    }
    if HasDeleter(nodes, x, d) {
      var i :| 0 <= i < |nodes| && nodes[i].id == x && d in nodes[i].deleters;
      assert Took(s, op, v, byPosition, nodes[i], now[i]) && now[i].id == x;
    }
    if x in Ids(nodes) && TakesSome(s, op, v, byPosition, x, d) {
      var i :| 0 <= i < |nodes| && nodes[i].id == x;
      assert Took(s, op, v, byPosition, nodes[i], now[i]) && now[i].id == x;
    }
  }

  /** The element at index i is at rank r of its author's view, and r is among the delete's positions. */
  lemma {:induction false} PositionTakes(s: SeqVal, op: Op, v: View, i: nat)
    requires op.body.DeleteSeq? && op.cont.kind != MovableList && Distinct(s.nodes) && i < |s.nodes|
    requires InReach(Seen(s.nodes, v), op, op.body.span.len)
    ensures var low, n := Low(op.pos, op.body.span.len), Size(op.body.span.len);
      var r := |Seen(s.nodes[..i], v)| - low;
      forall k :: Takes(s, op, v, true, s.nodes[i].id, k) <==>
        Visible(s.nodes[i], v) && 0 <= r < n && k == if op.body.span.len < 0 then n - 1 - r else r
  {
    hide Seen, Visible;
    var span, seen := op.body.span, Seen(s.nodes, v);
    var low, n := Low(op.pos, span.len), Size(span.len);
    var r := |Seen(s.nodes[..i], v)| - low;
    forall k ensures Takes(s, op, v, true, s.nodes[i].id, k) <==> Visible(s.nodes[i], v) && 0 <= r < n && k == if span.len < 0 then n - 1 - r else r {
      if 0 <= k < n { RankOf(s.nodes, v, i, Rank(op, span.len, k)); }
    }
  }

  lemma {:induction false} ReachIs(nodes: seq<Node>, v: View, op: Op, len: int)
    ensures InReach(Seen(nodes, v), op, len) <==> CanRemoveAt(nodes, v, op.pos, len)
  {
    hide Seen;
    if InReach(Seen(nodes, v), op, len) {
      assert 0 <= Rank(op, len, 0) < |Seen(nodes, v)|;
      assert 0 <= Rank(op, len, Size(len) - 1) < |Seen(nodes, v)|;
    }
  }

  lemma {:induction false} PositionTook(s: SeqVal, op: Op, v: View, i: nat)
    requires op.body.DeleteSeq? && op.cont.kind != MovableList && Distinct(s.nodes) && i < |s.nodes|
    requires InReach(Seen(s.nodes, v), op, op.body.span.len) && Low(op.pos, op.body.span.len) >= 0
    ensures Took(s, op, v, true, s.nodes[i], RemoveAt(s.nodes, v, op.id, Low(op.pos, op.body.span.len), op.body.span.len)[i])
  {
    hide Seen, Visible, Takes, InReach;
    var span := op.body.span;
    var low, n := Low(op.pos, span.len), Size(span.len);
    var r := |Seen(s.nodes[..i], v)| - low;
    var x, m := s.nodes[i].id, RemoveAt(s.nodes, v, op.id, low, span.len)[i];
    PositionTakes(s, op, v, i);
    RemovedOne(s.nodes, v, op.id, low, span.len, i);
    if Visible(s.nodes[i], v) && 0 <= r < n { assert Takes(s, op, v, true, x, if span.len < 0 then n - 1 - r else r); }
  }

  lemma {:induction false} IdsTook(s: SeqVal, op: Op, v: View, byPosition: bool, i: nat)
    requires op.body.DeleteSeq? && i < |s.nodes|
    requires byPosition && op.cont.kind != MovableList ==> !InReach(Seen(s.nodes, v), op, op.body.span.len)
    ensures Took(s, op, v, byPosition, s.nodes[i], RemoveIds(s.nodes, op.id, op.body.span)[i])
  {
    hide Seen, InReach;
    var span := op.body.span;
    var x, m := s.nodes[i].id, RemoveIds(s.nodes, op.id, span)[i];
    forall k ensures Takes(s, op, v, byPosition, x, k) <==> span.Covers(x) && k == span.AtomFor(x.counter) {}
    if span.Covers(x) { assert Takes(s, op, v, byPosition, x, span.AtomFor(x.counter)); }
  }

  lemma {:induction false} DeleteTakes(s: SeqVal, op: Op, v: View, byPosition: bool, strict: bool, now: SeqVal, x: Id, d: Id)
    requires op.body.DeleteSeq? && Distinct(s.nodes) && ApplyDelete(s, op, v, byPosition, strict) == Some(now)
    ensures HasDeleter(now.nodes, x, d) <==> HasDeleter(s.nodes, x, d) || (x in Ids(s.nodes) && TakesSome(s, op, v, byPosition, x, d))
  {
    hide Seen, InReach, Took, TakesSome, RemoveAt, RemoveIds, HasDeleter, CanRemoveAt, Distinct;
    var span := op.body.span;
    ReachIs(s.nodes, v, op, span.len);
    forall i | 0 <= i < |now.nodes| ensures i < |s.nodes| && Took(s, op, v, byPosition, s.nodes[i], now.nodes[i]) {
      if byPosition && op.cont.kind != MovableList && InReach(Seen(s.nodes, v), op, span.len) {
        LowReached(s.nodes, v, op);
        PositionTook(s, op, v, i);
      } else {
        IdsTook(s, op, v, byPosition, i);
      }
    }
    AllTook(s, op, v, byPosition, now.nodes, x, d);
  }

  lemma {:induction false} LowReached(nodes: seq<Node>, v: View, op: Op)
    requires op.body.DeleteSeq? && CanRemoveAt(nodes, v, op.pos, op.body.span.len)
    ensures Low(op.pos, op.body.span.len) >= 0
  {
  }

  lemma {:induction false} SplicedDeleter(nodes: seq<Node>, at: nat, run: seq<Node>, x: Id, d: Id)
    requires at <= |nodes| && forall k :: 0 <= k < |run| ==> run[k].deleters == {}
    ensures HasDeleter(Splice(nodes, at, run), x, d) <==> HasDeleter(nodes, x, d)
  {
    hide Splice;
    var now := Splice(nodes, at, run);
    if HasDeleter(now, x, d) {
      var i :| 0 <= i < |now| && now[i].id == x && d in now[i].deleters;
      AfterSplice(nodes, at, run, i);
      assert i < at || i >= at + |run|;
      assert nodes[if i < at then i else i - |run|].id == x;
    }
    if HasDeleter(nodes, x, d) {
      var i :| 0 <= i < |nodes| && nodes[i].id == x && d in nodes[i].deleters;
      AfterSplice(nodes, at, run, if i < at then i else i + |run|);
      assert now[if i < at then i else i + |run|].id == x;
    }
  }

  lemma {:induction false} InsertDeletes(nodes: seq<Node>, v: View, id: Id, pos: int, cells: seq<Cell>, strict: bool, x: Id, d: Id)
    requires Insert(nodes, v, id, pos, cells, strict).Some?
    ensures HasDeleter(Insert(nodes, v, id, pos, cells, strict).value, x, d) <==> HasDeleter(nodes, x, d)
  {
    hide Insert, HasDeleter;
    var at, run := InsertIsSplice(nodes, v, id, pos, cells, strict);
    SplicedDeleter(nodes, at, run, x, d);
  }

  lemma {:induction false} MoveTakes(s: SeqVal, op: Op, v: View, byPosition: bool, strict: bool, now: SeqVal, x: Id, d: Id)
    requires op.body.ListMove? && Distinct(s.nodes) && ApplyMove(s, op, v, strict) == Some(now)
    ensures HasDeleter(now.nodes, x, d) <==> HasDeleter(s.nodes, x, d) || (x in Ids(s.nodes) && TakesSome(s, op, v, byPosition, x, d))
  {
    hide Seen, Nth, Insert, HasDeleter, Took, TakesSome, Distinct;
    var elem, from := op.body.elem, op.body.from;
    if elem in s.elems && 0 <= from < |Seen(s.nodes, v)| {
      var src := Nth(s.nodes, v, from);
      var gone := s.nodes[src := AddDeleter(s.nodes[src], op.id)];
      forall i | 0 <= i < |gone| ensures Took(s, op, v, byPosition, s.nodes[i], gone[i]) { MoveTook(s, op, v, byPosition, i); }
      AllTook(s, op, v, byPosition, gone, x, d);
      InsertDeletes(gone, v.(own := op.id.counter + 1), op.id, op.pos, [Position(elem)], strict, x, d);
    } else {
      NoneTaken(s, op, v, byPosition, x, d);
    }
  }

  lemma {:induction false} NoneTaken(s: SeqVal, op: Op, v: View, byPosition: bool, x: Id, d: Id)
    requires !op.body.DeleteSeq? && (op.body.ListMove? ==> op.body.elem !in s.elems || !(0 <= op.body.from < |Seen(s.nodes, v)|))
    ensures !TakesSome(s, op, v, byPosition, x, d)
  {
    hide Seen;
  }

  lemma {:induction false} MoveTook(s: SeqVal, op: Op, v: View, byPosition: bool, i: nat)
    requires op.body.ListMove? && Distinct(s.nodes) && i < |s.nodes| && op.body.elem in s.elems && 0 <= op.body.from < |Seen(s.nodes, v)|
    ensures var src := Nth(s.nodes, v, op.body.from);
      Took(s, op, v, byPosition, s.nodes[i], s.nodes[src := AddDeleter(s.nodes[src], op.id)][i])
  {
    hide Seen, Visible;
    var src := Nth(s.nodes, v, op.body.from);
    RankOf(s.nodes, v, i, op.body.from);
    RankOf(s.nodes, v, src, op.body.from);
    SeenVisible(s.nodes, v, op.body.from);
    assert Id(op.id.peer, op.id.counter + 0) == op.id;
    if s.nodes[i].id == s.nodes[src].id {
      SameIndex(s.nodes, i, src);
      assert Takes(s, op, v, byPosition, s.nodes[i].id, 0);
    }
  }

  /** Merging an op deletes what it takes and nothing else. */
  lemma {:induction false} ApplyTakes(s: SeqVal, op: Op, v: View, byPosition: bool, strict: bool, now: SeqVal, x: Id, d: Id)
    requires Distinct(s.nodes) && Apply(s, op, v, byPosition, strict) == Some(now)
    ensures HasDeleter(now.nodes, x, d) <==> HasDeleter(s.nodes, x, d) || (x in Ids(s.nodes) && TakesSome(s, op, v, byPosition, x, d))
  {
    hide Insert, Seen, HasDeleter, TakesSome, ApplyDelete, ApplyMove, NewElems, Distinct;
    match op.body
    case DeleteSeq(_) => DeleteTakes(s, op, v, byPosition, strict, now, x, d);
    case ListMove(_, _) => MoveTakes(s, op, v, byPosition, strict, now, x, d);
    case Items(_) =>
      NoneTaken(s, op, v, byPosition, x, d);
      InsertDeletes(s.nodes, v, op.id, op.pos, Cells(op), strict, x, d);
    case MarkStart(info) =>
      NoneTaken(s, op, v, byPosition, x, d);
      InsertDeletes(s.nodes, v, op.id, op.pos, [StartAnchor(info, Writer(op.lamport, op.id.peer))], strict, x, d);
    case MarkEnd =>
      NoneTaken(s, op, v, byPosition, x, d);
      if op.id in s.pendingEnd { InsertDeletes(s.nodes, v, op.id, s.pendingEnd[op.id], [EndAnchor], strict, x, d); }
    case _ => NoneTaken(s, op, v, byPosition, x, d);
  }
}
