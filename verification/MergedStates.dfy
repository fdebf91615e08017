/** What every merged state is like: a MovableList's elements are housed, a Text's marks tell their authors. */
module MergedStates {
  import opened Common
  import opened SeqTypes
  import opened SeqOrder
  import opened SeqInsert
  import opened SeqReference
  import opened SeqEdits
  import opened SeqFits
  import opened SeqLive
  import opened SeqApply
  import opened SeqSwap
  import opened SeqConverge
  import opened SeqViews
  import opened SeqHistory
  import opened SeqMerge
  import opened CausalHistory
  import opened Ops
  import opened MovRanks
  import opened MovStates
  import opened RichTexts
  import opened Deltas

  // ----- elements of a MovableList -----

  lemma {:induction false} RecordedKept(nodes: seq<Node>, id: Id, span: DeleteSpan)
    ensures Kept(nodes, RemoveIds(nodes, id, span))
  {
    var now := RemoveIds(nodes, id, span);
    forall i | 0 <= i < |nodes| ensures HasNode(now, nodes[i].id, nodes[i].cell) { assert now[i].id == nodes[i].id; }
  }

  /** Merging a MovableList op keeps every element at a position made for it, moves lost to others included. */
  lemma {:induction false} ApplyHoused(s: SeqVal, op: Op, v: View, byPosition: bool, strict: bool)
    requires op.cont.kind == MovableList && op.IsSeq() && (op.body.Items? ==> op.len == |op.body.items|)
    requires Housed(s.nodes, s.elems) && Apply(s, op, v, byPosition, strict).Some?
    ensures var now := Apply(s, op, v, byPosition, strict).value; Housed(now.nodes, now.elems)
  {
    hide Insert, Seen, Housed, NewElems, RemoveIds;
    var now := Apply(s, op, v, byPosition, strict).value;
    match op.body {
      case Items(_) => InsertHoused(s, op, v, strict, now);
      case DeleteSeq(span) =>
        RecordedKept(s.nodes, op.id, span);
        KeptHoused(s.nodes, now.nodes, s.elems);
      case ListMove(_, _) => MoveHoused(s, op, v, strict, now);
      case ListSet(_, _) => SamePlaces(s.nodes, s.elems, now.elems);
      case _ =>
    }
  }

  lemma {:induction false} SamePlaces(nodes: seq<Node>, elems: Elems, now: Elems)
    requires Housed(nodes, elems) && now.Keys == elems.Keys && forall e :: e in elems ==> now[e].pos == elems[e].pos
    ensures Housed(nodes, now)
  {
    hide HasNode;
    forall e | e in now ensures HasNode(nodes, now[e].pos, Position(e)) { assert HasNode(nodes, elems[e].pos, Position(e)); }
  }

  lemma {:induction false} InsertHoused(s: SeqVal, op: Op, v: View, strict: bool, now: SeqVal)
    requires op.cont.kind == MovableList && op.body.Items? && op.len == |op.body.items| && Housed(s.nodes, s.elems)
    requires Insert(s.nodes, v, op.id, op.pos, Cells(op), strict) == Some(now.nodes) && now.elems == NewElems(s.elems, op, op.len)
    ensures Housed(now.nodes, now.elems)
  {
    hide Insert, Housed, NewElems, HasNode, Kept, Splice;
    var at, run := InsertIsSplice(s.nodes, v, op.id, op.pos, Cells(op), strict);
    SplicedKept(s.nodes, at, run);
    NewHoused(s, op, now.nodes, run);
  }

  lemma {:induction false} MoveHoused(s: SeqVal, op: Op, v: View, strict: bool, now: SeqVal)
    requires op.body.ListMove? && Housed(s.nodes, s.elems) && ApplyMove(s, op, v, strict) == Some(now)
    ensures Housed(now.nodes, now.elems)
  {
    hide Insert, Seen, HasNode, Kept, Splice;
    var elem := op.body.elem;
    if elem in s.elems && 0 <= op.body.from < |Seen(s.nodes, v)| {
      var src := Nth(s.nodes, v, op.body.from);
      var gone := s.nodes[src := AddDeleter(s.nodes[src], op.id)];
      MarkedKept(s.nodes, src, op.id);
      KeptHoused(s.nodes, gone, s.elems);
      var at, run := InsertIsSplice(gone, v.(own := op.id.counter + 1), op.id, op.pos, [Position(elem)], strict);
      SplicedKept(gone, at, run);
      KeptHoused(gone, now.nodes, s.elems);
      assert HasNode(now.nodes, run[0].id, run[0].cell);
    }
  }

  /** Replaying any ops of a MovableList leaves every element at a position made for it. */
  lemma {:induction false} ReplayHoused(es: seq<Event>, mode: Mode)
    requires forall e :: e in es ==> e.op.cont.kind == MovableList && e.op.IsSeq() && (e.op.body.Items? ==> e.op.len == |e.op.body.items|)
    requires Replay(es, mode).Some?
    ensures var s := Replay(es, mode).value; Housed(s.nodes, s.elems)
  {
    hide Housed, Apply;
    if es == [] {
      NothingHoused();
    } else {
      var n := |es| - 1;
      assert es[n] in es;
      ReplayHoused(es[..n], mode);
      ApplyHoused(Replay(es[..n], mode).value, es[n].op, es[n].view, mode.byPosition, mode.strict);
    }
  }

  lemma {:induction false} NothingHoused()
    ensures Housed([], map[])
  {
  }

  // ----- how late an element's names and writers are -----

  ghost predicate Before(elems: Elems, l: int) {
    forall e :: e in elems ==> e.lamport < l && elems[e].posWriter.lamport < l && elems[e].valueWriter.lamport < l
  }

  lemma {:induction false} NewBefore(elems: Elems, op: Op, n: nat, l: int)
    requires op.body.Items? && n <= |op.body.items| && Before(elems, l) && op.lamport + n <= l
    ensures Before(NewElems(elems, op, n), l)
  {
    if n > 0 { NewBefore(elems, op, n - 1, l); }
  }

  lemma {:induction false} ApplyBefore(s: SeqVal, op: Op, v: View, byPosition: bool, strict: bool, l: int)
    requires Before(s.elems, l) && op.lamport + op.len <= l && op.len >= 1 && (op.body.Items? ==> op.len == |op.body.items|)
    requires Apply(s, op, v, byPosition, strict).Some?
    ensures Before(Apply(s, op, v, byPosition, strict).value.elems, l)
  {
    hide Insert, Seen, Nth, NewElems, RemoveIds, RemoveAt;
    if op.body.Items? { NewBefore(s.elems, op, op.len, l); }
  }

  lemma {:induction false} ReplayBefore(es: seq<Event>, mode: Mode, l: int)
    requires forall e :: e in es ==> e.op.lamport + e.op.len <= l && e.op.len >= 1 && (e.op.body.Items? ==> e.op.len == |e.op.body.items|)
    requires Replay(es, mode).Some?
    ensures Before(Replay(es, mode).value.elems, l)
  {
    hide Before, Apply;
    if es == [] {
      NothingBefore(l);
    } else {
      var n := |es| - 1;
      assert es[n] in es;
      ReplayBefore(es[..n], mode, l);
      ApplyBefore(Replay(es[..n], mode).value, es[n].op, es[n].view, mode.byPosition, mode.strict, l);
    }
  }

  lemma {:induction false} NothingBefore(l: int)
    ensures Before(map[], l)
  {
  }

  // ----- elements of a Text -----

  ghost predicate FromNode(n: Node, nodes: seq<Node>) {
    exists i :: 0 <= i < |nodes| && nodes[i].id == n.id && nodes[i].cell == n.cell
  }

  /** A character or an anchor; a start anchor is its mark op's own id and writer. */
  ghost predicate MadeIn(n: Node, op: Op) {
    && !n.cell.Position?
    && (n.cell.StartAnchor? ==> n.id == op.id && n.cell.writer == Writer(op.lamport, op.id.peer))
  }

  lemma {:induction false} SplicedFrom(nodes: seq<Node>, at: nat, run: seq<Node>, i: nat)
    requires at <= |nodes| && i < |nodes| + |run|
    ensures var n := Splice(nodes, at, run)[i]; FromNode(n, nodes) || n in run
  {
    AfterSplice(nodes, at, run, i);
  }

  /** Merging a Text op leaves old elements what they are and makes the new ones tell their op. */
  lemma {:induction false} ApplyText(s: SeqVal, op: Op, v: View, byPosition: bool, strict: bool, now: SeqVal, i: nat)
    requires op.cont.kind == Text && op.IsSeq() && Apply(s, op, v, byPosition, strict) == Some(now) && i < |now.nodes|
    ensures FromNode(now.nodes[i], s.nodes) || MadeIn(now.nodes[i], op)
  {
    hide Insert, Seen, FromNode, RemoveAt, RemoveIds;
    match op.body {
      case Items(_) => InsertText(s.nodes, op, v, op.pos, Cells(op), strict, now.nodes, i);
      case MarkStart(info) => InsertText(s.nodes, op, v, op.pos, [StartAnchor(info, Writer(op.lamport, op.id.peer))], strict, now.nodes, i);
      case MarkEnd =>
        if op.id in s.pendingEnd { InsertText(s.nodes, op, v, s.pendingEnd[op.id], [EndAnchor], strict, now.nodes, i); } else { Stays(s.nodes, i); }
      case DeleteSeq(span) => DeletedFrom(s.nodes, v, op, i);
      case _ =>
    }
  }

  lemma {:induction false} Stays(nodes: seq<Node>, i: nat)
    requires i < |nodes|
    ensures FromNode(nodes[i], nodes)
  {
  }

  lemma {:induction false} DeletedFrom(nodes: seq<Node>, v: View, op: Op, i: nat)
    requires op.body.DeleteSeq? && i < |nodes|
    ensures FromNode(RemoveIds(nodes, op.id, op.body.span)[i], nodes)
    ensures Low(op.pos, op.body.span.len) >= 0 ==> FromNode(RemoveAt(nodes, v, op.id, Low(op.pos, op.body.span.len), op.body.span.len)[i], nodes)
  {
    hide Seen, Visible;
    assert RemoveIds(nodes, op.id, op.body.span)[i].cell == nodes[i].cell;
    if Low(op.pos, op.body.span.len) >= 0 {
      assert RemoveAt(nodes, v, op.id, Low(op.pos, op.body.span.len), op.body.span.len)[i].cell == nodes[i].cell;
    }
  }

  lemma {:induction false} InsertText(nodes: seq<Node>, op: Op, v: View, pos: int, cells: seq<Cell>, strict: bool, now: seq<Node>, i: nat)
    requires Insert(nodes, v, op.id, pos, cells, strict) == Some(now) && i < |now|
    requires forall k :: 0 <= k < |cells| ==> !cells[k].Position? && (cells[k].StartAnchor? ==> k == 0 && cells[k].writer == Writer(op.lamport, op.id.peer))
    ensures FromNode(now[i], nodes) || MadeIn(now[i], op)
  {
    hide Insert, Splice, FromNode;
    var at, run := InsertIsSplice(nodes, v, op.id, pos, cells, strict);
    SplicedFrom(nodes, at, run, i);
    if now[i] in run {
      var k :| 0 <= k < |run| && run[k] == now[i];
      assert run[k].cell == cells[k];
    }
  }

  ghost predicate MadeSome(n: Node, es: seq<Event>) { exists e :: e in es && MadeIn(n, e.op) }

  /** Every element of a replayed Text tells the op that made it. */
  lemma {:induction false} ReplayText(es: seq<Event>, mode: Mode)
    requires forall e :: e in es ==> e.op.cont.kind == Text && e.op.IsSeq()
    requires Replay(es, mode).Some?
    ensures forall i :: 0 <= i < |Replay(es, mode).value.nodes| ==> MadeSome(Replay(es, mode).value.nodes[i], es)
  {
    hide Apply, MadeIn, FromNode;
    if es != [] {
      var n := |es| - 1;
      assert es[n] in es;
      ReplayText(es[..n], mode);
      var s, now := Replay(es[..n], mode).value, Replay(es, mode).value;
      forall i | 0 <= i < |now.nodes| ensures MadeSome(now.nodes[i], es) {
        ApplyText(s, es[n].op, es[n].view, mode.byPosition, mode.strict, now, i);
        if FromNode(now.nodes[i], s.nodes) { MadeStill(now.nodes[i], s.nodes, es); }
      }
    }
  }

  lemma {:induction false} MadeStill(n: Node, nodes: seq<Node>, es: seq<Event>)
    requires es != [] && FromNode(n, nodes) && forall i :: 0 <= i < |nodes| ==> MadeSome(nodes[i], es[..|es| - 1])
    ensures MadeSome(n, es)
  {
    var i :| 0 <= i < |nodes| && nodes[i].id == n.id && nodes[i].cell == n.cell;
    assert MadeSome(nodes[i], es[..|es| - 1]);
    var e :| e in es[..|es| - 1] && MadeIn(nodes[i], e.op);
    assert e in es && MadeIn(n, e.op);
  }

  /** Different ops of one history differ in lamport or peer. */
  lemma {:induction false} OpsApart(h: History, a: Op, b: Op)
    requires Complete(h) && TellsOp(h, a) && TellsOp(h, b) && a.id != b.id
    ensures a.lamport != b.lamport || a.id.peer != b.id.peer
  {
    hide Past;
    assert InAtoms(a.id, a.id, a.len) && InAtoms(b.id, b.id, b.len);
    if a.id.peer == b.id.peer {
      if a.id.counter < b.id.counter {
        OwnPast(h, a.id, b.id);
        PastIn(h, a.id, b.id);
      } else {
        OwnPast(h, b.id, a.id);
        PastIn(h, b.id, a.id);
      }
    }
  }

  // ----- merged documents -----

  /** What holds of one container after a merge. */
  lemma {:induction false} MergedOrdered(h: History, ops: seq<Op>, key: ContKey, mode: Mode)
    requires Complete(h) && HonestOps(h, ops, mode) && InOrder(h, ops) && Replay(EventsOf(h, ops, key), mode).Some?
    ensures Distinct(Replay(EventsOf(h, ops, key), mode).value.nodes)
    ensures AllAccounted(Replay(EventsOf(h, ops, key), mode).value.nodes, EventsOf(h, ops, key))
  {
    hide Replay, EventsOf, Honest, Causally, InOrder, HonestOp, HonestTwo, AllAccounted, Past, ViewOf;
    forall op | op in ops ensures TellsOp(h, op) { HonestTells(h, op, mode); }
    EventsHonest(h, ops, key, mode);
    EventsCausal(h, ops, key);
    var k := ReplayHolds(EventsOf(h, ops, key), mode);
  }

  lemma {:induction false} EventsLike(h: History, ops: seq<Op>, key: ContKey, mode: Mode)
    requires Complete(h) && HonestOps(h, ops, mode)
    ensures forall e :: e in EventsOf(h, ops, key) ==> e.op in ops && Of(e.op, key) && TellsOp(h, e.op) && RightLength(e.op)
  {
    hide EventsOf, HonestTwo, NamesSeen, ViewOf;
    forall e | e in EventsOf(h, ops, key) ensures e.op in ops && Of(e.op, key) && TellsOp(h, e.op) && RightLength(e.op) {
      EventIn(h, ops, key, e);
    }
  }

  /** In a merged MovableList every element is at a position made for it. */
  lemma {:induction false} MergedHoused(h: History, ops: seq<Op>, key: ContKey, mode: Mode)
    requires Complete(h) && HonestOps(h, ops, mode) && InOrder(h, ops) && key.kind == MovableList
    requires Replay(EventsOf(h, ops, key), mode).Some?
    ensures var s := Replay(EventsOf(h, ops, key), mode).value; Distinct(s.nodes) && Housed(s.nodes, s.elems)
  {
    hide Replay, EventsOf, InOrder, HonestOps, Housed, TellsOp, ViewOf;
    MergedOrdered(h, ops, key, mode);
    EventsLike(h, ops, key, mode);
    ReplayHoused(EventsOf(h, ops, key), mode);
  }

  /** A merged Text is made of characters and anchors, its marks by writers of their own. */
  lemma {:induction false} MergedText(h: History, ops: seq<Op>, key: ContKey, mode: Mode)
    requires Complete(h) && HonestOps(h, ops, mode) && InOrder(h, ops) && key.kind == Text
    requires Replay(EventsOf(h, ops, key), mode).Some?
    ensures TextNodes(Replay(EventsOf(h, ops, key), mode).value.nodes)
  {
    hide Replay, EventsOf, InOrder, HonestOps, TellsOp, ViewOf, Distinct;
    MergedOrdered(h, ops, key, mode);
    EventsLike(h, ops, key, mode);
    var es := EventsOf(h, ops, key);
    ReplayText(es, mode);
    var nodes := Replay(es, mode).value.nodes;
    forall i | 0 <= i < |nodes| ensures !nodes[i].cell.Position? { assert MadeSome(nodes[i], es); }
    forall i, j | 0 <= i < j < |nodes| && Starts(nodes[i]) && Starts(nodes[j])
      ensures MarkOf(nodes[i]).writer.After(MarkOf(nodes[j]).writer) || MarkOf(nodes[j]).writer.After(MarkOf(nodes[i]).writer)
    {
      OtherIds(nodes, i, j);
      assert MadeSome(nodes[i], es) && MadeSome(nodes[j], es);
      var e :| e in es && MadeIn(nodes[i], e.op);
      var f :| f in es && MadeIn(nodes[j], f.op);
      OpsApart(h, e.op, f.op);
    }
  }

  lemma {:induction false} OtherIds(nodes: seq<Node>, i: nat, j: nat)
    requires Distinct(nodes) && i < j < |nodes|
    ensures nodes[i].id != nodes[j].id
  {
  }
}
