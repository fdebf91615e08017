/** What a merged document's containers hold, op by op: every item inserted, every element deleted. */
module MergedContents {
  import opened Common
  import opened SeqTypes
  import opened SeqOrder
  import opened SeqInsert
  import opened SeqReference
  import opened SeqEdits
  import opened SeqFits
  import opened SeqPlan
  import opened SeqEffect
  import opened SeqApply
  import opened SeqSwap
  import opened SeqConverge
  import opened SeqViews
  import opened SeqHistory
  import opened SeqMachine
  import opened SeqMerge
  import opened CausalHistory
  import opened Ops
  import opened MovStates
  import opened SeqContents
  import opened ReplayContents

  // ----- what an author sees after its insert -----

  /** The cells an author sees, in order. */
  ghost function SeenCells(nodes: seq<Node>, v: View): seq<Cell> {
    if nodes == [] then []
    else
      var n := nodes[|nodes| - 1];
      SeenCells(nodes[..|nodes| - 1], v) + if Visible(n, v) then [n.cell] else []
  }

  /** The characters or items among cells. */
  ghost function Plains(cells: seq<Cell>): seq<Value> {
    if cells == [] then []
    else
      var c := cells[|cells| - 1];
      Plains(cells[..|cells| - 1]) + if c.Plain? then [c.value] else []
  }

  lemma {:induction false} PlainsConcat(a: seq<Cell>, b: seq<Cell>)
    ensures Plains(a + b) == Plains(a) + Plains(b)
  {
    if b == [] {
      assert a + b == a;
    } else {
      var m := |b| - 1;
      assert (a + b)[..|a| + m] == a + b[..m];
      PlainsConcat(a, b[..m]);
    }
  }

  lemma {:induction false} AllPlains(items: seq<Value>, cells: seq<Cell>)
    requires |cells| == |items| && forall k :: 0 <= k < |items| ==> cells[k] == Plain(items[k])
    ensures Plains(cells) == items
  {
    if items != [] {
      var m := |items| - 1;
      AllPlains(items[..m], cells[..m]);
      assert items == items[..m] + [items[m]];
    }
  }

  lemma {:induction false} SeenCellsAre(nodes: seq<Node>, v: View)
    ensures |SeenCells(nodes, v)| == |Seen(nodes, v)|
    ensures forall k :: 0 <= k < |Seen(nodes, v)| ==> HasNode(nodes, Seen(nodes, v)[k], SeenCells(nodes, v)[k])
  {
    hide Visible;
    if nodes != [] {
      var m := |nodes| - 1;
      SeenCellsAre(nodes[..m], v);
      forall k | 0 <= k < |Seen(nodes, v)| ensures HasNode(nodes, Seen(nodes, v)[k], SeenCells(nodes, v)[k]) {
        if k < |Seen(nodes[..m], v)| {
          var i :| 0 <= i < m && nodes[..m][i].id == Seen(nodes[..m], v)[k] && nodes[..m][i].cell == SeenCells(nodes[..m], v)[k];
          assert nodes[i].id == Seen(nodes, v)[k] && nodes[i].cell == SeenCells(nodes, v)[k];
        } else {
          assert nodes[m].id == Seen(nodes, v)[k] && nodes[m].cell == SeenCells(nodes, v)[k];
        }
      }
    }
  }

  lemma {:induction false} OneCell(nodes: seq<Node>, x: Id, c: Cell, d: Cell)
    requires Distinct(nodes) && HasNode(nodes, x, c) && HasNode(nodes, x, d)
    ensures c == d
  {
    var i :| 0 <= i < |nodes| && nodes[i].id == x && nodes[i].cell == c;
    var j :| 0 <= j < |nodes| && nodes[j].id == x && nodes[j].cell == d;
    SameIndex(nodes, i, j);
  }

  /** Ids spliced into a view are cells spliced into it. */
  lemma {:induction false} CellsSpliced(nodes: seq<Node>, v: View, w: View, at: nat, run: seq<Id>, cells: seq<Cell>)
    requires Distinct(nodes) && at <= |Seen(nodes, v)| && Seen(nodes, w) == Splice(Seen(nodes, v), at, run)
    requires |cells| == |run| && forall k :: 0 <= k < |run| ==> HasNode(nodes, run[k], cells[k])
    ensures at <= |SeenCells(nodes, v)| && SeenCells(nodes, w) == Splice(SeenCells(nodes, v), at, cells)
  {
    hide Seen, SeenCells, HasNode, Distinct;
    SeenCellsAre(nodes, v);
    SeenCellsAre(nodes, w);
    var now, was := SeenCells(nodes, w), SeenCells(nodes, v);
    forall i | 0 <= i < |now| ensures now[i] == Splice(was, at, cells)[i] {
      assert HasNode(nodes, Seen(nodes, w)[i], now[i]);
      if i < at { OneCell(nodes, Seen(nodes, w)[i], now[i], was[i]); }
      else if i < at + |run| { OneCell(nodes, Seen(nodes, w)[i], now[i], cells[i - at]); }
      else { OneCell(nodes, Seen(nodes, w)[i], now[i], was[i - |run|]); }
    }
  }

  /** The j-th op finds none of its atoms merged. */
  lemma {:induction false} FreshThen(es: seq<Event>, mode: Mode, j: nat)
    requires Honest(es, mode) && Causally(es) && Replay(es, mode).Some? && j < |es|
    ensures Replay(es[..j], mode).Some? && Mergeable(Replay(es[..j], mode).value, es[j].op, es[j].view)
  {
    hide Replay, Honest, Causally, Mergeable, AllAccounted, Distinct;
    FirstHolds(es, mode, j);
    FirstHolds(es, mode, j + 1);
    var key := ReplayHolds(es[..j], mode);
    assert es[..j + 1] == es[..j] + [es[j]];
    NextMergeable(Replay(es[..j], mode).value, es[..j], es[j], mode);
  }

  /** However much is merged after it, an insert has put its items, in order, at its position of what its author saw. */
  lemma {:induction false} InsertSeen(es: seq<Event>, mode: Mode, j: nat)
    requires Honest(es, mode) && Causally(es) && Replay(es, mode).Some? && j < |es|
    requires es[j].op.body.Items? && es[j].op.cont.kind != MovableList
    ensures var s, e := Replay(es, mode).value, es[j];
      var was, now, items := SeenCells(s.nodes, e.view), SeenCells(s.nodes, After(e)), e.op.body.items;
      var at := Clamp(e.op.pos, |was|);
      && now == was[..at] + seq(|items|, k requires 0 <= k < |items| => Plain(items[k])) + was[at..]
      && Plains(now) == Plains(was[..at]) + items + Plains(was[at..])
  {
    hide Replay, Honest, Causally, Insert, SeenCells, Seen, Plains, HasNode, Distinct, Mergeable;
    var s, e := Replay(es, mode).value, es[j];
    var items := e.op.body.items;
    var cells := seq(|items|, k requires 0 <= k < |items| => Plain(items[k]));
    FreshThen(es, mode, j);
    SeenThen(es, mode, j);
    ReplayDistinct(es, mode);
    ItemsSeen(Replay(es[..j], mode).value, e, mode, Replay(es[..j + 1], mode).value);
    SeenCellsAre(s.nodes, e.view);
    var at := Clamp(e.op.pos, |Seen(s.nodes, e.view)|);
    RunHas(es, mode, j, cells);
    CellsSpliced(s.nodes, e.view, After(e), at, RunIds(e.op.id, |items|), cells);
    var was := SeenCells(s.nodes, e.view);
    PlainsConcat(was[..at] + cells, was[at..]);
    PlainsConcat(was[..at], cells);
    AllPlains(items, cells);
  }

  lemma {:induction false} ItemsSeen(p: SeqVal, e: Event, mode: Mode, q: SeqVal)
    requires e.op.body.Items? && Mergeable(p, e.op, e.view) && Apply(p, e.op, e.view, mode.byPosition, mode.strict) == Some(q)
    ensures Clamp(e.op.pos, |Seen(p.nodes, e.view)|) <= |Seen(p.nodes, e.view)|
    ensures Seen(q.nodes, After(e)) == Splice(Seen(p.nodes, e.view), Clamp(e.op.pos, |Seen(p.nodes, e.view)|), RunIds(e.op.id, |e.op.body.items|))
  {
    hide Insert, Seen, RunIds, NewElems, Causal, FreshAtoms;
    InsertEdits(p.nodes, e.view, e.op.pos, Cells(e.op), mode.strict);
  }

  lemma {:induction false} RunHas(es: seq<Event>, mode: Mode, j: nat, cells: seq<Cell>)
    requires Honest(es, mode) && Causally(es) && Replay(es, mode).Some? && j < |es|
    requires es[j].op.body.Items? && |cells| == |es[j].op.body.items|
    requires forall k :: 0 <= k < |cells| ==> PutsItem(es[j].op, k, Id(es[j].op.id.peer, es[j].op.id.counter + k), cells[k])
    ensures forall k :: 0 <= k < |cells| ==> HasNode(Replay(es, mode).value.nodes, RunIds(es[j].op.id, |cells|)[k], cells[k])
  {
    hide Replay, Honest, Causally, HasNode;
    var s, e := Replay(es, mode).value, es[j];
    forall k | 0 <= k < |cells| ensures HasNode(s.nodes, RunIds(e.op.id, |cells|)[k], cells[k]) {
      var x := Id(e.op.id.peer, e.op.id.counter + k);
      ElementsAre(es, mode, x, cells[k]);
      assert e in es && Puts(s, Begun(es, e.op.id), e.op, e.view, x, cells[k]);
    }
  }

  // ----- deletes -----

  /** Two ops share no atom. */
  lemma {:induction false} OneTaker(es: seq<Event>, mode: Mode, e: Event, f: Event, d: Id)
    requires Honest(es, mode) && e in es && f in es && InAtoms(d, e.op.id, e.op.len) && InAtoms(d, f.op.id, f.op.len)
    ensures e == f
  {
    hide WellFormed, ReadsSeen, Transitive;
    assert e != f ==> HonestPair(e, f);
  }

  lemma {:induction false} TakesAtom(s: SeqVal, e: Event, byPosition: bool, x: Id, d: Id)
    requires WellFormed(e.op, e.view) && TakesSome(s, e.op, e.view, byPosition, x, d)
    ensures InAtoms(d, e.op.id, e.op.len)
  {
    hide Seen, InReach;
  }

  /** A merged delete's atom k deletes the element at its position of the author's view, or the one recorded, and that one
      alone. */
  lemma {:induction false} DeleteKept(es: seq<Event>, mode: Mode, e: Event, x: Id, k: nat)
    requires Honest(es, mode) && Causally(es) && Replay(es, mode).Some? && e in es && e.op.body.DeleteSeq? && k < e.op.len
    ensures var s := Replay(es, mode).value;
      HasDeleter(s.nodes, x, Id(e.op.id.peer, e.op.id.counter + k)) <==>
        x in Ids(s.nodes) && Takes(s, e.op, e.view, mode.byPosition, x, k)
  {
    hide Replay, Honest, Causally, HasDeleter, Takes, Ids;
    var s, d := Replay(es, mode).value, Id(e.op.id.peer, e.op.id.counter + k);
    DeletersAre(es, mode, x, d);
    EventIs(es, mode, e);
    if HasDeleter(s.nodes, x, d) {
      var f :| f in es && TakesSome(s, f.op, f.view, mode.byPosition, x, d);
      EventIs(es, mode, f);
      TakesAtom(s, f, mode.byPosition, x, d);
      OneTaker(es, mode, e, f, d);
    }
    if Takes(s, e.op, e.view, mode.byPosition, x, k) { assert TakesSome(s, e.op, e.view, mode.byPosition, x, d); }
  }

  lemma {:induction false} EventIs(es: seq<Event>, mode: Mode, e: Event)
    requires Honest(es, mode) && e in es
    ensures WellFormed(e.op, e.view)
  {
  }

  /** A strict merge by position has every delete reach only what its author saw. */
  lemma {:induction false} StrictReach(es: seq<Event>, mode: Mode, j: nat)
    requires Honest(es, mode) && Causally(es) && Replay(es, mode).Some? && j < |es| && mode.byPosition && mode.strict
    requires es[j].op.body.DeleteSeq? && es[j].op.cont.kind != MovableList
    ensures InReach(Seen(Replay(es, mode).value.nodes, es[j].view), es[j].op, es[j].op.body.span.len)
  {
    hide Replay, Honest, Causally, Seen, InReach, RemoveAt;
    SeenThen(es, mode, j);
    ReachIs(Replay(es[..j], mode).value.nodes, es[j].view, es[j].op, es[j].op.body.span.len);
  }

  // ----- merged documents -----

  /** The op belongs to a sequence container of its kind. */
  predicate Belongs(op: Op) {
    match op.body
    case Items(_) => op.cont.kind == Text || op.cont.kind == List || op.cont.kind == MovableList
    case DeleteSeq(_) => op.cont.kind == Text || op.cont.kind == List || op.cont.kind == MovableList
    case MarkStart(_) => op.cont.kind == Text
    case MarkEnd => op.cont.kind == Text
    case ListMove(_, _) => op.cont.kind == MovableList
    case ListSet(_, _) => op.cont.kind == MovableList
    case Other(_) => false
  }

  lemma {:induction false} BelongsTo(op: Op)
    requires Belongs(op)
    ensures Of(op, op.cont)
  {
  }

  lemma {:induction false} EventThere(h: History, ops: seq<Op>, op: Op)
    requires Complete(h) && op in ops && Of(op, op.cont)
    ensures EventOf(h, op) in EventsOf(h, ops, op.cont)
  {
    hide ViewOf;
    EventsCount(h, ops, op.cont, op);
    assert op in multiset(ops);
    assert EventOf(h, op) in multiset(EventsOf(h, ops, op.cont));
  }

  /** A merged document has each op's container, and that is the replay of the container's ops. */
  lemma {:induction false} InMerged(h: History, mode: Mode, ops: seq<Op>, seqs: map<ContKey, SeqState>, op: Op)
    requires Complete(h) && HonestOps(h, ops, mode) && InOrder(h, ops) && Merged(h, mode, ops, Some(seqs)) && op in ops && Belongs(op)
    ensures op.cont in seqs && Replay(EventsOf(h, ops, op.cont), mode) == Some(seqs[op.cont].Value())
    ensures EventOf(h, op) in EventsOf(h, ops, op.cont)
    ensures Honest(EventsOf(h, ops, op.cont), mode) && Causally(EventsOf(h, ops, op.cont))
  {
    hide Closed, CausalHistory.OwnSeen, Past, ViewOf, HonestOp, HonestTwo, NotBefore, Replay, EventsOf, Honest, Causally, EventOf, SeqState.Valid;
    BelongsTo(op);
    EventThere(h, ops, op);
    forall o | o in ops ensures TellsOp(h, o) { HonestTells(h, o, mode); }
    EventsHonest(h, ops, op.cont, mode);
    EventsCausal(h, ops, op.cont);
    assert StateRight(h, ops, op.cont, mode, seqs[op.cont]);
  }

  /** Each item of each insert is in the merged container under its own id, in a MovableList as the position of its
      element. */
  lemma {:induction false} MergedItems(h: History, mode: Mode, ops: seq<Op>, seqs: map<ContKey, SeqState>, op: Op, k: nat)
    requires Complete(h) && HonestOps(h, ops, mode) && InOrder(h, ops) && Merged(h, mode, ops, Some(seqs)) && op in ops
    requires op.cont.kind == Text || op.cont.kind == List || op.cont.kind == MovableList
    requires op.body.Items? && k < |op.body.items|
    ensures op.cont in seqs
    ensures HasNode(seqs[op.cont].nodes, Id(op.id.peer, op.id.counter + k),
      if op.cont.kind == MovableList then Position(ElemKey(op.id.peer, op.lamport + k)) else Plain(op.body.items[k]))
  {
    hide Closed, CausalHistory.OwnSeen, HonestOps, InOrder, Merged, Replay, EventsOf, Honest, Causally, ViewOf, SeqState.Valid;
    InMerged(h, mode, ops, seqs, op);
    var x := Id(op.id.peer, op.id.counter + k);
    var c := if op.cont.kind == MovableList then Position(ElemKey(op.id.peer, op.lamport + k)) else Plain(op.body.items[k]);
    var es, s, e := EventsOf(h, ops, op.cont), seqs[op.cont].Value(), EventOf(h, op);
    ElementsAre(es, mode, x, c);
    assert PutsItem(op, k, x, c);
    assert Puts(s, Begun(es, op.id), e.op, e.view, x, c);
  }

  /** Every character or item of a merged Text or List is one some insert put there. */
  lemma {:induction false} MergedOnlyItems(h: History, mode: Mode, ops: seq<Op>, key: ContKey, s: SeqVal, x: Id, value: Value)
    requires Complete(h) && HonestOps(h, ops, mode) && InOrder(h, ops) && Replay(EventsOf(h, ops, key), mode) == Some(s)
    requires HasNode(s.nodes, x, Plain(value))
    ensures exists op: Op, k: nat :: ItemOf(ops, key, op, k) && x == Id(op.id.peer, op.id.counter + k) && value == op.body.items[k]
  {
    hide Closed, CausalHistory.OwnSeen, HonestOp, HonestTwo, NotBefore, Replay, EventsOf, Honest, Causally, ViewOf, HasNode, Seen;
    var es := EventsOf(h, ops, key);
    forall o | o in ops ensures TellsOp(h, o) { HonestTells(h, o, mode); }
    EventsHonest(h, ops, key, mode);
    EventsCausal(h, ops, key);
    ElementsAre(es, mode, x, Plain(value));
    var e :| e in es && Puts(s, Begun(es, e.op.id), e.op, e.view, x, Plain(value));
    EventIn(h, ops, key, e);
    var k :| 0 <= k < |e.op.body.items| && PutsItem(e.op, k, x, Plain(value));
    assert ItemOf(ops, key, e.op, k);
  }

  /** The op is one of the container's inserts with a k-th item. */
  ghost predicate ItemOf(ops: seq<Op>, key: ContKey, op: Op, k: nat) {
    op in ops && op.cont == key && op.body.Items? && k < |op.body.items|
  }

  /** In the merged Text or List, whatever others did, an insert's author saw its items spliced into what it saw before,
      anchors counting as positions. */
  lemma {:induction false} MergedInsert(h: History, mode: Mode, ops: seq<Op>, seqs: map<ContKey, SeqState>, op: Op)
    requires Complete(h) && HonestOps(h, ops, mode) && InOrder(h, ops) && Merged(h, mode, ops, Some(seqs)) && op in ops
    requires (op.cont.kind == Text || op.cont.kind == List) && op.body.Items?
    ensures op.cont in seqs
    ensures var nodes, v := seqs[op.cont].nodes, ViewOf(h, op.id);
      var was, now := SeenCells(nodes, v), SeenCells(nodes, v.(own := op.id.counter + op.len));
      var at := if op.pos < 0 then 0 else if op.pos > |was| then |was| else op.pos;
      && now == was[..at] + seq(|op.body.items|, k requires 0 <= k < |op.body.items| => Plain(op.body.items[k])) + was[at..]
      && Plains(now) == Plains(was[..at]) + op.body.items + Plains(was[at..])
  {
    hide Closed, CausalHistory.OwnSeen, HonestOps, InOrder, Merged, Replay, EventsOf, Honest, Causally, Tops, SeqState.Valid, SeenCells, Plains;
    InMerged(h, mode, ops, seqs, op);
    var es, e := EventsOf(h, ops, op.cont), EventOf(h, op);
    var j :| 0 <= j < |es| && es[j] == e;
    InsertSeen(es, mode, j);
  }

  /** In every kind of sequence container each delete op leaves its atoms on the elements it removes, and on no others:
      by position those at its positions of its author's view, else those it recorded. */
  lemma {:induction false} MergedDelete(h: History, mode: Mode, ops: seq<Op>, seqs: map<ContKey, SeqState>, op: Op, x: Id, k: nat)
    requires Complete(h) && HonestOps(h, ops, mode) && InOrder(h, ops) && Merged(h, mode, ops, Some(seqs)) && op in ops
    requires op.cont.kind == Text || op.cont.kind == List || op.cont.kind == MovableList
    requires op.body.DeleteSeq? && k < op.len
    ensures op.cont in seqs
    ensures var nodes, len := seqs[op.cont].nodes, op.body.span.len;
      var seen := Seen(nodes, ViewOf(h, op.id));
      var placed := mode.byPosition && op.cont.kind != MovableList && InReach(seen, op, len);
      && (mode.byPosition && mode.strict && op.cont.kind != MovableList ==> placed)
      && (placed ==> 0 <= (if len < 0 then op.pos - k else op.pos + k) < |seen|)
      && (HasDeleter(nodes, x, Id(op.id.peer, op.id.counter + k)) <==>
            x in Ids(nodes) && x == if placed then seen[if len < 0 then op.pos - k else op.pos + k] else Named(op.body.span, k))
  {
    hide Closed, CausalHistory.OwnSeen, HonestOps, InOrder, Merged, Replay, EventsOf, Honest, Causally, ViewOf, SeqState.Valid, HasDeleter, Seen, Ids;
    InMerged(h, mode, ops, seqs, op);
    var es, e, s := EventsOf(h, ops, op.cont), EventOf(h, op), seqs[op.cont].Value();
    var j :| 0 <= j < |es| && es[j] == e;
    EventFits(es, mode, j);
    DeleteKept(es, mode, e, x, k);
    if mode.byPosition && mode.strict && op.cont.kind != MovableList { StrictReach(es, mode, j); }
    TakesIs(s, e, mode.byPosition, x, k);
  }

  lemma {:induction false} TakesIs(s: SeqVal, e: Event, byPosition: bool, x: Id, k: nat)
    requires e.op.body.DeleteSeq? && WellFormed(e.op, e.view) && k < e.op.len
    ensures var seen, len := Seen(s.nodes, e.view), e.op.body.span.len;
      var placed := byPosition && e.op.cont.kind != MovableList && InReach(seen, e.op, len);
      && (placed ==> 0 <= Rank(e.op, len, k) < |seen|)
      && (Takes(s, e.op, e.view, byPosition, x, k) <==> x == if placed then seen[Rank(e.op, len, k)] else Named(e.op.body.span, k))
  {
    hide Seen;
  }
}
