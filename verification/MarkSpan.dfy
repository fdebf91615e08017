/** Where a mark's anchors come to stand: around just the elements its author marked. */
module MarkSpans {
  import opened Common
  import opened SeqTypes
  import opened SeqOrder
  import opened SeqInsert
  import opened SeqReference
  import opened SeqEdits
  import opened SeqFits
  import opened SeqPlan
  import opened SeqEffect
  import opened SeqApply
  import opened SeqSwap
  import opened SeqConverge
  import opened SeqViews
  import opened SeqHistory
  import opened SeqMachine
  import opened SeqMerge
  import opened CausalHistory
  import opened Ops
  import opened MovStates
  import opened SeqContents
  import opened ReplayContents
  import opened MergedContents
  import opened RichTexts
  import opened RenderedTexts

  // ----- order -----

  lemma {:induction false} SeenIndex(nodes: seq<Node>, v: View, r: nat)
    requires Distinct(nodes) && r < |Seen(nodes, v)|
    ensures Seen(nodes, v)[r] in Ids(nodes) && IndexOf(nodes, Seen(nodes, v)[r]) == Nth(nodes, v, r)
  {
    hide Seen, Visible, Distinct, Nth;
    SeenVisible(nodes, v, r);
    IndexOfIs(nodes, Nth(nodes, v, r));
  }

  /** Elements stand in the order an author sees them. */
  lemma {:induction false} SeenRises(nodes: seq<Node>, v: View, p: nat, q: nat)
    requires Distinct(nodes) && p < |Seen(nodes, v)| && q < |Seen(nodes, v)|
    ensures IndexOf(nodes, Seen(nodes, v)[p]) < IndexOf(nodes, Seen(nodes, v)[q]) <==> p < q
  {
    hide Seen, Visible, Distinct, Nth;
    SeenIndex(nodes, v, p);
    SeenIndex(nodes, v, q);
    SeenVisible(nodes, v, p);
    SeenVisible(nodes, v, q);
    var i, j := Nth(nodes, v, p), Nth(nodes, v, q);
    if i < j { RankGrows(nodes, v, i, j); }
    if j < i { RankGrows(nodes, v, j, i); }
  }

  /** One element spliced in at each of two positions: which of the others come between. */
  lemma {:induction false} BetweenTwo(nodes: seq<Node>, v: View, seen: seq<Id>, a: Id, b: Id, start: int, len: int, r: nat)
    requires Distinct(nodes) && r < |seen|
    requires Seen(nodes, v) == Splice(Splice(seen, Clamp(start, |seen|), [a]), Clamp(start + len + 1, |seen| + 1), [b])
    ensures IndexOf(nodes, a) < IndexOf(nodes, seen[r]) < IndexOf(nodes, b) <==> start <= r < start + len
    ensures IndexOf(nodes, seen[r]) != IndexOf(nodes, b)
  {
    hide Seen, Distinct, Splice;
    var at, to := Clamp(start, |seen|), Clamp(start + len + 1, |seen| + 1);
    var one := Splice(seen, at, [a]);
    var x := if r < at then r else r + 1;
    assert one[x] == seen[r] by { if r >= at { assert one[r + |[a]|] == seen[r]; } }
    assert one[at + 0] == [a][0];
    var all := Splice(one, to, [b]);
    assert all[to + 0] == [b][0];
    var p, q := if at < to then at else at + 1, if x < to then x else x + 1;
    assert all[p] == a by { if at >= to { assert all[at + |[b]|] == one[at]; } }
    assert all[q] == seen[r] by { if x >= to { assert all[x + |[b]|] == one[x]; } }
    SeenRises(nodes, v, p, q);
    SeenRises(nodes, v, q, to);
    SeenRises(nodes, v, to, q);
  }

  // ----- a mark start and its mark end -----

  /** The j-th event ends the mark the i-th begins, made by the same author right after it. */
  ghost predicate Marks(es: seq<Event>, i: nat, j: nat)
    requires i < |es| && j < |es|
  {
    && es[i].op.body.MarkStart? && es[j].op.body.MarkEnd? && es[j].op.id == Id(es[i].op.id.peer, es[i].op.id.counter + 1)
    && SameHas(es[j].view, After(es[i]))
  }

  lemma {:induction false} OneSpliced(p: SeqVal, e: Event, mode: Mode, q: SeqVal, pos: int, cell: Cell)
    requires Mergeable(p, e.op, e.view) && e.op.len == 1
    requires Insert(p.nodes, e.view, e.op.id, pos, [cell], mode.strict) == Some(q.nodes)
    ensures Seen(q.nodes, After(e)) == Splice(Seen(p.nodes, e.view), Clamp(pos, |Seen(p.nodes, e.view)|), [e.op.id])
  {
    hide Insert, Seen, Causal, FreshAtoms;
    InsertEdits(p.nodes, e.view, pos, [cell], mode.strict);
    assert RunIds(e.op.id, 1) == [e.op.id];
  }

  lemma {:induction false} StartSeen(es: seq<Event>, mode: Mode, i: nat)
    requires Honest(es, mode) && Causally(es) && Replay(es, mode).Some? && i < |es| && es[i].op.body.MarkStart?
    ensures var s, e := Replay(es, mode).value, es[i];
      Seen(s.nodes, After(e)) == Splice(Seen(s.nodes, e.view), Clamp(e.op.pos, |Seen(s.nodes, e.view)|), [e.op.id])
  {
    hide Replay, Honest, Causally, Insert, Seen, Mergeable;
    FreshThen(es, mode, i);
    SeenThen(es, mode, i);
    var e := es[i];
    EventFits(es, mode, i);
    StartInserts(Replay(es[..i], mode).value, e, mode, Replay(es[..i + 1], mode).value);
    OneSpliced(Replay(es[..i], mode).value, e, mode, Replay(es[..i + 1], mode).value, e.op.pos,
               StartAnchor(e.op.body.info, Writer(e.op.lamport, e.op.id.peer)));
  }

  lemma {:induction false} StartInserts(p: SeqVal, e: Event, mode: Mode, q: SeqVal)
    requires e.op.body.MarkStart? && Apply(p, e.op, e.view, mode.byPosition, mode.strict) == Some(q)
    ensures Insert(p.nodes, e.view, e.op.id, e.op.pos, [StartAnchor(e.op.body.info, Writer(e.op.lamport, e.op.id.peer))], mode.strict) == Some(q.nodes)
  {
    hide Insert;
  }

  lemma {:induction false} EndInserts(p: SeqVal, e: Event, mode: Mode, q: SeqVal)
    requires e.op.body.MarkEnd? && e.op.id in p.pendingEnd && Apply(p, e.op, e.view, mode.byPosition, mode.strict) == Some(q)
    ensures Insert(p.nodes, e.view, e.op.id, p.pendingEnd[e.op.id], [EndAnchor], mode.strict) == Some(q.nodes)
  {
    hide Insert;
  }

  /** When the mark end is merged, its anchor is awaited past the marked elements and the start anchor. */
  lemma {:induction false} EndWaits(es: seq<Event>, mode: Mode, i: nat, j: nat)
    requires Honest(es, mode) && Causally(es) && i < |es| && j < |es| && Marks(es, i, j) && Replay(es[..j], mode).Some?
    ensures var p := Replay(es[..j], mode).value;
      es[j].op.id in p.pendingEnd && p.pendingEnd[es[j].op.id] == es[i].op.body.info.start + es[i].op.body.info.len + 1
  {
    hide Replay, Honest, Causally, SameHas;
    var end, e := es[j].op.id, es[i];
    BeginsFirst(es, mode, i, j);
    assert es[..j][i] == e;
    forall f | f in es[..j] ensures !(f.op.body.MarkEnd? && f.op.id == end) && (Begins(f.op, end) ==> f == e) {
      var k :| 0 <= k < j && es[..j][k] == f;
      OneMarkEnd(es, mode, j, k);
      if k < i { OneMarkEnd(es, mode, i, k); }
      if i < k { OneMarkEnd(es, mode, k, i); }
    }
    EndsAwaited(es[..j], mode, end);
    assert e in es[..j] && Begins(e.op, end);
  }

  lemma {:induction false} EndSeen(es: seq<Event>, mode: Mode, i: nat, j: nat)
    requires Honest(es, mode) && Causally(es) && Replay(es, mode).Some? && i < |es| && j < |es| && Marks(es, i, j)
    ensures var s, e, info := Replay(es, mode).value, es[j], es[i].op.body.info;
      Seen(s.nodes, After(e)) == Splice(Seen(s.nodes, e.view), Clamp(info.start + info.len + 1, |Seen(s.nodes, e.view)|), [e.op.id])
  {
    hide Replay, Honest, Causally, Insert, Seen, Mergeable, Marks;
    FreshThen(es, mode, j);
    SeenThen(es, mode, j);
    EndWaits(es, mode, i, j);
    EventFits(es, mode, j);
    EndOf(es, i, j);
    var e, info := es[j], es[i].op.body.info;
    EndInserts(Replay(es[..j], mode).value, e, mode, Replay(es[..j + 1], mode).value);
    OneSpliced(Replay(es[..j], mode).value, e, mode, Replay(es[..j + 1], mode).value, info.start + info.len + 1, EndAnchor);
  }

  lemma {:induction false} EndOf(es: seq<Event>, i: nat, j: nat)
    requires i < |es| && j < |es| && Marks(es, i, j)
    ensures es[i].op.body.MarkStart? && es[j].op.body.MarkEnd? && SameHas(es[j].view, After(es[i]))
  {
  }

  /** Once everything is merged, the elements the author saw between a mark's anchors are those of the ranks it marked. */
  lemma {:induction false} AnchorsAround(es: seq<Event>, mode: Mode, i: nat, j: nat, r: nat)
    requires Honest(es, mode) && Causally(es) && Replay(es, mode).Some? && i < |es| && j < |es| && Marks(es, i, j)
    requires es[i].op.pos == es[i].op.body.info.start && r < |Seen(Replay(es, mode).value.nodes, es[i].view)|
    ensures var nodes, info := Replay(es, mode).value.nodes, es[i].op.body.info;
      var x := Seen(nodes, es[i].view)[r];
      && (IndexOf(nodes, es[i].op.id) < IndexOf(nodes, x) < IndexOf(nodes, es[j].op.id) <==> info.start <= r < info.start + info.len)
      && IndexOf(nodes, x) != IndexOf(nodes, es[j].op.id)
  {
    hide Replay, Honest, Causally, Seen, Marks, SameHas, Splice, Distinct;
    EndOf(es, i, j);
    StartSeen(es, mode, i);
    EndSeen(es, mode, i, j);
    ReplayDistinct(es, mode);
    var nodes, info := Replay(es, mode).value.nodes, es[i].op.body.info;
    SeqViews.SeenSame(nodes, es[j].view, After(es[i]));
    BetweenTwo(nodes, After(es[j]), Seen(nodes, es[i].view), es[i].op.id, es[j].op.id, info.start, info.len, r);
  }

  // ----- the characters a mark is around -----

  /** Both anchors live: the mark is around the places between them. */
  lemma {:induction false} AroundBetween(nodes: seq<Node>, m: Mark, end: Id, c: nat)
    requires Distinct(nodes) && c < |nodes| && StartOf(end) == m.id
    requires HasNode(nodes, m.id, StartAnchor(m.info, m.writer)) && HasNode(nodes, end, EndAnchor) && c != IndexOf(nodes, end)
    ensures m.id in Ids(nodes) && end in Ids(nodes)
    ensures m in OpenMarks(nodes, c) <==>
      IsLive(nodes[IndexOf(nodes, m.id)]) && IsLive(nodes[IndexOf(nodes, end)]) && IndexOf(nodes, m.id) < c < IndexOf(nodes, end)
    ensures m in OpenMarks(nodes, c) <==> Spans(nodes, IndexOf(nodes, m.id), c)
  {
    hide Distinct, OpenAt, Spans;
    var i :| 0 <= i < |nodes| && nodes[i].id == m.id && nodes[i].cell == StartAnchor(m.info, m.writer);
    var e :| 0 <= e < |nodes| && nodes[e].id == end && nodes[e].cell == EndAnchor;
    IndexOfIs(nodes, i);
    IndexOfIs(nodes, e);
    OpenFrom(nodes, i, e, c);
    SpansOpen(nodes, i, c);
    assert MarkOf(nodes[i]) == m;
    if m in OpenMarks(nodes, c) {
      var k := OpenNode(nodes, c, m);
      SameIndex(nodes, k, i);
    }
  }

  lemma {:induction false} OpenNode(nodes: seq<Node>, c: nat, m: Mark) returns (k: nat)
    requires c <= |nodes| && m in OpenMarks(nodes, c)
    ensures k < c && OpenAt(nodes, k, c) && nodes[k].id == m.id
  {
    k :| 0 <= k < c && OpenAt(nodes, k, c) && MarkOf(nodes[k]) == m;
  }

  lemma {:induction false} OpenFrom(nodes: seq<Node>, i: nat, e: nat, c: nat)
    requires Distinct(nodes) && i < |nodes| && e < |nodes| && c < |nodes| && c != e
    requires nodes[i].cell.StartAnchor? && nodes[e].cell.EndAnchor? && StartOf(nodes[e].id) == nodes[i].id
    ensures OpenAt(nodes, i, c) <==> IsLive(nodes[i]) && IsLive(nodes[e]) && i < c < e
  {
    hide Distinct;
    forall f | 0 <= f < |nodes| && EndsMark(nodes[f]) && StartOf(nodes[f].id) == nodes[i].id ensures f == e {
      assert nodes[f].id == nodes[e].id;
      SameIndex(nodes, f, e);
    }
  }

  lemma {:induction false} AnchorsThere(es: seq<Event>, mode: Mode, i: nat, j: nat)
    requires Honest(es, mode) && Causally(es) && Replay(es, mode).Some? && i < |es| && j < |es| && Marks(es, i, j)
    ensures var nodes, a := Replay(es, mode).value.nodes, es[i].op;
      HasNode(nodes, a.id, StartAnchor(a.body.info, Writer(a.lamport, a.id.peer))) && HasNode(nodes, es[j].op.id, EndAnchor)
  {
    hide Replay, Honest, Causally, HasNode, SameHas;
    var a, b, s := es[i].op, es[j].op, Replay(es, mode).value;
    var c := StartAnchor(a.body.info, Writer(a.lamport, a.id.peer));
    ElementsAre(es, mode, a.id, c);
    ElementsAre(es, mode, b.id, EndAnchor);
    assert es[i] in es && Begins(es[i].op, b.id);
    assert Puts(s, Begun(es, a.id), a, es[i].view, a.id, c);
    assert es[j] in es && Puts(s, Begun(es, b.id), b, es[j].view, b.id, EndAnchor);
  }

  /** In the end a mark is around an element its author saw exactly when neither anchor is deleted and the element's rank
      is one of those marked. */
  lemma {:induction false} MarkCovers(es: seq<Event>, mode: Mode, i: nat, j: nat, r: nat)
    requires Honest(es, mode) && Causally(es) && Replay(es, mode).Some? && i < |es| && j < |es| && Marks(es, i, j)
    requires es[i].op.pos == es[i].op.body.info.start && r < |Seen(Replay(es, mode).value.nodes, es[i].view)|
    ensures var nodes, a, b := Replay(es, mode).value.nodes, es[i].op, es[j].op;
      var x, info := Seen(nodes, es[i].view)[r], a.body.info;
      && {a.id, b.id, x} <= Ids(nodes)
      && (Mark(a.id, info, Writer(a.lamport, a.id.peer)) in OpenMarks(nodes, IndexOf(nodes, x)) <==>
            IsLive(nodes[IndexOf(nodes, a.id)]) && IsLive(nodes[IndexOf(nodes, b.id)]) && info.start <= r < info.start + info.len)
      && (Mark(a.id, info, Writer(a.lamport, a.id.peer)) in OpenMarks(nodes, IndexOf(nodes, x)) <==>
            Spans(nodes, IndexOf(nodes, a.id), IndexOf(nodes, x)))
  {
    hide Replay, Honest, Causally, Seen, Marks, SameHas, Distinct, HasNode, OpenMarks, Spans;
    EndOf(es, i, j);
    ReplayDistinct(es, mode);
    AnchorsAround(es, mode, i, j, r);
    AnchorsThere(es, mode, i, j);
    var nodes, a, b := Replay(es, mode).value.nodes, es[i].op, es[j].op;
    SeenIndex(nodes, es[i].view, r);
    EndId(es, i, j);
    AroundBetween(nodes, Mark(a.id, a.body.info, Writer(a.lamport, a.id.peer)), b.id, IndexOf(nodes, Seen(nodes, es[i].view)[r]));
  }

  lemma {:induction false} EndId(es: seq<Event>, i: nat, j: nat)
    requires i < |es| && j < |es| && Marks(es, i, j)
    ensures StartOf(es[j].op.id) == es[i].op.id
  {
    hide SameHas;
  }

  // ----- merged documents -----

  /** An atom that depends on its author's previous one alone was made seeing what that one's author saw, and it. */
  lemma {:induction false} NextView(h: History, x: Id, y: Id)
    requires Complete(h) && x in h && y in h && y == Id(x.peer, x.counter + 1) && h[y].deps == {x}
    ensures SameHas(ViewOf(h, y), ViewOf(h, x).(own := y.counter))
  {
    hide Past, Tops;
    var v, w := ViewOf(h, y), ViewOf(h, x).(own := y.counter);
    forall z ensures Past(h, z, y) <==> z == x || Past(h, z, x) { PastNext(h, x, y, z); }
    forall z ensures v.Has(z) <==> w.Has(z) {
      TopsCover(PastOf(h, y), z);
      TopsCover(PastOf(h, x), z);
      if u :| u in PastOf(h, x) && u.peer == z.peer && z.counter <= u.counter { PastIn(h, u, x); assert u in PastOf(h, y); }
    }
  }

  lemma {:induction false} PastNext(h: History, x: Id, y: Id, z: Id)
    requires Complete(h) && y in h && h[y].deps == {x}
    ensures Past(h, z, y) <==> z == x || Past(h, z, x)
  {
    assert x in h[y].deps;
  }

  /** A mark a and its end b, made one after the other in a Text: in the merged document, whatever others merged before,
      between or after, the mark is around exactly the elements its author selected. */
  lemma {:induction false} MergedMark(h: History, mode: Mode, ops: seq<Op>, seqs: map<ContKey, SeqState>, a: Op, b: Op, r: nat)
    requires Complete(h) && HonestOps(h, ops, mode) && InOrder(h, ops) && Merged(h, mode, ops, Some(seqs)) && a in ops && b in ops
    requires a.cont.kind == Text && b.cont == a.cont && a.body.MarkStart? && b.body.MarkEnd? && a.pos == a.body.info.start
    requires b.id == Id(a.id.peer, a.id.counter + 1) && b.id in h && h[b.id].deps == {a.id}
    ensures a.cont in seqs && HasNode(seqs[a.cont].nodes, b.id, EndAnchor)
    ensures HasNode(seqs[a.cont].nodes, a.id, StartAnchor(a.body.info, Writer(a.lamport, a.id.peer)))
    ensures var nodes, info := seqs[a.cont].nodes, a.body.info;
      var seen := Seen(nodes, ViewOf(h, a.id));
      r < |seen| ==>
        && {a.id, b.id, seen[r]} <= Ids(nodes)
        && (IndexOf(nodes, a.id) < IndexOf(nodes, seen[r]) < IndexOf(nodes, b.id) <==> info.start <= r < info.start + info.len)
        && (Spans(nodes, IndexOf(nodes, a.id), IndexOf(nodes, seen[r])) <==>
              nodes[IndexOf(nodes, a.id)].deleters == {} && nodes[IndexOf(nodes, b.id)].deleters == {}
              && info.start <= r < info.start + info.len)
  {
    hide Closed, CausalHistory.OwnSeen, HonestOps, InOrder, Merged, Replay, EventsOf, Honest, Causally, ViewOf, SeqState.Valid, Seen, SameHas, OpenMarks, Spans, HasNode;
    InMerged(h, mode, ops, seqs, a);
    InMerged(h, mode, ops, seqs, b);
    var es := EventsOf(h, ops, a.cont);
    var i :| 0 <= i < |es| && es[i] == EventOf(h, a);
    var j :| 0 <= j < |es| && es[j] == EventOf(h, b);
    InHistory(h, ops, a, mode);
    NextView(h, a.id, b.id);
    EventFits(es, mode, i);
    assert Marks(es, i, j);
    AnchorsThere(es, mode, i, j);
    if r < |Seen(seqs[a.cont].nodes, ViewOf(h, a.id))| {
      AnchorsAround(es, mode, i, j, r);
      MarkCovers(es, mode, i, j, r);
    }
  }

  lemma {:induction false} InHistory(h: History, ops: seq<Op>, op: Op, mode: Mode)
    requires Complete(h) && HonestOps(h, ops, mode) && op in ops
    ensures op.id in h
  {
    hide HonestTwo;
    HonestTells(h, op, mode);
    assert InAtoms(op.id, op.id, op.len);
  }
}
