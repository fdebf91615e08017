/** Deletes read by the ids they recorded and by position: the same where the ids recorded are those there. */
module SeqRecorded {
  import opened Common
  import opened SeqTypes
  import opened SeqOrder
  import opened SeqReference
  import opened SeqEdits
  import opened SeqApply
  import opened SeqSwap
  import opened SeqConverge
  import opened SeqHistory
  import opened SeqMerge
  import opened MergedStates
  import opened CausalHistory
  import opened Ops

  /** The elements at the delete's positions of its author's view are those its span names. */
  ghost predicate Recorded(nodes: seq<Node>, v: View, op: Op)
    requires op.body.DeleteSeq?
  {
    var span := op.body.span;
    var low := Low(op.pos, span.len);
    CanRemoveAt(nodes, v, op.pos, span.len)
    && forall r :: low <= r < low + span.Size() ==> Seen(nodes, v)[r] == Id(span.peer, span.counter + (r - low))
  }

  /** An element is in the span exactly when its rank is among the positions. */
  lemma {:induction false} InSpan(nodes: seq<Node>, v: View, op: Op, i: nat)
    requires op.body.DeleteSeq? && Distinct(nodes) && Recorded(nodes, v, op) && i < |nodes|
    ensures var span, k := op.body.span, |Seen(nodes[..i], v)| - Low(op.pos, op.body.span.len);
      && (span.Covers(nodes[i].id) <==> Visible(nodes[i], v) && 0 <= k < span.Size())
      && (Visible(nodes[i], v) && 0 <= k < span.Size() ==> nodes[i].id.counter == span.counter + k)
  {
    hide Visible, Seen, Nth;
    var span := op.body.span;
    var low := Low(op.pos, span.len);
    if Visible(nodes[i], v) {
      NthIs(nodes, v, i);
      var k := |Seen(nodes[..i], v)| - low;
      if 0 <= k < span.Size() { assert Seen(nodes, v)[low + k] == Id(span.peer, span.counter + k); }
    }
    if span.Covers(nodes[i].id) {
      var c := nodes[i].id.counter - span.counter;
      assert Seen(nodes, v)[low + c] == Id(span.peer, span.counter + c);
      ShownAt(nodes, v, low + c, i);
    }
  }

  lemma {:induction false} ShownAt(nodes: seq<Node>, v: View, r: nat, i: nat)
    requires Distinct(nodes) && r < |Seen(nodes, v)| && i < |nodes| && nodes[i].id == Seen(nodes, v)[r]
    ensures Visible(nodes[i], v) && |Seen(nodes[..i], v)| == r
  {
    hide Visible, Seen, Nth;
    NthMet(nodes, v, r, i);
  }

  lemma {:induction false} NthMet(nodes: seq<Node>, v: View, r: nat, i: nat)
    requires Distinct(nodes) && r < |Seen(nodes, v)| && i < |nodes| && nodes[i].id == Seen(nodes, v)[r]
    ensures Nth(nodes, v, r) == i && Visible(nodes[i], v) && |Seen(nodes[..i], v)| == r
  {
    hide Visible;
    var j := Nth(nodes, v, r);
    NthIs(nodes, v, j);
    if i < j { OtherIds(nodes, i, j); }
    if j < i { OtherIds(nodes, j, i); }
  }

  /** Then both readings mark the same elements with the same atoms. */
  lemma {:induction false} SameDelete(nodes: seq<Node>, v: View, op: Op)
    requires op.body.DeleteSeq? && Distinct(nodes) && Recorded(nodes, v, op)
    ensures RemoveAt(nodes, v, op.id, Low(op.pos, op.body.span.len), op.body.span.len) == RemoveIds(nodes, op.id, op.body.span)
  {
    hide Visible, Seen, Recorded;
    Range(nodes, v, op);
    var a, b := RemoveAt(nodes, v, op.id, Low(op.pos, op.body.span.len), op.body.span.len), RemoveIds(nodes, op.id, op.body.span);
    forall i | 0 <= i < |nodes| ensures a[i] == b[i] { InSpan(nodes, v, op, i); }
  }

  lemma {:induction false} Range(nodes: seq<Node>, v: View, op: Op)
    requires op.body.DeleteSeq? && Recorded(nodes, v, op)
    ensures Low(op.pos, op.body.span.len) >= 0 && CanRemoveAt(nodes, v, op.pos, op.body.span.len)
  {
  }

  ghost predicate RecordedIn(s: Option<SeqVal>, e: Event) {
    s.Some? && e.op.body.DeleteSeq? && e.op.cont.kind != MovableList ==> Recorded(s.value.nodes, e.view, e.op)
  }

  /** Every delete recorded what it removed. */
  ghost predicate AllRecorded(es: seq<Event>, strict: bool) {
    forall i :: 0 <= i < |es| ==> RecordedIn(Replay(es[..i], Mode(true, strict)), es[i])
  }

  lemma {:induction false} SameStep(s: SeqVal, e: Event, strict: bool)
    requires Distinct(s.nodes) && RecordedIn(Some(s), e)
    ensures Apply(s, e.op, e.view, true, strict) == Apply(s, e.op, e.view, false, strict)
  {
    hide Insert, Seen, RemoveAt, RemoveIds, Recorded, Nth, NewElems, Distinct;
    if e.op.body.DeleteSeq? && e.op.cont.kind != MovableList {
      SameDelete(s.nodes, e.view, e.op);
      Range(s.nodes, e.view, e.op);
    }
  }

  ghost predicate DistinctThroughout(es: seq<Event>, strict: bool) {
    forall i :: 0 <= i < |es| && Replay(es[..i], Mode(true, strict)).Some? ==> Distinct(Replay(es[..i], Mode(true, strict)).value.nodes)
  }

  lemma {:induction false} PrefixRecorded(es: seq<Event>, strict: bool)
    requires es != [] && AllRecorded(es, strict) && DistinctThroughout(es, strict)
    ensures AllRecorded(es[..|es| - 1], strict) && DistinctThroughout(es[..|es| - 1], strict)
  {
    hide Replay, RecordedIn, Distinct;
    var p := es[..|es| - 1];
    forall i | 0 <= i < |p| ensures RecordedIn(Replay(p[..i], Mode(true, strict)), p[i]) { assert p[..i] == es[..i] && p[i] == es[i]; }
    forall i | 0 <= i < |p| && Replay(p[..i], Mode(true, strict)).Some? ensures Distinct(Replay(p[..i], Mode(true, strict)).value.nodes) {
      assert p[..i] == es[..i];
    }
  }

  lemma {:induction false} SameReadings(es: seq<Event>, strict: bool)
    requires AllRecorded(es, strict) && DistinctThroughout(es, strict)
    ensures Replay(es, Mode(true, strict)) == Replay(es, Mode(false, strict))
  {
    hide Apply, RecordedIn, Distinct;
    if es != [] {
      var n := |es| - 1;
      PrefixRecorded(es, strict);
      SameReadings(es[..n], strict);
      var s := Replay(es[..n], Mode(true, strict));
      assert RecordedIn(s, es[n]);
      if s.Some? { SameStep(s.value, es[n], strict); }
    }
  }

  /** In a history whose deletes recorded what they removed, resolving deletes by position and by recorded ids
      merges every container to the same sequence. */
  lemma {:induction false} RecordedMerge(h: History, ops: seq<Op>, key: ContKey, strict: bool)
    requires Complete(h) && HonestOps(h, ops, Mode(true, strict)) && InOrder(h, ops) && AllRecorded(EventsOf(h, ops, key), strict)
    ensures Replay(EventsOf(h, ops, key), Mode(true, strict)) == Replay(EventsOf(h, ops, key), Mode(false, strict))
  {
    hide HonestOp, HonestTwo, NotBefore, Replay, EventsOf, AllRecorded, Distinct, Honest, Causally;
    var es, mode := EventsOf(h, ops, key), Mode(true, strict);
    forall op | op in ops ensures TellsOp(h, op) { HonestTells(h, op, mode); }
    EventsHonest(h, ops, key, mode);
    EventsCausal(h, ops, key);
    forall i | 0 <= i < |es| && Replay(es[..i], mode).Some? ensures Distinct(Replay(es[..i], mode).value.nodes) {
      PrefixDistinct(es, mode, i);
    }
    SameReadings(es, strict);
  }

  lemma {:induction false} PrefixDistinct(es: seq<Event>, mode: Mode, i: nat)
    requires Honest(es, mode) && Causally(es) && i <= |es| && Replay(es[..i], mode).Some?
    ensures Distinct(Replay(es[..i], mode).value.nodes)
    decreases |es|
  {
    hide Replay, Distinct, Honest, Causally;
    if i == |es| {
      assert es[..i] == es;
      var key := ReplayHolds(es, mode);
      OrderedDistinct(Replay(es, mode).value.nodes, key);
    } else {
      var n := |es| - 1;
      assert es == es[..n] + [es[n]];
      HonestPrefix(es[..n], es[n], mode);
      CausalPrefix(es);
      assert es[..n][..i] == es[..i];
      PrefixDistinct(es[..n], mode, i);
    }
  }

  lemma {:induction false} OrderedDistinct(nodes: seq<Node>, key: Keys)
    requires Ordered(nodes, key)
    ensures Distinct(nodes)
  {
  }

  lemma {:induction false} CausalPrefix(es: seq<Event>)
    requires Causally(es) && es != []
    ensures Causally(es[..|es| - 1])
  {
    hide Unseen;
    var p := es[..|es| - 1];
    forall i, j | 0 <= i < j < |p| ensures Unseen(p[i].view, p[j].op) { assert Unseen(es[i].view, es[j].op); }
  }
}
