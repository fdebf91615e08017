/** A document's kept state after a local op: what merging its whole history anew would give. */
module LocalEdits {
  import opened Common
  import opened SeqTypes
  import opened SeqReference
  import opened SeqEdits
  import opened SeqFits
  import opened SeqLive
  import opened SeqApply
  import opened SeqSwap
  import opened SeqConverge
  import opened SeqViews
  import opened SeqHistory
  import opened SeqMachine
  import opened SeqMerge
  import opened SeqRuns
  import opened CausalHistory
  import opened CausalIndices
  import opened Ops
  import opened MovStates
  import opened MovIndices
  import opened RichTexts
  import opened RenderedTexts
  import opened Deltas
  import opened MergedStates

  /** The op's author has every atom merged so far. */
  ghost predicate SeesAll(h: History, ops: seq<Op>, op: Op)
    requires Complete(h)
  {
    forall x :: AtomOf(ops, x) ==> Past(h, x, op.id)
  }

  // ----- a longer history -----

  ghost predicate Extends(h: History, now: History) { forall x :: x in h ==> x in now && now[x] == h[x] }

  lemma {:induction false} PastSame(h: History, now: History, x: Id, y: Id)
    requires Closed(h) && Closed(now) && Extends(h, now) && y in h
    ensures Past(h, x, y) <==> Past(now, x, y)
    decreases h[y].lamport
  {
    forall d | d in h[y].deps ensures Past(h, x, d) <==> Past(now, x, d) { PastSame(h, now, x, d); }
  }

  lemma {:induction false} ViewSame(h: History, now: History, y: Id)
    requires Complete(h) && Complete(now) && Extends(h, now) && y in h
    ensures ViewOf(h, y) == ViewOf(now, y)
  {
    hide Past, Closed, CausalHistory.OwnSeen, Tops;
    forall x ensures x in PastOf(h, y) <==> x in PastOf(now, y) {
      PastSame(h, now, x, y);
      if Past(h, x, y) { PastIn(h, x, y); }
      if Past(now, x, y) { PastIn(now, x, y); }
    }
    assert PastOf(h, y) == PastOf(now, y);
  }

  /** New atoms change nothing of what the authors of old ones had seen. */
  lemma {:induction false} EventsStay(h: History, now: History, ops: seq<Op>, key: ContKey)
    requires Complete(h) && Complete(now) && Extends(h, now) && forall op :: op in ops ==> op.id in h
    ensures EventsOf(h, ops, key) == EventsOf(now, ops, key)
  {
    hide ViewOf, Closed, CausalHistory.OwnSeen;
    if ops != [] {
      var n := |ops| - 1;
      assert ops[n] in ops;
      EventsStay(h, now, ops[..n], key);
      ViewSame(h, now, ops[n].id);
    }
  }

  // ----- what a local op finds -----

  lemma {:induction false} AllSeen(h: History, ops: seq<Op>, op: Op, key: ContKey, nodes: seq<Node>)
    requires Complete(h) && AllAccounted(nodes, EventsOf(h, ops, key)) && SeesAll(h, ops, op) && op.id in h
    requires forall o :: o in ops ==> TellsOp(h, o)
    ensures AllInView(nodes, ViewOf(h, op.id))
  {
    hide Past, ViewOf, EventsOf, TellsOp, AtomOf;
    forall i | 0 <= i < |nodes| ensures InView(nodes[i], ViewOf(h, op.id)) {
      assert Accounted(nodes[i], EventsOf(h, ops, key));
      var e :| e in EventsOf(h, ops, key) && MadeBy(nodes[i], e);
      EventAtom(h, ops, key, e, nodes[i].id);
      ViewIsPast(h, nodes[i].id, op.id);
      forall d | d in nodes[i].deleters ensures ViewOf(h, op.id).Has(d) {
        var f :| f in EventsOf(h, ops, key) && InAtoms(d, f.op.id, f.op.len);
        EventAtom(h, ops, key, f, d);
        ViewIsPast(h, d, op.id);
      }
    }
  }

  /** Its lamport is past every lamport merged. */
  lemma {:induction false} Later(h: History, ops: seq<Op>, op: Op, o: Op)
    requires Complete(h) && SeesAll(h, ops, op) && TellsOp(h, op) && o in ops && TellsOp(h, o)
    ensures o.lamport + o.len <= op.lamport
  {
    hide Past;
    var last := Id(o.id.peer, o.id.counter + o.len - 1);
    assert InAtoms(last, o.id, o.len) && AtomOf(ops, last);
    PastIn(h, last, op.id);
    assert InAtoms(op.id, op.id, op.len);
  }

  /** A local op can be merged into the kept state, with everything in view and its writes the latest. */
  lemma {:induction false} LocalHolds(h: History, ops: seq<Op>, op: Op, mode: Mode)
    requires Complete(h) && HonestOps(h, ops + [op], mode) && InOrder(h, ops + [op]) && op.IsSeq() && SeesAll(h, ops, op)
    requires Replay(EventsOf(h, ops, op.cont), mode).Some?
    ensures var s := Replay(EventsOf(h, ops, op.cont), mode).value;
      && AllInView(s.nodes, ViewOf(h, op.id)) && Mergeable(s, op, ViewOf(h, op.id))
      && (op.cont.kind == MovableList ==> Local(s, op, ViewOf(h, op.id)))
  {
    hide Replay, EventsOf, InOrder, HonestOps, HonestOp, HonestTwo, TellsOp, ViewOf, Past, AllAccounted, AllInView, Mergeable, Closed,
      CausalHistory.OwnSeen, Local, Housed, SeesAll;
    NextHolds(h, ops, op, op.cont, mode);
    PartsHonest(h, ops, op, mode);
    var s := Replay(EventsOf(h, ops, op.cont), mode).value;
    AllSeen(h, ops, op, op.cont, s.nodes);
    if op.cont.kind == MovableList {
      PrefixInOrder(h, ops, op);
      MergedHoused(h, ops, op.cont, mode);
      EventsLike(h, ops, op.cont, mode);
      forall e | e in EventsOf(h, ops, op.cont)
        ensures e.op.lamport + e.op.len <= op.lamport && e.op.len >= 1 && (e.op.body.Items? ==> e.op.len == |e.op.body.items|)
      {
        Later(h, ops, op, e.op);
        Lengths(h, e.op);
      }
      ReplayBefore(EventsOf(h, ops, op.cont), mode, op.lamport);
      LatestLocal(s, op, ViewOf(h, op.id));
    }
  }

  lemma {:induction false} Lengths(h: History, op: Op)
    requires TellsOp(h, op) && RightLength(op)
    ensures op.len >= 1 && (op.body.Items? ==> op.len == |op.body.items|)
  {
  }

  lemma {:induction false} LatestLocal(s: SeqVal, op: Op, v: View)
    requires op.cont.kind == MovableList && op.IsSeq() && Mergeable(s, op, v) && AllInView(s.nodes, v)
    requires Distinct(s.nodes) && Housed(s.nodes, s.elems) && Before(s.elems, op.lamport)
    ensures Local(s, op, v)
  {
    hide Mergeable, AllInView, Distinct, Housed;
  }

  lemma {:induction false} PartsHonest(h: History, ops: seq<Op>, op: Op, mode: Mode)
    requires Complete(h) && HonestOps(h, ops + [op], mode)
    ensures HonestOps(h, ops, mode) && TellsOp(h, op) && op.id in h && forall o :: o in ops ==> TellsOp(h, o)
  {
    hide TellsOp, HonestTwo, NamesSeen, HonestOps, HonestOp;
    PartHonest(h, ops, [op], mode);
    InHonest(h, ops + [op], op, mode);
    forall o | o in ops ensures TellsOp(h, o) { InHonest(h, ops, o, mode); }
  }

  lemma {:induction false} InHonest(h: History, ops: seq<Op>, op: Op, mode: Mode)
    requires Complete(h) && HonestOps(h, ops, mode) && op in ops
    ensures TellsOp(h, op) && op.id in h
  {
    hide HonestTwo, NamesSeen;
    assert InAtoms(op.id, op.id, op.len);
  }

  lemma {:induction false} PrefixInOrder(h: History, ops: seq<Op>, op: Op)
    requires Complete(h) && InOrder(h, ops + [op])
    ensures InOrder(h, ops)
  {
    hide NotBefore;
    forall i, j | 0 <= i < j < |ops| ensures NotBefore(h, ops[j], ops[i]) {
      assert NotBefore(h, (ops + [op])[j], (ops + [op])[i]);
    }
  }

  /** Merging the local op is the next step of the replay, and any causal order of all the ops replays to the
      same. */
  lemma {:induction false} LocalIsRebuild(h: History, ops: seq<Op>, op: Op, all: seq<Op>, mode: Mode)
    requires Complete(h) && HonestOps(h, ops + [op], mode) && InOrder(h, ops + [op]) && op.IsSeq()
    requires InOrder(h, all) && multiset(all) == multiset(ops + [op])
    ensures Replay(EventsOf(h, all, op.cont), mode) ==
      Then(Replay(EventsOf(h, ops, op.cont), mode), op, ViewOf(h, op.id), mode.byPosition, mode.strict)
  {
    hide HonestOps, InOrder, ViewOf, Replay, Past;
    SameMerge(h, ops + [op], all, op.cont, mode);
    EventsStep(h, ops, op, op.cont);
    ReplayStep(EventsOf(h, ops, op.cont), EventOf(h, op), mode);
  }

  /** Puts one local op into a container's kept state. Its author has everything in view, so no version is
      looked up. The state is then the one rebuilt from all ops, and so is a MovableList's index that was kept;
      an op is refused just when the rebuild refuses it. */
  method ApplyLocal(q: SeqState, ix: Option<MovIndex>, op: Op, ghost h: History, ghost ops: seq<Op>)
    returns (ok: bool, kept: Option<MovIndex>)
    requires Complete(h) && HonestOps(h, ops + [op], Mode(true, true)) && InOrder(h, ops + [op]) && op.IsSeq() && SeesAll(h, ops, op)
    requires StateRight(h, ops, op.cont, Mode(true, true), q) && op.pos >= 0
    requires ix.Some? ==> op.cont.kind == MovableList && ix.value.Mirrors(q.Value())
    modifies q, if ix.Some? then {ix.value} else {}
    ensures ok ==> StateRight(h, ops + [op], op.cont, Mode(true, true), q)
    ensures ok ==> forall all :: InOrder(h, all) && multiset(all) == multiset(ops + [op]) ==> StateRight(h, all, op.cont, Mode(true, true), q)
    ensures !ok ==> forall all :: InOrder(h, all) && multiset(all) == multiset(ops + [op]) ==>
      Replay(EventsOf(h, all, op.cont), Mode(true, true)) == None
    ensures kept.Some? ==> ok && kept == ix && kept.value.Mirrors(q.Value())
    ensures ok && ix.Some? && old(Made(q.Value(), op, ViewOf(h, op.id))) ==> kept == ix
  {
    hide HonestOps, InOrder, SeesAll, ViewOf, Replay, EventsOf, Past, Closed, CausalHistory.OwnSeen, Local, Mergeable, AllInView, Apply,
      SeqState.Valid, MovIndex.Mirrors, Made;
    ghost var mode, v, s := Mode(true, true), ViewOf(h, op.id), q.Value();
    LocalHolds(h, ops, op, mode);
    kept := None;
    AllRebuilds(h, ops, op, s, mode);
    ok := q.MergeOp(op, true, View(map[], op.id.peer, op.id.counter), v, true);
    if ok && ix.Some? {
      var now := SeqVal(q.nodes, q.pendingEnd, q.elems);
      var follows := ix.value.NoteLocal(op, now, s, v, true);
      if follows { kept := ix; }
    }
  }

  lemma {:induction false} AllRebuilds(h: History, ops: seq<Op>, op: Op, s: SeqVal, mode: Mode)
    requires Complete(h) && HonestOps(h, ops + [op], mode) && InOrder(h, ops + [op]) && op.IsSeq()
    requires Replay(EventsOf(h, ops, op.cont), mode) == Some(s)
    ensures forall all :: InOrder(h, all) && multiset(all) == multiset(ops + [op]) ==>
      Replay(EventsOf(h, all, op.cont), mode) == Apply(s, op, ViewOf(h, op.id), mode.byPosition, mode.strict)
  {
    hide HonestOps, InOrder, ViewOf, Replay, Past, EventsOf, Apply;
    forall all | InOrder(h, all) && multiset(all) == multiset(ops + [op])
      ensures Replay(EventsOf(h, all, op.cont), mode) == Apply(s, op, ViewOf(h, op.id), mode.byPosition, mode.strict)
    {
      LocalIsRebuild(h, ops, op, all, mode);
    }
  }

  // ----- views of a merged document -----

  /** The styled runs of a Text, its ops merged from copies of changes. */
  method TextDelta(ghost h: History, all: seq<SeqChange>, units: seq<SeqChange>, strict: bool, key: ContKey)
    returns (out: Option<seq<DeltaOp>>)
    requires CausalIndices.Told(h, all) && (forall u :: u in units ==> u in all) && HonestUnits(h, units, Mode(true, strict))
    requires key.kind == Text
    ensures out.Some? ==> forall ops :: InOrder(h, ops) && multiset(ops) == multiset(News(units)) ==>
      DeltaOf(Replay(EventsOf(h, ops, key), Mode(true, strict)), out.value)
    ensures out.None? ==> forall ops :: InOrder(h, ops) && multiset(ops) == multiset(News(units)) ==> RefusedSomewhere(h, ops, Mode(true, strict))
  {
    hide CausalIndices.Told, HonestUnits, HonestOps, InOrder, News, Replay, EventsOf, TextNodes, Rendered, ViewOf;
    ToldTells(h, all, units);
    var r := MergeSequences(h, all, units, strict);
    if r.None? {
      forall ops | InOrder(h, ops) && multiset(ops) == multiset(News(units))
        ensures RefusedSomewhere(h, ops, Mode(true, strict))
      {
        assert Merged(h, Mode(true, strict), ops, r);
      }
      return None;
    }
    ghost var order :| InOrder(h, order) && multiset(order) == multiset(News(units));
    if key !in r.value {
      NothingShown(h);
      return Some([]);
    }
    var s := r.value[key];
    assert StateRight(h, order, key, Mode(true, strict), s);
    OrderHonest(h, units, order, Mode(true, strict));
    MergedText(h, order, key, Mode(true, strict));
    var runs := Delta(s.nodes);
    out := Some(runs);
    forall ops | InOrder(h, ops) && multiset(ops) == multiset(News(units))
      ensures DeltaOf(Replay(EventsOf(h, ops, key), Mode(true, strict)), runs)
    {
      assert StateRight(h, ops, key, Mode(true, strict), s);
    }
  }

  /** The runs render the merged Text. */
  ghost predicate DeltaOf(s: Option<SeqVal>, runs: seq<DeltaOp>) {
    s.Some? && Rendered(s.value.nodes, runs)
  }

  /** Replaying the ops fails in some container. */
  ghost predicate RefusedSomewhere(h: History, ops: seq<Op>, mode: Mode)
    requires Complete(h)
  {
    exists k :: Replay(EventsOf(h, ops, k), mode) == None
  }

  lemma {:induction false} NothingShown(h: History)
    requires Complete(h)
    ensures forall mode :: DeltaOf(Replay([], mode), [])
  {
  }

  lemma {:induction false} OrderHonest(h: History, units: seq<SeqChange>, order: seq<Op>, mode: Mode)
    requires Complete(h) && HonestUnits(h, units, mode) && multiset(order) == multiset(News(units))
    ensures HonestOps(h, order, mode)
  {
    hide HonestOps, News;
    HonestSame(h, News(units), order, mode);
  }
}
