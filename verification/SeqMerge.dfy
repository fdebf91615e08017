/** Merging a whole history's sequences: runs in order, views from the causal index, and the
    everything-in-view shortcut from a frontier. */
module SeqMerge {
  import opened Common
  import opened SeqTypes
  import opened SeqOrder
  import opened SeqReference
  import opened SeqEdits
  import opened SeqFits
  import opened SeqApply
  import opened SeqSwap
  import opened SeqConverge
  import opened SeqLive
  import opened SeqMachine
  import opened SeqViews
  import opened SeqHistory
  import opened SeqRuns
  import opened CausalHistory
  import opened CausalIndices
  import opened IdLists
  import opened Ops

  // ----- runs in order -----

  lemma {:induction false} InOrderConcat(h: History, xs: seq<Op>, ys: seq<Op>)
    requires Complete(h) && InOrder(h, xs) && InOrder(h, ys)
    requires forall a, b :: a in xs && b in ys ==> NotBefore(h, b, a)
    ensures InOrder(h, xs + ys)
  {
    hide NotBefore, Closed, CausalHistory.OwnSeen;
    var zs := xs + ys;
    forall i, j | 0 <= i < j < |zs| ensures NotBefore(h, zs[j], zs[i]) {
      if j < |xs| {
        assert zs[i] == xs[i] && zs[j] == xs[j];
      } else if i < |xs| {
        assert zs[i] in xs && zs[j] in ys;
      } else {
        assert zs[i] == ys[i - |xs|] && zs[j] == ys[j - |xs|];
      }
    }
  }

  lemma {:induction false} InFlat(runs: seq<Run>, op: Op) returns (k: nat)
    requires op in Flatten(runs)
    ensures k < |runs| && op in runs[k].ops
  {
    var m := |runs| - 1;
    if op in runs[m].ops { k := m; } else { k := InFlat(runs[..m], op); }
  }

  lemma {:induction false} FlatHas(runs: seq<Run>, k: nat, op: Op)
    requires k < |runs| && op in runs[k].ops
    ensures op in Flatten(runs)
  {
    var m := |runs| - 1;
    if k < m {
      assert runs[..m][k] == runs[k];
      FlatHas(runs[..m], k, op);
    }
  }

  /** Merging contiguous runs by their first (lamport, peer, counter) respects causality: no op
      comes before one its author had seen. */
  lemma {:induction false} RunsInOrder(h: History, runs: seq<Run>, mode: Mode)
    requires Complete(h) && HonestOps(h, Flatten(runs), mode) && RunsRight(runs) && AllNonempty(runs) && RunsOrdered(runs)
    requires forall r :: r in runs ==> Tells(h, r.src)
    requires forall op :: op in Flatten(runs) ==> op.Atoms() == op.len
    ensures InOrder(h, Flatten(runs))
  {
    hide NotBefore, HonestOps, RunsOrdered, Tells, RunRight, HonestOp, HonestTwo, Closed, CausalHistory.OwnSeen;
    if runs != [] {
      var m := |runs| - 1;
      var r := runs[m];
      assert runs == runs[..m] + [r];
      PartHonest(h, Flatten(runs[..m]), r.ops, mode);
      OrderedStart(runs, m);
      RunsInOrder(h, runs[..m], mode);
      RunInOrder(h, r);
      forall a, b | a in Flatten(runs[..m]) && b in r.ops ensures NotBefore(h, b, a) {
        var k := InFlat(runs[..m], a);
        assert RunNoLater(runs[k], r) by { OrderedAt(runs, k, m); }
        CrossAt(h, runs[..m], k, r, a, b);
      }
      InOrderConcat(h, Flatten(runs[..m]), r.ops);
    }
  }

  lemma {:induction false} OrderedAt(runs: seq<Run>, k: nat, m: nat)
    requires AllNonempty(runs) && RunsOrdered(runs) && k < m < |runs|
    ensures RunNoLater(runs[k], runs[m])
  {
  }

  lemma {:induction false} CrossAt(h: History, runs: seq<Run>, k: nat, r: Run, a: Op, b: Op)
    requires Complete(h) && k < |runs| && RunRight(runs[k]) && Tells(h, runs[k].src) && RunRight(r) && Tells(h, r.src)
    requires a in runs[k].ops && b in r.ops && RunNoLater(runs[k], r)
    requires forall op :: op in Flatten(runs) ==> TellsOp(h, op) && op.Atoms() == op.len
    requires forall op :: op in r.ops ==> TellsOp(h, op)
    requires forall x, y :: x in Flatten(runs) && y in r.ops ==> Apart(y, x)
    ensures NotBefore(h, b, a)
  {
    hide NotBefore, RunRight, Tells, TellsOp, Apart, Flatten, Closed, CausalHistory.OwnSeen;
    var c := runs[k];
    forall op | op in c.ops ensures op in Flatten(runs) { FlatHas(runs, k, op); }
    NonemptyRun(c);
    NonemptyRun(r);
    FirstLowest(h, r, b);
    CrossRuns(h, c, a, b);
  }

  lemma {:induction false} NonemptyRun(r: Run)
    requires RunRight(r)
    ensures r.ops != [] && r.ops[0] in r.ops
  {
  }

  lemma {:induction false} FirstLowest(h: History, r: Run, b: Op)
    requires RunRight(r) && Tells(h, r.src) && b in r.ops && TellsOp(h, b) && TellsOp(h, r.ops[0])
    ensures r.ops[0].lamport <= b.lamport
  {
    hide Tells;
    var i :| 0 <= i < |r.ops| && r.ops[i] == b;
    RunSpan(r, 0, i);
    var a := r.ops[0];
    assert a in r.ops && InChange(r.src, a) && InChange(r.src, b);
    assert InAtoms(a.id, a.id, a.len) && InAtoms(b.id, b.id, b.len);
    LamportInside(h, r.src, a.id);
    LamportInside(h, r.src, b.id);
  }

  lemma {:induction false} PartHonest(h: History, xs: seq<Op>, ys: seq<Op>, mode: Mode)
    requires Complete(h) && HonestOps(h, xs + ys, mode)
    ensures HonestOps(h, xs, mode)
    ensures forall op :: op in xs + ys ==> TellsOp(h, op)
    ensures forall a, b :: a in xs && b in ys ==> Apart(b, a)
  {
    hide HonestTwo, HonestOp, TellsOp, Apart, Closed, CausalHistory.OwnSeen;
    forall op | op in xs + ys ensures TellsOp(h, op) { HonestTells(h, op, mode); }
    assert multiset(xs + ys) == multiset(xs) + multiset(ys);
    forall op | op in xs ensures HonestOp(h, op, mode) && multiset(xs)[op] == 1 { assert op in xs + ys; }
    forall a, b | a in xs && b in ys ensures Apart(b, a) {
      assert a in xs + ys && b in xs + ys;
      assert multiset(xs)[a] >= 1 && multiset(ys)[b] >= 1 && multiset(xs + ys)[a] == 1;
      TwoApart(h, b, a);
    }
  }

  lemma {:induction false} TwoApart(h: History, a: Op, b: Op)
    requires Complete(h) && HonestTwo(h, a, b)
    ensures Apart(a, b)
  {
  }

  // ----- the next op -----

  /** What one container's merge so far holds, and that its next op can be merged. */
  lemma {:induction false} NextHolds(h: History, done: seq<Op>, op: Op, key: ContKey, mode: Mode)
    requires Complete(h) && HonestOps(h, done + [op], mode) && InOrder(h, done + [op]) && Of(op, key)
    requires Replay(EventsOf(h, done, key), mode).Some?
    ensures var s := Replay(EventsOf(h, done, key), mode).value;
      AllAccounted(s.nodes, EventsOf(h, done, key)) && Mergeable(s, op, ViewOf(h, op.id))
  {
    hide NotBefore, Closed, CausalHistory.OwnSeen, InOrder, HonestOps, Honest, Causally, AllAccounted, Mergeable, ViewOf, Past, Replay, EventsOf,
      HonestOp, HonestTwo;
    var es := EventsOf(h, done, key);
    PartHonest(h, done, [op], mode);
    EventsStep(h, done, op, key);
    EventsHonest(h, done + [op], key, mode);
    EventsCausal(h, done + [op], key);
    SeqConverge.HonestPrefix(es, EventOf(h, op), mode);
    var k := ReplayHolds(es, mode);
    NextMergeable(Replay(es, mode).value, es, EventOf(h, op), mode);
  }

  ghost predicate Below(h: History, x: Id, frontier: seq<Id>)
    requires Closed(h)
  {
    exists f :: f in frontier && AtOrPast(h, x, f)
  }

  ghost predicate AtomOf(ops: seq<Op>, x: Id) {
    exists op :: op in ops && InAtoms(x, op.id, op.len)
  }

  /** Every merged atom lies at or before one of the frontier. */
  ghost predicate FrontierRight(h: History, done: seq<Op>, frontier: seq<Id>)
    requires Closed(h)
  {
    && (forall f :: f in frontier ==> f in h)
    && (forall x :: AtomOf(done, x) ==> Below(h, x, frontier))
  }

  /** Deps equal to a right frontier put every atom of `done` in the op's view. */
  lemma {:induction false} FrontierSeen(h: History, done: seq<Op>, op: Op, frontier: seq<Id>, x: Id)
    requires Complete(h) && FrontierRight(h, done, frontier) && op.id in h && h[op.id].deps == IdSet(frontier)
    requires AtomOf(done, x) && x in h
    ensures ViewOf(h, op.id).Has(x)
  {
    hide Past, ViewOf;
    assert Below(h, x, frontier);
    var f :| f in frontier && AtOrPast(h, x, f);
    DepInSet(frontier, f);
    DepPast(h, f, op.id);
    AtPast(h, x, f, op.id);
    ViewIsPast(h, x, op.id);
  }

  lemma {:induction false} DepPast(h: History, d: Id, y: Id)
    requires Closed(h) && y in h && d in h[y].deps
    ensures Past(h, d, y)
  {
  }

  lemma {:induction false} FrontierView(h: History, done: seq<Op>, op: Op, frontier: seq<Id>, key: ContKey, nodes: seq<Node>)
    requires Complete(h) && FrontierRight(h, done, frontier) && op.id in h && h[op.id].deps == IdSet(frontier)
    requires AllAccounted(nodes, EventsOf(h, done, key)) && forall o :: o in done ==> TellsOp(h, o)
    ensures AllInView(nodes, ViewOf(h, op.id))
  {
    hide Past, ViewOf, EventsOf, FrontierRight, TellsOp;
    forall i | 0 <= i < |nodes| ensures InView(nodes[i], ViewOf(h, op.id)) {
      assert Accounted(nodes[i], EventsOf(h, done, key));
      var e :| e in EventsOf(h, done, key) && MadeBy(nodes[i], e);
      EventAtom(h, done, key, e, nodes[i].id);
      FrontierSeen(h, done, op, frontier, nodes[i].id);
      forall d | d in nodes[i].deleters ensures ViewOf(h, op.id).Has(d) {
        var g :| g in EventsOf(h, done, key) && InAtoms(d, g.op.id, g.op.len);
        EventAtom(h, done, key, g, d);
        FrontierSeen(h, done, op, frontier, d);
      }
    }
  }

  lemma {:induction false} EventAtom(h: History, done: seq<Op>, key: ContKey, e: Event, x: Id)
    requires Complete(h) && e in EventsOf(h, done, key) && InAtoms(x, e.op.id, e.op.len)
    requires forall o :: o in done ==> TellsOp(h, o)
    ensures AtomOf(done, x) && x in h
  {
    EventIn(h, done, key, e);
  }

  // ----- keeping the frontier -----

  /** The frontier ids neither an op's author had seen nor its own atoms reach. */
  method Keep(frontier: seq<Id>, past: View, op: Op) returns (keep: seq<Id>)
    ensures forall f :: f in keep <==> f in frontier && !Replaced(past, op, f)
  {
    keep := [];
    for i := 0 to |frontier|
      invariant forall f :: f in keep <==> f in frontier[..i] && !Replaced(past, op, f)
    {
      var f := frontier[i];
      assert frontier[..i + 1] == frontier[..i] + [f];
      if !past.Has(f) && (f.peer != op.id.peer || f.counter > op.Last().counter) { keep := keep + [f]; }
    }
    assert frontier[..|frontier|] == frontier;
  }

  predicate Replaced(past: View, op: Op, f: Id) {
    past.Has(f) || (f.peer == op.id.peer && f.counter <= op.Last().counter)
  }

  lemma {:induction false} OpBelowLast(h: History, op: Op, x: Id)
    requires Complete(h) && TellsOp(h, op) && InAtoms(x, op.id, op.len)
    ensures op.Last() in h && AtOrPast(h, x, op.Last()) && AtOrPast(h, op.id, op.Last())
  {
    hide Past;
    assert InAtoms(op.Last(), op.id, op.len);
    if x != op.Last() { OwnPast(h, x, op.Last()); }
    if op.id != op.Last() { OwnPast(h, op.id, op.Last()); }
  }

  lemma {:induction false} MergedOne(done: seq<Op>, op: Op, x: Id)
    requires AtomOf(done + [op], x)
    ensures AtomOf(done, x) || InAtoms(x, op.id, op.len)
  {
  }

  lemma {:induction false} BelowBy(h: History, x: Id, f: Id, frontier: seq<Id>)
    requires Closed(h) && f in frontier && AtOrPast(h, x, f)
    ensures Below(h, x, frontier)
  {
  }

  /** Merging an op replaces what it came after by its last atom. */
  lemma {:induction false} FrontierMoves(h: History, done: seq<Op>, op: Op, frontier: seq<Id>, v: View, keep: seq<Id>)
    requires Complete(h) && FrontierRight(h, done, frontier) && TellsOp(h, op) && op.id in h && SameHas(v, ViewOf(h, op.id))
    requires forall f :: f in keep <==> f in frontier && !Replaced(v, op, f)
    ensures FrontierRight(h, done + [op], keep + [op.Last()])
  {
    hide Past, ViewOf, Replaced, TellsOp, AtomOf, Below, AtOrPast;
    OpBelowLast(h, op, op.id) by { assert InAtoms(op.id, op.id, op.len) by { Positive(h, op); } }
    forall x | AtomOf(done + [op], x) ensures Below(h, x, keep + [op.Last()]) {
      MergedOne(done, op, x);
      if InAtoms(x, op.id, op.len) {
        OpBelowLast(h, op, x);
        BelowBy(h, x, op.Last(), keep + [op.Last()]);
      } else {
        StillBelow(h, x, op, frontier, v, keep);
      }
    }
  }

  lemma {:induction false} Positive(h: History, op: Op)
    requires TellsOp(h, op)
    ensures op.len >= 1
  {
  }

  lemma {:induction false} StillBelow(h: History, x: Id, op: Op, frontier: seq<Id>, v: View, keep: seq<Id>)
    requires Complete(h) && Below(h, x, frontier) && (forall f :: f in frontier ==> f in h)
    requires TellsOp(h, op) && op.id in h && SameHas(v, ViewOf(h, op.id))
    requires forall f :: f in keep <==> f in frontier && !Replaced(v, op, f)
    ensures Below(h, x, keep + [op.Last()])
  {
    hide Past, ViewOf, TellsOp, Replaced;
    var f :| f in frontier && AtOrPast(h, x, f);
    if Replaced(v, op, f) {
      ReplacedBelow(h, op, v, f);
      AtTrans(h, x, f, op.Last());
      BelowBy(h, x, op.Last(), keep + [op.Last()]);
    } else {
      BelowBy(h, x, f, keep + [op.Last()]);
    }
  }

  lemma {:induction false} ReplacedBelow(h: History, op: Op, v: View, f: Id)
    requires Complete(h) && f in h && TellsOp(h, op) && op.id in h && SameHas(v, ViewOf(h, op.id)) && Replaced(v, op, f)
    ensures AtOrPast(h, f, op.Last())
  {
    hide Past, ViewOf;
    assert InAtoms(op.id, op.id, op.len);
    OpBelowLast(h, op, op.id);
    if v.Has(f) {
      ViewIsPast(h, f, op.id);
      AtTrans(h, f, op.id, op.Last());
    } else if f != op.Last() {
      OwnPast(h, f, op.Last());
    }
  }

  /** An op made with everything in view becomes the whole frontier. */
  lemma {:induction false} FrontierRestarts(h: History, done: seq<Op>, op: Op, frontier: seq<Id>)
    requires Complete(h) && FrontierRight(h, done, frontier) && TellsOp(h, op) && op.id in h && h[op.id].deps == IdSet(frontier)
    ensures FrontierRight(h, done + [op], [op.Last()])
  {
    hide Past, TellsOp, AtomOf, Below, AtOrPast;
    OpBelowLast(h, op, op.id) by { assert InAtoms(op.id, op.id, op.len) by { Positive(h, op); } }
    forall x | AtomOf(done + [op], x) ensures Below(h, x, [op.Last()]) {
      MergedOne(done, op, x);
      if InAtoms(x, op.id, op.len) { OpBelowLast(h, op, x); } else { FrontierBelow(h, x, op, frontier); }
      BelowBy(h, x, op.Last(), [op.Last()]);
    }
  }

  lemma {:induction false} FrontierBelow(h: History, x: Id, op: Op, frontier: seq<Id>)
    requires Complete(h) && Below(h, x, frontier) && TellsOp(h, op) && op.id in h && h[op.id].deps == IdSet(frontier)
    ensures AtOrPast(h, x, op.Last())
  {
    hide Past, TellsOp;
    var f :| f in frontier && AtOrPast(h, x, f);
    DepInSet(frontier, f);
    DepPast(h, f, op.id);
    AtPast(h, x, f, op.id);
    OpBelowLast(h, op, op.id) by { assert InAtoms(op.id, op.id, op.len) by { Positive(h, op); } }
    AtTrans(h, x, op.id, op.Last());
  }

  lemma {:induction false} MergeableSame(s: SeqVal, op: Op, v: View, w: View)
    requires Mergeable(s, op, w) && SameHas(v, w)
    ensures Mergeable(s, op, v)
  {
    hide FreshAtoms;
    assert v.Has(Id(v.peer, v.own)) <==> w.Has(Id(v.peer, v.own));
    forall i | 0 <= i < |s.nodes| ensures CausalAt(s.nodes[i], v) { assert CausalAt(s.nodes[i], w); }
  }

  // ----- the merge -----

  ghost predicate StateRight(h: History, done: seq<Op>, key: ContKey, mode: Mode, s: SeqState)
    requires Complete(h)
    reads s
  {
    s.Valid() && s.strict == mode.strict && Replay(EventsOf(h, done, key), mode) == Some(s.Value())
  }

  /** Each container's state is the replay of its ops. */
  ghost predicate StatesRight(h: History, done: seq<Op>, mode: Mode, seqs: map<ContKey, SeqState>)
    requires Complete(h)
    reads seqs.Values
  {
    && (forall k, l :: k in seqs && l in seqs && k != l ==> seqs[k] != seqs[l])
    && (forall k :: k in seqs ==> StateRight(h, done, k, mode, seqs[k]))
    && (forall k :: k !in seqs ==> EventsOf(h, done, k) == [])
  }

  /** What the next op must be. */
  ghost predicate IsNext(h: History, done: seq<Op>, op: Op, u: SeqChange, mode: Mode)
    requires Complete(h)
  {
    && HonestOps(h, done + [op], mode) && InOrder(h, done + [op])
    && Tells(h, u) && InChange(u, op) && op.Atoms() == op.len
  }

  lemma {:induction false} NextTold(h: History, done: seq<Op>, op: Op, u: SeqChange, mode: Mode)
    requires Complete(h) && IsNext(h, done, op, u, mode)
    ensures TellsOp(h, op) && (forall o :: o in done ==> TellsOp(h, o)) && op.id in h && Holds(u, op.id)
    ensures h[op.id].deps == IdSet(DepsOf(u, op))
  {
    hide InOrder, HonestOps;
    PartHonest(h, done, [op], mode);
    assert op in done + [op];
    assert InAtoms(op.id, op.id, op.len);
    assert TellsAtom(h, u, op.id.counter);
    assert [Prev(op.id)][0] == Prev(op.id);
    assert IdSet([Prev(op.id)]) == {Prev(op.id)};
  }

  function DepsOf(u: SeqChange, op: Op): seq<Id> {
    if op.id.counter == u.start then u.ch.deps else [Prev(op.id)]
  }

  /** What is known of an op's view: everything merged, or exactly its past. */
  ghost predicate ViewKnown(h: History, op: Op, inView: bool, past: View, frontier: seq<Id>)
    requires Complete(h)
  {
    op.id in h && if inView then h[op.id].deps == IdSet(frontier) else SameHas(past, ViewOf(h, op.id))
  }

  lemma {:induction false} NoneYet(h: History, done: seq<Op>, key: ContKey, mode: Mode, s: SeqState)
    requires Complete(h) && EventsOf(h, done, key) == []
    requires s.Valid() && s.Value() == EmptySeq && s.strict == mode.strict
    ensures StateRight(h, done, key, mode, s)
  {
  }

  lemma {:induction false} OthersKeep(h: History, done: seq<Op>, op: Op, k: ContKey)
    requires Complete(h) && !Of(op, k)
    ensures EventsOf(h, done + [op], k) == EventsOf(h, done, k)
  {
    hide ViewOf;
    EventsStep(h, done, op, k);
  }

  lemma {:induction false} StateKeeps(h: History, done: seq<Op>, op: Op, k: ContKey, mode: Mode, s: SeqState)
    requires Complete(h) && !Of(op, k) && StateRight(h, done, k, mode, s)
    ensures StateRight(h, done + [op], k, mode, s)
  {
    hide Replay, EventsOf, ViewOf;
    OthersKeep(h, done, op, k);
  }

  lemma {:induction false} ReplayNext(h: History, done: seq<Op>, op: Op, mode: Mode)
    requires Complete(h) && op.IsSeq()
    ensures Replay(EventsOf(h, done + [op], op.cont), mode) ==
      Then(Replay(EventsOf(h, done, op.cont), mode), op, ViewOf(h, op.id), mode.byPosition, mode.strict)
  {
    hide ViewOf, Apply;
    EventsStep(h, done, op, op.cont);
    ReplayStep(EventsOf(h, done, op.cont), EventOf(h, op), mode);
  }

  /** The op can be merged into its container's state, and merging it is the next step of the
      container's replay. */
  lemma {:induction false} ReadyNext(h: History, done: seq<Op>, op: Op, u: SeqChange, mode: Mode, s: SeqState, inView: bool, past: View, v: View,
                  frontier: seq<Id>)
    requires Complete(h) && IsNext(h, done, op, u, mode) && op.IsSeq() && StateRight(h, done, op.cont, mode, s)
    requires FrontierRight(h, done, frontier) && ViewKnown(h, op, inView, past, frontier)
    requires v == if inView then ViewOf(h, op.id) else past
    ensures s.Valid() && ViewRight(s.nodes, inView, past, v) && Mergeable(s.Value(), op, v)
    ensures Replay(EventsOf(h, done + [op], op.cont), mode) == Apply(s.Value(), op, v, mode.byPosition, mode.strict)
  {
    hide Replay, EventsOf, ViewOf, FrontierRight, Closed, CausalHistory.OwnSeen, Apply, Mergeable, InOrder, HonestOps, TellsOp, AllAccounted,
      AllInView, Causal, FreshAtoms, WellFormed;
    NextTold(h, done, op, u, mode);
    NextHolds(h, done, op, op.cont, mode);
    ReplayNext(h, done, op, mode);
    if inView {
      FrontierView(h, done, op, frontier, op.cont, s.nodes);
    } else {
      OwnCounter(s.Value(), op, ViewOf(h, op.id));
      MergeableSame(s.Value(), op, past, ViewOf(h, op.id));
      ApplySame(s.Value(), op, past, ViewOf(h, op.id), mode.byPosition, mode.strict);
    }
  }

  lemma {:induction false} OwnCounter(s: SeqVal, op: Op, v: View)
    requires Mergeable(s, op, v)
    ensures v.own == op.id.counter
  {
  }

  /** Merges an op into its container's state. */
  method MergeState(ghost h: History, mode: Mode, ghost done: seq<Op>, ghost frontier: seq<Id>, s: SeqState, op: Op,
                    inView: bool, past: View, ghost u: SeqChange) returns (ok: bool)
    requires Complete(h) && IsNext(h, done, op, u, mode) && op.IsSeq() && StateRight(h, done, op.cont, mode, s)
    requires FrontierRight(h, done, frontier) && ViewKnown(h, op, inView, past, frontier)
    modifies s
    ensures ok ==> StateRight(h, done + [op], op.cont, mode, s)
    ensures !ok ==> Replay(EventsOf(h, done + [op], op.cont), mode) == None
  {
    hide Replay, EventsOf, IsNext, ViewOf, FrontierRight, Complete, Apply, Mergeable, ViewRight, ViewKnown;
    ghost var v := if inView then ViewOf(h, op.id) else past;
    ReadyNext(h, done, op, u, mode, s, inView, past, v, frontier);
    ok := s.MergeOp(op, inView, past, v, mode.byPosition);
  }

  lemma {:induction false} PutState(h: History, done: seq<Op>, op: Op, mode: Mode, seqs: map<ContKey, SeqState>, s: SeqState)
    requires Complete(h) && StateRight(h, done + [op], op.cont, mode, s)
    requires forall k :: k in seqs && k != op.cont ==> StateRight(h, done + [op], k, mode, seqs[k]) && seqs[k] != s
    requires forall k, l :: k in seqs && l in seqs && k != l ==> seqs[k] != seqs[l]
    requires forall k :: k !in seqs ==> EventsOf(h, done, k) == []
    ensures StatesRight(h, done + [op], mode, seqs[op.cont := s])
  {
    hide StateRight, EventsOf, Complete;
    forall k | k !in seqs && k != op.cont ensures EventsOf(h, done + [op], k) == [] { OthersKeep(h, done, op, k); }
  }

  class Merger {
    ghost const h: History
    const mode: Mode
    const ix: CausalIndex
    var seqs: map<ContKey, SeqState>
    var frontier: seq<Id>
    ghost var done: seq<Op>

    ghost predicate Valid()
      reads this, ix, seqs.Values
    {
      && Complete(h) && ix.Valid() && ix.told && ix.h == h
      && StatesRight(h, done, mode, seqs) && FrontierRight(h, done, frontier)
    }

    constructor (ghost h: History, ix: CausalIndex, mode: Mode)
      requires ix.Valid() && ix.told && ix.h == h && Complete(h)
      ensures Valid() && this.h == h && this.ix == ix && this.mode == mode && done == [] && seqs == map[]
    {
      this.h, this.ix, this.mode := h, ix, mode;
      seqs, frontier, done := map[], [], [];
    }

    /** A container's state, empty before its first op. */
    method StateFor(key: ContKey) returns (s: SeqState)
      requires Valid()
      ensures StateRight(h, done, key, mode, s)
      ensures if key in seqs then s == seqs[key] else fresh(s)
    {
      hide Replay, EventsOf, FrontierRight, Complete, Indexed;
      if key in seqs { return seqs[key]; }
      s := new SeqState(mode.strict);
      NoneYet(h, done, key, mode, s);
    }

    /** Merges one container's op. */
    method MergeInto(op: Op, inView: bool, past: View, u: SeqChange) returns (ok: bool)
      requires Valid() && IsNext(h, done, op, u, mode) && op.IsSeq()
      requires ViewKnown(h, op, inView, past, frontier)
      modifies this`seqs, seqs.Values
      ensures fresh(seqs.Values - old(seqs.Values))
      ensures ok ==> StatesRight(h, done + [op], mode, seqs)
      ensures !ok ==> Replay(EventsOf(h, done + [op], op.cont), mode) == None
    {
      hide StateRight, Replay, EventsOf, IsNext, ViewOf, FrontierRight, Complete, ViewKnown;
      var s := StateFor(op.cont);
      label before:
      ok := MergeState(h, mode, done, frontier, s, op, inView, past, u);
      forall k | k in seqs && k != op.cont ensures StateRight(h, done + [op], k, mode, seqs[k]) {
        assert old@before(StateRight(h, done, k, mode, seqs[k]));
        StateKeeps(h, done, op, k, mode, seqs[k]);
      }
      if ok { PutState(h, done, op, mode, seqs, s); }
      seqs := seqs[op.cont := s];
    }

    /** Merges the next op; `vv` is the version of its change, once asked for. */
    method MergeNext(op: Op, u: SeqChange, vv: Option<map<nat, int>>) returns (ok: bool, ww: Option<map<nat, int>>)
      requires Valid() && IsNext(h, done, op, u, mode) && u in ix.all
      requires vv.Some? ==> IsVersion(h, vv.value, First(u))
      modifies this, ix, seqs.Values
      ensures fresh(seqs.Values - old(seqs.Values))
      ensures ok ==> Valid() && done == old(done) + [op]
      ensures !ok ==> Replay(EventsOf(h, old(done) + [op], op.cont), mode) == None
      ensures ww.Some? ==> IsVersion(h, ww.value, First(u))
    {
      hide StatesRight, Replay, EventsOf, IsNext, ViewOf, FrontierRight, Complete, Told, Indexed, IsVersion, SameHas;
      NextTold(h, done, op, u, mode);
      ww := vv;
      var deps := DepsOf(u, op);
      var inView := SameIds(deps, frontier);
      var past := View(map[], op.id.peer, op.id.counter);
      if !inView {
        if ww.None? {
          var v := ix.VersionOf(u);
          ww := Some(v);
        }
        past := View(ww.value, op.id.peer, op.id.counter);
        NextView(h, done, op, u, mode, ww.value);
      }
      ok := true;
      if op.IsSeq() {
        ok := MergeInto(op, inView, past, u);
        if !ok { return; }
      } else {
        OtherOp(h, done, op, mode, seqs);
      }
      MoveFrontier(op, inView, past);
      done := done + [op];
    }

    /** The frontier after the op: what it did not have, and its last atom. */
    method MoveFrontier(op: Op, inView: bool, past: View)
      requires Complete(h) && FrontierRight(h, done, frontier) && TellsOp(h, op) && op.id in h
      requires if inView then h[op.id].deps == IdSet(frontier) else SameHas(past, ViewOf(h, op.id))
      modifies this`frontier
      ensures FrontierRight(h, done + [op], frontier)
    {
      hide FrontierRight, ViewOf, Complete, SameHas, TellsOp;
      if inView {
        FrontierRestarts(h, done, op, frontier);
        frontier := [op.Last()];
      } else {
        var keep := Keep(frontier, past, op);
        FrontierMoves(h, done, op, frontier, past, keep);
        frontier := keep + [op.Last()];
      }
    }

    /** Merges a run, the next ops of `order`. */
    method MergeRun(ghost order: seq<Op>, r: Run) returns (ok: bool)
      requires Valid() && HonestOps(h, order, mode) && InOrder(h, order)
      requires |done| + |r.ops| <= |order| && done == order[..|done|] && r.ops == order[|done|..|done| + |r.ops|]
      requires RunRight(r) && Tells(h, r.src) && r.src in ix.all
      modifies this, ix, seqs.Values
      ensures fresh(seqs.Values - old(seqs.Values))
      ensures ok ==> Valid() && done == old(done) + r.ops
      ensures !ok ==> exists key :: Replay(EventsOf(h, order, key), mode) == None
    {
      hide StatesRight, Replay, EventsOf, IsNext, ViewOf, FrontierRight, Closed, CausalHistory.OwnSeen, Told, Indexed, IsVersion, SameHas, HonestOps, InOrder, Tells, Contiguous;
      var vv: Option<map<nat, int>> := None;
      ghost var n := |done|;
      for i := 0 to |r.ops|
        invariant Valid() && done == order[..n + i]
        invariant vv.Some? ==> IsVersion(h, vv.value, First(r.src))
        invariant fresh(seqs.Values - old(seqs.Values))
      {
        var op := r.ops[i];
        assert op == order[n + i] && op in r.ops;
        IsNextAt(h, order, n + i, r.src, mode);
        ok, vv := MergeNext(op, r.src, vv);
        assert order[..n + i] + [op] == order[..n + i + 1];
        if !ok {
          Refused(h, order, n + i + 1, op.cont, mode);
          return;
        }
      }
      ok := true;
      assert order[..n] + r.ops == order[..n + |r.ops|];
    }

    /** Merges all runs. */
    method MergeAll(ghost order: seq<Op>, runs: seq<Run>) returns (ok: bool)
      requires Valid() && done == [] && HonestOps(h, order, mode) && InOrder(h, order) && order == Flatten(runs)
      requires forall r :: r in runs ==> RunRight(r) && Tells(h, r.src) && r.src in ix.all
      modifies this, ix, seqs.Values
      ensures fresh(seqs.Values - old(seqs.Values))
      ensures ok ==> StatesRight(h, order, mode, seqs)
      ensures !ok ==> exists key :: Replay(EventsOf(h, order, key), mode) == None
    {
      hide StatesRight, Replay, EventsOf, ViewOf, FrontierRight, Complete, Told, Indexed, HonestOps, InOrder, Tells, RunRight, Flatten;
      FlatNone(runs);
      for i := 0 to |runs|
        invariant Valid() && done == Flatten(runs[..i])
        invariant fresh(seqs.Values - old(seqs.Values))
      {
        FlatPrefix(runs, i);
        ok := MergeRun(order, runs[i]);
        if !ok { return; }
      }
      ok := true;
      assert runs[..|runs|] == runs;
    }
  }

  lemma {:induction false} NextView(h: History, done: seq<Op>, op: Op, u: SeqChange, mode: Mode, vv: map<nat, int>)
    requires Complete(h) && IsNext(h, done, op, u, mode) && IsVersion(h, vv, First(u))
    ensures SameHas(View(vv, op.id.peer, op.id.counter), ViewOf(h, op.id))
  {
    hide Past, IsVersion, ViewOf, InOrder, HonestOps;
    NextTold(h, done, op, u, mode);
    ChangeView(h, u, vv, op.id);
  }

  lemma {:induction false} OtherOp(h: History, done: seq<Op>, op: Op, mode: Mode, seqs: map<ContKey, SeqState>)
    requires Complete(h) && StatesRight(h, done, mode, seqs) && !op.IsSeq()
    ensures StatesRight(h, done + [op], mode, seqs)
  {
    hide Replay, EventsOf, ViewOf, StateRight, Complete;
    forall k | k in seqs ensures StateRight(h, done + [op], k, mode, seqs[k]) { StateKeeps(h, done, op, k, mode, seqs[k]); }
    forall k | k !in seqs ensures EventsOf(h, done + [op], k) == [] { OthersKeep(h, done, op, k); }
  }

  lemma {:induction false} IsNextAt(h: History, order: seq<Op>, k: nat, u: SeqChange, mode: Mode)
    requires Complete(h) && HonestOps(h, order, mode) && InOrder(h, order) && k < |order|
    requires Tells(h, u) && InChange(u, order[k])
    ensures IsNext(h, order[..k], order[k], u, mode)
  {
    hide Tells, HonestOps, NotBefore, Complete;
    var all := order[..k] + [order[k]];
    assert order == all + order[k + 1..];
    PartHonest(h, all, order[k + 1..], mode);
    assert order[k] in order && TellsOp(h, order[k]);
    forall i, j | 0 <= i < j < |all| ensures NotBefore(h, all[j], all[i]) { assert all[i] == order[i] && all[j] == order[j]; }
  }

  /** Once an op is refused the whole replay is. */
  lemma {:induction false} Refused(h: History, order: seq<Op>, k: nat, key: ContKey, mode: Mode)
    requires Complete(h) && k <= |order| && Replay(EventsOf(h, order[..k], key), mode) == None
    ensures Replay(EventsOf(h, order, key), mode) == None
    decreases |order| - k
  {
    hide Complete, EventsOf, Replay;
    if k == |order| {
      assert order[..k] == order;
    } else {
      assert order[..k + 1] == order[..k] + [order[k]];
      RefusedStep(h, order[..k], order[k], key, mode);
      Refused(h, order, k + 1, key, mode);
    }
  }

  lemma {:induction false} RefusedStep(h: History, done: seq<Op>, op: Op, key: ContKey, mode: Mode)
    requires Complete(h) && Replay(EventsOf(h, done, key), mode) == None
    ensures Replay(EventsOf(h, done + [op], key), mode) == None
  {
    hide Complete, EventsOf, ViewOf, Replay, Apply;
    if Of(op, key) { ReplayNext(h, done, op, mode); } else { OthersKeep(h, done, op, key); }
  }

  /** The fresh ops of the units: one op per id, each within its change. */
  ghost predicate HonestUnits(h: History, units: seq<SeqChange>, mode: Mode)
    requires Complete(h)
  {
    HonestOps(h, News(units), mode) && forall u, op :: u in units && op in u.news ==> InChange(u, op)
  }

  /** The merge came out as the replay of `ops` does: the same sequences, or refused as it is. */
  ghost predicate Merged(h: History, mode: Mode, ops: seq<Op>, r: Option<map<ContKey, SeqState>>)
    requires Complete(h)
    reads if r.Some? then r.value.Values else {}
  {
    match r
    case Some(seqs) => StatesRight(h, ops, mode, seqs)
    case None => exists key :: Replay(EventsOf(h, ops, key), mode) == None
  }

  lemma {:induction false} MergedSame(h: History, mode: Mode, xs: seq<Op>, ys: seq<Op>, r: Option<map<ContKey, SeqState>>)
    requires Complete(h) && HonestOps(h, xs, mode) && multiset(xs) == multiset(ys) && InOrder(h, xs) && InOrder(h, ys)
    requires Merged(h, mode, xs, r)
    ensures Merged(h, mode, ys, r)
  {
    hide Complete, HonestOps, InOrder, Replay, EventsOf, ViewOf;
    if r.None? {
      var key :| Replay(EventsOf(h, xs, key), mode) == None;
      SameMerge(h, xs, ys, key, mode);
    } else {
      forall k | k in r.value ensures StateRight(h, ys, k, mode, r.value[k]) {
        assert StateRight(h, xs, k, mode, r.value[k]);
        SameMerge(h, xs, ys, k, mode);
      }
      forall k | k !in r.value ensures EventsOf(h, ys, k) == [] {
        EventsSame(h, xs, ys, k);
        NoneLeft(EventsOf(h, ys, k));
      }
    }
  }

  lemma {:induction false} NoneLeft(es: seq<Event>)
    requires multiset(es) == multiset([])
    ensures es == []
  {
    assert |multiset(es)| == |es|;
  }

  /** All runs of all units. */
  method AllRuns(units: seq<SeqChange>) returns (runs: seq<Run>)
    requires forall u, op :: u in units && op in u.news ==> InChange(u, op)
    ensures Flatten(runs) == News(units)
    ensures forall r :: r in runs ==> RunRight(r) && r.src in units
  {
    runs := [];
    for i := 0 to |units|
      invariant Flatten(runs) == News(units[..i])
      invariant forall r :: r in runs ==> RunRight(r) && r.src in units
    {
      var more := SplitRuns(units[i]);
      FlattenConcat(runs, more);
      assert units[..i + 1][..i] == units[..i];
      runs := runs + more;
    }
    assert units[..|units|] == units;
  }

  lemma {:induction false} FlatNone(runs: seq<Run>)
    ensures Flatten(runs[..0]) == []
  {
  }

  lemma {:induction false} FlatPrefix(runs: seq<Run>, i: nat)
    requires i < |runs|
    ensures var d, all := Flatten(runs[..i]), Flatten(runs);
      && |d| + |runs[i].ops| <= |all| && d == all[..|d|] && runs[i].ops == all[|d|..|d| + |runs[i].ops|]
      && Flatten(runs[..i + 1]) == d + runs[i].ops
  {
    hide Flatten;
    assert runs[..i + 1] == runs[..i] + [runs[i]];
    FlattenStep(runs[..i], runs[i]);
    assert runs == runs[..i + 1] + runs[i + 1..];
    FlattenConcat(runs[..i + 1], runs[i + 1..]);
  }

  lemma {:induction false} NonemptyRuns(runs: seq<Run>)
    requires forall r :: r in runs ==> RunRight(r)
    ensures AllNonempty(runs)
  {
  }

  lemma {:induction false} ToldTells(h: History, all: seq<SeqChange>, units: seq<SeqChange>)
    requires Told(h, all) && forall u :: u in units ==> u in all
    ensures Complete(h) && forall u :: u in units ==> Tells(h, u)
  {
  }

  lemma {:induction false} HonestSame(h: History, xs: seq<Op>, ys: seq<Op>, mode: Mode)
    requires Complete(h) && HonestOps(h, xs, mode) && multiset(xs) == multiset(ys)
    ensures HonestOps(h, ys, mode)
  {
    hide HonestOp, HonestTwo, Complete;
    forall op | op in ys ensures op in xs { assert op in multiset(ys); assert op in multiset(xs); }
  }

  lemma {:induction false} AtomsAreLen(h: History, ops: seq<Op>, mode: Mode)
    requires Complete(h) && HonestOps(h, ops, mode)
    ensures forall op :: op in ops ==> op.Atoms() == op.len
  {
    hide HonestTwo;
    forall op | op in ops ensures op.len >= 1 { HonestTells(h, op, mode); }
  }

  /** The runs, sorted, are an order of all fresh ops that respects causality. */
  lemma {:induction false} OrderRight(h: History, units: seq<SeqChange>, runs: seq<Run>, mode: Mode)
    requires Complete(h) && HonestUnits(h, units, mode) && Flatten(runs) == News(units) && AllNonempty(runs)
    requires forall r :: r in runs ==> RunRight(r) && Tells(h, r.src)
    ensures var order := Flatten(SortRuns(runs));
      HonestOps(h, order, mode) && InOrder(h, order) && multiset(order) == multiset(News(units))
  {
    hide Complete, HonestOps, InOrder, News, Flatten, RunsOrdered, Tells, RunRight, SortRuns;
    var sorted := SortRuns(runs);
    var order := Flatten(sorted);
    HonestSame(h, News(units), order, mode);
    AtomsAreLen(h, order, mode);
    SortOrdered(runs);
    RunsInOrder(h, sorted, mode);
  }

  lemma {:induction false} AnyOrder(h: History, mode: Mode, order: seq<Op>, news: seq<Op>, r: Option<map<ContKey, SeqState>>)
    requires Complete(h) && HonestOps(h, order, mode) && InOrder(h, order) && Merged(h, mode, order, r)
    requires multiset(order) == multiset(news)
    ensures forall ops :: InOrder(h, ops) && multiset(ops) == multiset(news) ==> Merged(h, mode, ops, r)
    ensures exists ops :: InOrder(h, ops) && multiset(ops) == multiset(news)
  {
    hide Complete, HonestOps, InOrder, Merged;
    forall ops | InOrder(h, ops) && multiset(ops) == multiset(news) ensures Merged(h, mode, ops, r) {
      MergedSame(h, mode, order, ops, r);
    }
  }

  /** Merging all fresh ops gives, for each container, the replay of its ops in any order that
      respects causality, every op resolved against exactly its causal past; it is refused just
      when such a replay is. */
  method MergeSequences(ghost h: History, all: seq<SeqChange>, units: seq<SeqChange>, strict: bool)
    returns (r: Option<map<ContKey, SeqState>>)
    requires Told(h, all) && (forall u :: u in units ==> u in all) && HonestUnits(h, units, Mode(true, strict))
    ensures r.Some? ==> fresh(r.value.Values)
    ensures forall ops :: InOrder(h, ops) && multiset(ops) == multiset(News(units)) ==> Merged(h, Mode(true, strict), ops, r)
    ensures exists ops :: InOrder(h, ops) && multiset(ops) == multiset(News(units))
  {
    hide Told, HonestOps, InOrder, News, Flatten, SortRuns, RunsOrdered, StatesRight, Replay, EventsOf, Complete, Tells, FrontierRight, Indexed;
    ToldTells(h, all, units);
    var ix := new CausalIndex(h, all);
    var whole := ix.CheckAll();
    var runs := AllRuns(units);
    NonemptyRuns(runs);
    var sorted := SortRuns(runs);
    ghost var order, mode := Flatten(sorted), Mode(true, strict);
    OrderRight(h, units, runs, mode);
    var m := new Merger(h, ix, Mode(ix.complete, strict));
    var ok := m.MergeAll(order, sorted);
    r := if ok then Some(m.seqs) else None;
    AnyOrder(h, mode, order, News(units), r);
  }
}
