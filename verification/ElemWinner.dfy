/** Which write decides a MovableList element: its value by the latest of its insert and its sets, its position by the latest
    of its insert and its moves. */
module ElemWinners {
  import opened Common
  import opened SeqTypes
  import opened SeqReference
  import opened SeqEdits
  import opened SeqFits
  import opened SeqPlan
  import opened SeqApply
  import opened SeqSwap
  import opened SeqConverge
  import opened SeqViews
  import opened SeqHistory
  import opened SeqMachine
  import opened SeqMerge
  import opened CausalHistory
  import opened Ops
  import opened MovStates
  import opened SeqContents
  import opened ReplayContents
  import opened MergedContents

  /** The op gives element k its value: it inserted it or sets it. */
  ghost predicate Writes(op: Op, k: ElemKey) { Creates(op, k) || (op.body.ListSet? && op.body.elem == k) }

  /** The lamport of the atom that writes the element. */
  function LamportIn(op: Op, k: ElemKey): int { if op.body.Items? then k.lamport else op.lamport }

  /** The id of that atom. */
  function AtomIn(op: Op, k: ElemKey): Id {
    if op.body.Items? then Id(op.id.peer, op.id.counter + (k.lamport - op.lamport)) else op.id
  }

  /** The value written. */
  ghost function ValueIn(op: Op, k: ElemKey): Value
    requires Writes(op, k)
  {
    if op.body.Items? then op.body.items[k.lamport - op.lamport] else op.body.value
  }

  /** Lower lamport, or the same lamport and a peer no higher. */
  predicate NoLaterThan(a: Op, b: Op, k: ElemKey) {
    LamportIn(a, k) < LamportIn(b, k) || (LamportIn(a, k) == LamportIn(b, k) && a.id.peer <= b.id.peer)
  }

  /** No two inserts made one element. */
  ghost predicate OneCreator(es: seq<Event>) {
    forall e, f, k :: e in es && f in es && Creates(e.op, k) && Creates(f.op, k) ==> e == f
  }

  // ----- values -----

  ghost predicate ValueFrom(x: Elem, k: ElemKey, op: Op) {
    && Writes(op, k) && x.value == ValueIn(op, k) && x.valueId == AtomIn(op, k)
    && x.valueWriter == Writer(LamportIn(op, k), op.id.peer) && x.valueSet == op.body.ListSet?
  }

  /** e is the latest of the ops that write k, and x is as it wrote it. */
  ghost predicate ValueWon(es: seq<Event>, k: ElemKey, x: Elem, e: Event) {
    && e in es && ValueFrom(x, k, e.op)
    && forall f :: f in es && Writes(f.op, k) ==> NoLaterThan(f.op, e.op, k)
  }

  lemma {:induction false} CreatorAlone(es: seq<Event>, mode: Mode, k: ElemKey, f: Event)
    requires es != [] && Honest(es, mode) && Causally(es) && OneCreator(es) && Creates(es[|es| - 1].op, k) && f in es
    ensures !Names(f.op, k) && (Creates(f.op, k) ==> f == es[|es| - 1])
  {
    hide Honest, Causally, Names, Creates;
    var n := |es| - 1;
    var j :| 0 <= j < |es| && es[j] == f;
    assert es[n] in es;
    if Names(f.op, k) { CreatorFirst(es, mode, n, j, k); }
  }

  lemma {:induction false} OneCreatorPrefix(es: seq<Event>)
    requires es != [] && OneCreator(es)
    ensures OneCreator(es[..|es| - 1])
  {
    hide Creates;
  }

  /** What a set leaves of an element's value: the later of what was and what it sets. */
  lemma {:induction false} SetWins(es: seq<Event>, k: ElemKey, x: Elem, w: Event, e: Event, now: Elem)
    requires ValueWon(es, k, x, w) && e.op.body.ListSet? && e.op.body.elem == k
    requires ElemAfter(Some(x), k, e.op, true) == Some(now)
    ensures ValueWon(es + [e], k, now, w) || ValueWon(es + [e], k, now, e)
  {
    hide Creates;
    assert forall f :: f in es + [e] <==> f in es || f == e;
  }

  lemma {:induction false} OtherWins(es: seq<Event>, k: ElemKey, x: Elem, w: Event, e: Event, now: Elem)
    requires ValueWon(es, k, x, w) && !Writes(e.op, k) && now.value == x.value && now.valueId == x.valueId && now.valueWriter == x.valueWriter && now.valueSet == x.valueSet
    ensures ValueWon(es + [e], k, now, w)
  {
    hide Creates;
    assert forall f :: f in es + [e] <==> f in es || f == e;
  }

  lemma {:induction false} NewWins(es: seq<Event>, k: ElemKey, e: Event)
    requires Creates(e.op, k) && forall f :: f in es ==> !Writes(f.op, k)
    ensures ValueWon(es + [e], k, NewElem(e.op, k), e)
  {
    assert forall f :: f in es + [e] <==> f in es || f == e;
  }

  /** An op that writes no value of k changes none. */
  lemma {:induction false} NotWritten(x: Option<Elem>, k: ElemKey, op: Op, acts: bool)
    requires !Writes(op, k)
    ensures var now := ElemAfter(x, k, op, acts);
      (now.Some? <==> x.Some?)
      && (x.Some? ==>
            (now.value.value == x.value.value && now.value.valueId == x.value.valueId && now.value.valueWriter == x.value.valueWriter
             && now.value.valueSet == x.value.valueSet))
  {
  }

  lemma {:induction false} StepElem(s: SeqVal, e: Event, mode: Mode, now: SeqVal, k: ElemKey)
    requires Apply(s, e.op, e.view, mode.byPosition, mode.strict) == Some(now)
    ensures Get(now.elems, k) == ElemAfter(Get(s.elems, k), k, e.op, Acts(s, e.op, e.view))
  {
    hide Apply, ElemAfter, ElemsAfter;
    ApplyRest(s, e.op, e.view, mode.byPosition, mode.strict);
    ElemsPointwise(s.elems, e.op, Acts(s, e.op, e.view), k);
  }

  lemma {:induction false} GetIs(elems: map<ElemKey, Elem>, k: ElemKey)
    ensures k in elems <==> Get(elems, k).Some?
    ensures k in elems ==> Get(elems, k) == Some(elems[k])
  {
  }

  /** An element has the value the latest of its insert and its sets gave it, under that write's id. */
  lemma {:induction false} ValueLatest(es: seq<Event>, mode: Mode, k: ElemKey) returns (w: Event)
    requires Honest(es, mode) && Causally(es) && OneCreator(es) && Replay(es, mode).Some? && k in Replay(es, mode).value.elems
    ensures ValueWon(es, k, Replay(es, mode).value.elems[k], w)
    decreases |es|
  {
    hide Apply, Honest, Causally, OneCreator, ValueWon, ElemAfter, Creates, Distinct, WellFormed;
    var n := |es| - 1;
    var p, e := es[..n], es[n];
    PrefixHolds(es, mode);
    OneCreatorPrefix(es);
    var s, now := Replay(p, mode).value, Replay(es, mode).value;
    StepElem(s, e, mode, now, k);
    GetIs(s.elems, k);
    GetIs(now.elems, k);
    assert es == p + [e];
    if Creates(e.op, k) {
      forall f | f in p ensures !Writes(f.op, k) { NotBeforeLast(es, mode, k, f); }
      CreatedNow(Get(s.elems, k), k, e.op, Acts(s, e.op, e.view));
      NewWins(p, k, e);
      w := e;
    } else if Writes(e.op, k) {
      SetActs(Get(s.elems, k), k, e.op, Acts(s, e.op, e.view));
      w := ValueLatest(p, mode, k);
      SetWins(p, k, s.elems[k], w, e, now.elems[k]);
      if !ValueWon(es, k, now.elems[k], w) { w := e; }
    } else {
      NotWritten(Get(s.elems, k), k, e.op, Acts(s, e.op, e.view));
      w := ValueLatest(p, mode, k);
      OtherWins(p, k, s.elems[k], w, e, now.elems[k]);
    }
  }

  lemma {:induction false} NotBeforeLast(es: seq<Event>, mode: Mode, k: ElemKey, f: Event)
    requires es != [] && Honest(es, mode) && Causally(es) && OneCreator(es) && Creates(es[|es| - 1].op, k) && f in es[..|es| - 1]
    ensures !Writes(f.op, k) && !Names(f.op, k)
  {
    hide Honest, Causally, OneCreator, Creates;
    var n := |es| - 1;
    var j :| 0 <= j < n && es[j] == f;
    PairAt(es, mode, j, n);
    CreatorAlone(es, mode, k, f);
  }

  lemma {:induction false} CreatedNow(x: Option<Elem>, k: ElemKey, op: Op, acts: bool)
    requires Creates(op, k)
    ensures ElemAfter(x, k, op, acts) == Some(NewElem(op, k))
  {
  }

  lemma {:induction false} SetActs(x: Option<Elem>, k: ElemKey, op: Op, acts: bool)
    requires Writes(op, k) && !Creates(op, k)
    ensures op.body.ListSet? && op.body.elem == k && ElemAfter(x, k, op, acts) == ElemAfter(x, k, op, true)
    ensures ElemAfter(x, k, op, true).Some? <==> x.Some?
  {
  }

  // ----- positions -----

  /** The event gives element k a position: it inserted it, or moves it from a position its author saw. */
  ghost predicate Places(s: SeqVal, e: Event, k: ElemKey) {
    Creates(e.op, k)
    || (e.op.body.ListMove? && e.op.body.elem == k && k in s.elems && 0 <= e.op.body.from < |Seen(s.nodes, e.view)|)
  }

  ghost predicate PlaceFrom(x: Elem, k: ElemKey, op: Op) {
    x.pos == AtomIn(op, k) && x.posWriter == Writer(LamportIn(op, k), op.id.peer)
  }

  /** e is the latest of the events that place k, and x is where it put it. */
  ghost predicate PlaceWon(es: seq<Event>, s: SeqVal, k: ElemKey, x: Elem, e: Event) {
    && e in es && Places(s, e, k) && PlaceFrom(x, k, e.op)
    && forall f :: f in es && Places(s, f, k) ==> NoLaterThan(f.op, e.op, k)
  }

  /** What was placed before the last op is placed after it. */
  lemma {:induction false} PlacesStay(es: seq<Event>, mode: Mode, f: Event, k: ElemKey)
    requires es != [] && Honest(es, mode) && Causally(es) && Replay(es, mode).Some? && Replay(es[..|es| - 1], mode).Some? && f in es
    requires k in Replay(es, mode).value.elems <==> k in Replay(es[..|es| - 1], mode).value.elems
    ensures Places(Replay(es, mode).value, f, k) <==> Places(Replay(es[..|es| - 1], mode).value, f, k)
  {
    hide Replay, Honest, Causally, Seen, Creates, Known, Apply;
    var n := |es| - 1;
    var j :| 0 <= j < |es| && es[j] == f;
    SeenThen(es, mode, j);
    if j < n {
      PrefixHolds(es, mode);
      SeenThen(es[..n], mode, j);
      assert es[..n][..j] == es[..j];
    }
  }

  lemma {:induction false} MoveWins(es: seq<Event>, s: SeqVal, k: ElemKey, x: Elem, w: Event, e: Event, now: Elem)
    requires PlaceWon(es, s, k, x, w) && e.op.body.ListMove? && e.op.body.elem == k && Places(s, e, k)
    requires ElemAfter(Some(x), k, e.op, true) == Some(now)
    ensures PlaceWon(es + [e], s, k, now, w) || PlaceWon(es + [e], s, k, now, e)
  {
    hide Creates, Places;
    assert forall f :: f in es + [e] <==> f in es || f == e;
  }

  lemma {:induction false} OtherPlaces(es: seq<Event>, s: SeqVal, k: ElemKey, x: Elem, w: Event, e: Event, now: Elem)
    requires PlaceWon(es, s, k, x, w) && !Places(s, e, k) && now.pos == x.pos && now.posWriter == x.posWriter
    ensures PlaceWon(es + [e], s, k, now, w)
  {
    hide Creates, Places;
    assert forall f :: f in es + [e] <==> f in es || f == e;
  }

  lemma {:induction false} NewPlaces(es: seq<Event>, s: SeqVal, k: ElemKey, e: Event)
    requires Creates(e.op, k) && forall f :: f in es ==> !Places(s, f, k)
    ensures PlaceWon(es + [e], s, k, NewElem(e.op, k), e)
  {
    assert forall f :: f in es + [e] <==> f in es || f == e;
  }

  lemma {:induction false} PlaceKept(es: seq<Event>, s: SeqVal, t: SeqVal, k: ElemKey, x: Elem, e: Event)
    requires PlaceWon(es, s, k, x, e) && forall f :: f in es ==> (Places(s, f, k) <==> Places(t, f, k))
    ensures PlaceWon(es, t, k, x, e)
  {
    hide Places;
  }

  lemma {:induction false} NotPlaced(x: Option<Elem>, k: ElemKey, s: SeqVal, e: Event)
    requires !Places(s, e, k) && (k in s.elems <==> x.Some?)
    ensures var now := ElemAfter(x, k, e.op, Acts(s, e.op, e.view));
      (now.Some? <==> x.Some?) && (x.Some? ==> now.value.pos == x.value.pos && now.value.posWriter == x.value.posWriter)
  {
    hide Seen;
  }

  lemma {:induction false} MoveActs(x: Option<Elem>, k: ElemKey, s: SeqVal, e: Event)
    requires Places(s, e, k) && !Creates(e.op, k)
    ensures e.op.body.ListMove? && e.op.body.elem == k && k in s.elems
    ensures ElemAfter(x, k, e.op, Acts(s, e.op, e.view)) == ElemAfter(x, k, e.op, true)
  {
    hide Seen;
  }

  lemma {:induction false} NotNamedPlaces(s: SeqVal, f: Event, k: ElemKey)
    requires !Writes(f.op, k) && !Names(f.op, k)
    ensures !Places(s, f, k)
  {
  }

  /** An element is where the latest of its insert and its moves put it. */
  lemma {:induction false} PlaceLatest(es: seq<Event>, mode: Mode, k: ElemKey) returns (w: Event)
    requires Honest(es, mode) && Causally(es) && OneCreator(es) && Replay(es, mode).Some? && k in Replay(es, mode).value.elems
    ensures PlaceWon(es, Replay(es, mode).value, k, Replay(es, mode).value.elems[k], w)
    decreases |es|
  {
    hide Apply, Honest, Causally, OneCreator, PlaceWon, Places, ElemAfter, Creates, Distinct, WellFormed, Writes, Names;
    var n := |es| - 1;
    var p, e := es[..n], es[n];
    PrefixHolds(es, mode);
    OneCreatorPrefix(es);
    var s, now := Replay(p, mode).value, Replay(es, mode).value;
    StepElem(s, e, mode, now, k);
    GetIs(s.elems, k);
    GetIs(now.elems, k);
    assert es == p + [e];
    if Creates(e.op, k) {
      forall f | f in p ensures !Places(now, f, k) {
        NotBeforeLast(es, mode, k, f);
        NotNamedPlaces(now, f, k);
      }
      CreatedNow(Get(s.elems, k), k, e.op, Acts(s, e.op, e.view));
      NewPlaces(p, now, k, e);
      w := e;
    } else {
      w := PlaceStep(es, mode, k, s, now);
    }
  }

  lemma {:induction false} PlaceStep(es: seq<Event>, mode: Mode, k: ElemKey, s: SeqVal, now: SeqVal) returns (w: Event)
    requires es != [] && Honest(es, mode) && Causally(es) && OneCreator(es) && Replay(es, mode) == Some(now) && k in now.elems
    requires Honest(es[..|es| - 1], mode) && Causally(es[..|es| - 1]) && OneCreator(es[..|es| - 1]) && Replay(es[..|es| - 1], mode) == Some(s)
    requires !Creates(es[|es| - 1].op, k) && Get(now.elems, k) == ElemAfter(Get(s.elems, k), k, es[|es| - 1].op, Acts(s, es[|es| - 1].op, es[|es| - 1].view))
    ensures PlaceWon(es, now, k, now.elems[k], w)
    decreases |es|, 0
  {
    hide Replay, Honest, Causally, OneCreator, PlaceWon, Places, ElemAfter, Creates, Get, Acts;
    var n := |es| - 1;
    var p, e := es[..n], es[n];
    GetIs(s.elems, k);
    GetIs(now.elems, k);
    assert es == p + [e] && e in es;
    StillThere(Get(s.elems, k), k, e.op, Acts(s, e.op, e.view));
    PlacesStay(es, mode, e, k);
    w := PlaceLatest(p, mode, k);
    forall f | f in p ensures Places(s, f, k) <==> Places(now, f, k) { assert f in es; PlacesStay(es, mode, f, k); }
    PlaceKept(p, s, now, k, s.elems[k], w);
    if Places(now, e, k) {
      MoveActs(Get(s.elems, k), k, s, e);
      MoveWins(p, now, k, s.elems[k], w, e, now.elems[k]);
      if !PlaceWon(es, now, k, now.elems[k], w) { w := e; }
    } else {
      NotPlaced(Get(s.elems, k), k, s, e);
      OtherPlaces(p, now, k, s.elems[k], w, e, now.elems[k]);
    }
  }

  lemma {:induction false} StillThere(x: Option<Elem>, k: ElemKey, op: Op, acts: bool)
    requires !Creates(op, k)
    ensures ElemAfter(x, k, op, acts).Some? <==> x.Some?
  {
  }

  // ----- merged documents -----

  /** An author's different atoms have different lamports. */
  lemma {:induction false} AtomsApart(h: History, x: Id, y: Id)
    requires Complete(h) && x in h && y in h && x.peer == y.peer && x != y
    ensures h[x].lamport != h[y].lamport
  {
    hide Past;
    if x.counter < y.counter {
      OwnPast(h, x, y);
      PastIn(h, x, y);
    } else {
      OwnPast(h, y, x);
      PastIn(h, y, x);
    }
  }

  /** The atom by which an op writes or places k is one of its own, with that lamport. */
  lemma {:induction false} AtomOfWrite(h: History, op: Op, k: ElemKey)
    requires TellsOp(h, op) && RightLength(op) && (op.body.Items? ==> Creates(op, k))
    ensures InAtoms(AtomIn(op, k), op.id, op.len) && AtomIn(op, k) in h && h[AtomIn(op, k)].lamport == LamportIn(op, k)
  {
    assert InAtoms(AtomIn(op, k), op.id, op.len);
  }

  lemma {:induction false} StampsApart(h: History, a: Op, b: Op, k: ElemKey)
    requires Complete(h) && TellsOp(h, a) && RightLength(a) && TellsOp(h, b) && RightLength(b) && Apart(a, b)
    requires (a.body.Items? ==> Creates(a, k)) && (b.body.Items? ==> Creates(b, k))
    ensures LamportIn(a, k) != LamportIn(b, k) || a.id.peer != b.id.peer
  {
    hide Past, Creates, TellsOp;
    AtomOfWrite(h, a, k);
    AtomOfWrite(h, b, k);
    if a.id.peer == b.id.peer { AtomsApart(h, AtomIn(a, k), AtomIn(b, k)); }
  }

  /** What the history says of one container's ops. */
  lemma {:induction false} OpsSay(h: History, mode: Mode, ops: seq<Op>, key: ContKey)
    requires Complete(h) && HonestOps(h, ops, mode)
    ensures forall e :: e in EventsOf(h, ops, key) ==> e.op in ops && Of(e.op, key) && e == EventOf(h, e.op) && TellsOp(h, e.op) && RightLength(e.op)
    ensures forall e, f :: e in EventsOf(h, ops, key) && f in EventsOf(h, ops, key) && e != f ==> Apart(e.op, f.op)
  {
    hide EventsOf, NamesSeen, ViewOf, TellsOp, RightLength, Apart, NamesNot, Unseen, Past;
    var es := EventsOf(h, ops, key);
    forall e | e in es ensures e.op in ops && Of(e.op, key) && e == EventOf(h, e.op) && TellsOp(h, e.op) && RightLength(e.op) {
      EventIn(h, ops, key, e);
      assert HonestOp(h, e.op, mode);
    }
    forall e, f | e in es && f in es && e != f ensures Apart(e.op, f.op) { assert HonestTwo(h, e.op, f.op); }
  }

  lemma {:induction false} CreatorsApart(h: History, mode: Mode, ops: seq<Op>, key: ContKey)
    requires Complete(h) && HonestOps(h, ops, mode)
    ensures OneCreator(EventsOf(h, ops, key))
  {
    hide EventsOf, HonestOps, TellsOp, RightLength, Apart, Past, ViewOf;
    OpsSay(h, mode, ops, key);
    var es := EventsOf(h, ops, key);
    forall e, f, k | e in es && f in es && Creates(e.op, k) && Creates(f.op, k) ensures e == f {
      if e != f { StampsApart(h, e.op, f.op, k); }
    }
  }

  /** The container's op sets element k. */
  predicate SetsElem(op: Op, key: ContKey, k: ElemKey) { op.cont == key && op.body.ListSet? && op.body.elem == k }

  /** The container's op moves element k. */
  predicate MovesElem(op: Op, key: ContKey, k: ElemKey) { op.cont == key && op.body.ListMove? && op.body.elem == k }

  /** The container's insert made element k of its item i. */
  predicate MakesElem(op: Op, key: ContKey, k: ElemKey, i: int) {
    && op.cont == key && op.body.Items? && 0 <= i < |op.body.items| && k == ElemKey(op.id.peer, op.lamport + i)
  }

  /** By lamport, then by peer, a is lower. */
  predicate Earlier(a: Op, b: Op) { a.lamport < b.lamport || (a.lamport == b.lamport && a.id.peer < b.id.peer) }

  /** The write that won an element's value, among all ops. */
  lemma {:induction false} MergedValueWon(h: History, mode: Mode, ops: seq<Op>, key: ContKey, s: SeqVal, k: ElemKey) returns (w: Op)
    requires Complete(h) && HonestOps(h, ops, mode) && InOrder(h, ops) && key.kind == MovableList
    requires Replay(EventsOf(h, ops, key), mode) == Some(s) && k in s.elems
    ensures w in ops && Of(w, key) && Writes(w, k) && ValueFrom(s.elems[k], k, w)
    ensures forall o :: o in ops && Of(o, key) && Writes(o, k) && o != w ==>
      LamportIn(o, k) < LamportIn(w, k) || (LamportIn(o, k) == LamportIn(w, k) && o.id.peer < w.id.peer)
  {
    hide Replay, EventsOf, HonestOps, InOrder, Honest, Causally, Past, ViewOf, TellsOp, OneCreator, Writes, RightLength, Apart;
    ContainerHonest(h, mode, ops, key);
    CreatorsApart(h, mode, ops, key);
    OpsSay(h, mode, ops, key);
    var es := EventsOf(h, ops, key);
    var e := ValueLatest(es, mode, k);
    w := e.op;
    WritesCreates(w, k);
    forall o | o in ops && Of(o, key) && Writes(o, k) && o != w
      ensures LamportIn(o, k) < LamportIn(w, k) || (LamportIn(o, k) == LamportIn(w, k) && o.id.peer < w.id.peer)
    {
      EventThere(h, ops, o);
      WritesCreates(o, k);
      StampsApart(h, o, w, k);
    }
  }

  lemma {:induction false} WritesCreates(op: Op, k: ElemKey)
    requires Writes(op, k)
    ensures op.body.Items? ==> Creates(op, k)
  {
  }

  lemma {:induction false} ContainerHonest(h: History, mode: Mode, ops: seq<Op>, key: ContKey)
    requires Complete(h) && HonestOps(h, ops, mode) && InOrder(h, ops)
    ensures Honest(EventsOf(h, ops, key), mode) && Causally(EventsOf(h, ops, key))
  {
    hide HonestOp, HonestTwo, NotBefore, EventsOf, Honest, Causally, Past, ViewOf;
    forall o | o in ops ensures TellsOp(h, o) { HonestTells(h, o, mode); }
    EventsHonest(h, ops, key, mode);
    EventsCausal(h, ops, key);
  }

  /** The elements of a merged MovableList are those its inserts made, each from one item. */
  lemma {:induction false} MergedMade(h: History, mode: Mode, ops: seq<Op>, key: ContKey, s: SeqVal, k: ElemKey)
    requires Complete(h) && HonestOps(h, ops, mode) && InOrder(h, ops) && key.kind == MovableList
    requires Replay(EventsOf(h, ops, key), mode) == Some(s)
    ensures k in s.elems <==> exists op, i :: op in ops && MakesElem(op, key, k, i)
  {
    hide Replay, EventsOf, HonestOps, InOrder, Past, ViewOf, TellsOp, RightLength, Apart;
    ElemsCreated(EventsOf(h, ops, key), mode, k);
    OpsSay(h, mode, ops, key);
    if e :| e in EventsOf(h, ops, key) && Creates(e.op, k) { assert MakesElem(e.op, key, k, k.lamport - e.op.lamport); }
    if op, i :| op in ops && MakesElem(op, key, k, i) {
      EventThere(h, ops, op);
      assert Creates(EventOf(h, op).op, k);
    }
  }

  /** An element no set names shows the item it was made of; the id kept with the value is that item's. */
  lemma {:induction false} UnsetValue(h: History, mode: Mode, ops: seq<Op>, key: ContKey, s: SeqVal, k: ElemKey, op: Op, i: int)
    requires Complete(h) && HonestOps(h, ops, mode) && InOrder(h, ops) && key.kind == MovableList
    requires Replay(EventsOf(h, ops, key), mode) == Some(s) && op in ops && MakesElem(op, key, k, i)
    requires forall o :: o in ops ==> !SetsElem(o, key, k)
    ensures k in s.elems && s.elems[k].value == op.body.items[i] && s.elems[k].valueId == Id(op.id.peer, op.id.counter + i)
    ensures !s.elems[k].valueSet
  {
    hide Replay, EventsOf, HonestOps, InOrder, Past, ViewOf;
    MergedMade(h, mode, ops, key, s, k);
    var w := MergedValueWon(h, mode, ops, key, s, k);
    assert Writes(op, k) && Of(op, key);
    if w != op {
      OneMaker(h, mode, ops, key, op, w, k);
    }
  }

  lemma {:induction false} OneMaker(h: History, mode: Mode, ops: seq<Op>, key: ContKey, a: Op, b: Op, k: ElemKey)
    requires Complete(h) && HonestOps(h, ops, mode) && a in ops && b in ops && Of(a, key) && Of(b, key) && Creates(a, k) && Creates(b, k)
    ensures a == b
  {
    hide EventsOf, HonestOps, Creates, Past, ViewOf;
    CreatorsApart(h, mode, ops, key);
    EventThere(h, ops, a);
    EventThere(h, ops, b);
    assert EventOf(h, a).op == a && EventOf(h, b).op == b;
  }

  /** An element some author set that had it shows the value of the latest set, under that set's id. */
  lemma {:induction false} SetValue(h: History, mode: Mode, ops: seq<Op>, key: ContKey, s: SeqVal, k: ElemKey, op: Op, i: int, t: Op) returns (w: Op)
    requires Complete(h) && HonestOps(h, ops, mode) && InOrder(h, ops) && key.kind == MovableList
    requires Replay(EventsOf(h, ops, key), mode) == Some(s) && op in ops && MakesElem(op, key, k, i)
    requires t in ops && SetsElem(t, key, k) && Past(h, Id(op.id.peer, op.id.counter + i), t.id)
    ensures k in s.elems && w in ops && SetsElem(w, key, k)
    ensures s.elems[k].value == w.body.value && s.elems[k].valueId == w.id && s.elems[k].valueSet
    ensures forall o :: o in ops && SetsElem(o, key, k) && o != w ==> Earlier(o, w)
  {
    hide Replay, EventsOf, HonestOps, InOrder, Past, ViewOf;
    MergedMade(h, mode, ops, key, s, k);
    w := MergedValueWon(h, mode, ops, key, s, k);
    AfterMaking(h, mode, ops, op, i, t, k);
    assert Writes(t, k) && Of(t, key);
    assert Writes(op, k) && Of(op, key);
    if w.body.Items? { OneMaker(h, mode, ops, key, op, w, k); }
    forall o | o in ops && SetsElem(o, key, k) && o != w ensures Earlier(o, w) { assert Writes(o, k) && Of(o, key); }
  }

  lemma {:induction false} AfterMaking(h: History, mode: Mode, ops: seq<Op>, op: Op, i: int, t: Op, k: ElemKey)
    requires Complete(h) && HonestOps(h, ops, mode) && op in ops && t in ops && Past(h, Id(op.id.peer, op.id.counter + i), t.id)
    requires MakesElem(op, op.cont, k, i) && op.cont.kind == MovableList
    ensures k.lamport < t.lamport
  {
    hide Past, HonestTwo, NamesSeen;
    var x := Id(op.id.peer, op.id.counter + i);
    assert HonestOp(h, op, mode) && HonestOp(h, t, mode);
    PastIn(h, x, t.id);
    assert InAtoms(x, op.id, op.len) && InAtoms(t.id, t.id, t.len);
  }

  /** The element's position, in a strict merge, is that of the latest of its insert and all its moves. */
  lemma {:induction false} MergedPlace(h: History, mode: Mode, ops: seq<Op>, key: ContKey, s: SeqVal, k: ElemKey, op: Op, i: int) returns (w: Op)
    requires Complete(h) && HonestOps(h, ops, mode) && InOrder(h, ops) && key.kind == MovableList && mode.strict
    requires Replay(EventsOf(h, ops, key), mode) == Some(s) && op in ops && MakesElem(op, key, k, i)
    ensures k in s.elems && w in ops && (w == op || MovesElem(w, key, k))
    ensures s.elems[k].pos == if w == op then Id(op.id.peer, op.id.counter + i) else w.id
    ensures forall o :: o in ops && MovesElem(o, key, k) && o != w ==>
      o.lamport < LamportIn(w, k) || (o.lamport == LamportIn(w, k) && o.id.peer < w.id.peer)
    ensures w != op ==> k.lamport < w.lamport || (k.lamport == w.lamport && k.peer < w.id.peer)
  {
    hide Replay, EventsOf, HonestOps, InOrder, Honest, Causally, Past, ViewOf, TellsOp, OneCreator, RightLength, Apart, Seen;
    MergedMade(h, mode, ops, key, s, k);
    ContainerHonest(h, mode, ops, key);
    CreatorsApart(h, mode, ops, key);
    OpsSay(h, mode, ops, key);
    var es := EventsOf(h, ops, key);
    var e := PlaceLatest(es, mode, k);
    w := e.op;
    EventThere(h, ops, op);
    assert Creates(op, k) && EventOf(h, op).op == op;
    if Creates(w, k) && w != op { OneMaker(h, mode, ops, key, op, w, k); }
    if w != op { StampsApart(h, op, w, k); }
    forall o | o in ops && MovesElem(o, key, k) && o != w
      ensures o.lamport < LamportIn(w, k) || (o.lamport == LamportIn(w, k) && o.id.peer < w.id.peer)
    {
      EventThere(h, ops, o);
      StrictMove(es, mode, EventOf(h, o));
      StampsApart(h, o, w, k);
    }
  }

  /** A strict merge has every move start from a position its author saw. */
  lemma {:induction false} StrictMove(es: seq<Event>, mode: Mode, e: Event)
    requires Honest(es, mode) && Causally(es) && Replay(es, mode).Some? && mode.strict && e in es
    requires e.op.body.ListMove? && e.op.body.elem in Replay(es, mode).value.elems
    ensures 0 <= e.op.body.from < |Seen(Replay(es, mode).value.nodes, e.view)|
  {
    hide Replay, Honest, Causally, Seen, Known, Insert, Nth;
    var j :| 0 <= j < |es| && es[j] == e;
    SeenThen(es, mode, j);
    ElemThen(es, mode, j, e.op.body.elem);
  }
}
