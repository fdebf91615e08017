/** The sequence ops of a history, in any order that respects causality: each author's view is its
    op's causal past, and all such orders merge to the same sequences. */
module SeqHistory {
  import opened Common
  import opened SeqTypes
  import opened SeqOrder
  import opened SeqReference
  import opened SeqEdits
  import opened SeqFits
  import opened SeqApply
  import opened SeqSwap
  import opened SeqConverge
  import opened SeqLive
  import opened SeqViews
  import opened CausalHistory
  import opened IdLists
  import opened CausalIndices
  import opened Ops

  /** The op's atoms are those of the history: the first has its own deps, each later one depends
      on the one before. */
  ghost predicate TellsOp(h: History, op: Op) {
    && op.id.counter >= 0 && op.len >= 1
    && (forall x :: InAtoms(x, op.id, op.len) ==> x in h && h[x].lamport == op.lamport + (x.counter - op.id.counter))
    && (forall x :: InAtoms(x, op.id, op.len) && x != op.id ==> h[x].deps == {Prev(x)})
  }

  ghost predicate RightLength(op: Op) {
    match op.body
    case Items(items) => op.len == |items|
    case DeleteSeq(span) => op.len == Size(span.len)
    case _ => op.len == 1
  }

  ghost predicate Apart(a: Op, b: Op) {
    forall x :: InAtoms(x, a.id, a.len) ==> !InAtoms(x, b.id, b.len)
  }

  /** An op names only elements its author had seen. */
  ghost predicate NamesSeen(h: History, op: Op, mode: Mode)
    requires Complete(h)
  {
    ReadsSeen(op, ViewOf(h, op.id), mode.byPosition, mode.strict)
  }

  ghost predicate HonestOp(h: History, op: Op, mode: Mode)
    requires Complete(h)
  {
    TellsOp(h, op) && (op.IsSeq() ==> RightLength(op) && NamesSeen(h, op, mode))
  }

  ghost predicate HonestTwo(h: History, a: Op, b: Op)
    requires Complete(h)
  {
    Apart(a, b) && (Unseen(ViewOf(h, b.id), a) ==> NamesNot(b, a))
  }

  /** One op per id, each told by the history and naming only what its author had seen. */
  ghost predicate HonestOps(h: History, ops: seq<Op>, mode: Mode)
    requires Complete(h)
  {
    && (forall op :: op in ops ==> HonestOp(h, op, mode) && multiset(ops)[op] == 1)
    && (forall a, b :: a in ops && b in ops && a != b ==> HonestTwo(h, a, b))
  }

  /** None of b's atoms lies in the past of a. */
  ghost predicate NotBefore(h: History, b: Op, a: Op)
    requires Complete(h)
  {
    forall x :: InAtoms(x, b.id, b.len) ==> !Past(h, x, a.id)
  }

  /** Every op comes after all its author had seen. */
  ghost predicate InOrder(h: History, ops: seq<Op>)
    requires Complete(h)
  {
    forall i, j :: 0 <= i < j < |ops| ==> NotBefore(h, ops[j], ops[i])
  }

  predicate Of(op: Op, key: ContKey) { op.IsSeq() && op.cont == key }

  ghost function EventOf(h: History, op: Op): Event
    requires Complete(h)
  {
    Event(op, ViewOf(h, op.id))
  }

  /** One container's ops, each with the view of its author. */
  ghost function EventsOf(h: History, ops: seq<Op>, key: ContKey): seq<Event>
    requires Complete(h)
  {
    if ops == [] then []
    else
      var op := ops[|ops| - 1];
      EventsOf(h, ops[..|ops| - 1], key) + if Of(op, key) then [EventOf(h, op)] else []
  }

  lemma {:induction false} EventsStep(h: History, ops: seq<Op>, op: Op, key: ContKey)
    requires Complete(h)
    ensures EventsOf(h, ops + [op], key) == EventsOf(h, ops, key) + if Of(op, key) then [EventOf(h, op)] else []
  {
    assert (ops + [op])[..|ops|] == ops;
  }

  // ----- from ops to events -----

  lemma {:induction false} EventsAt(h: History, ops: seq<Op>, key: ContKey, j: nat) returns (i: nat)
    requires Complete(h) && j < |EventsOf(h, ops, key)|
    ensures i < |ops| && Of(ops[i], key) && EventsOf(h, ops, key)[j] == EventOf(h, ops[i])
    ensures j == |EventsOf(h, ops[..i], key)|
  {
    var m := |ops| - 1;
    if j < |EventsOf(h, ops[..m], key)| {
      i := EventsAt(h, ops[..m], key, j);
      assert ops[..m][..i] == ops[..i];
    } else {
      i := m;
    }
  }

  lemma {:induction false} EventsGrow(h: History, ops: seq<Op>, key: ContKey, i: nat, k: nat)
    requires Complete(h) && i <= k <= |ops|
    ensures |EventsOf(h, ops[..i], key)| <= |EventsOf(h, ops[..k], key)|
    decreases k
  {
    if i < k {
      EventsGrow(h, ops, key, i, k - 1);
      assert ops[..k][..k - 1] == ops[..k - 1];
    }
  }

  lemma {:induction false} EventsCount(h: History, ops: seq<Op>, key: ContKey, op: Op)
    requires Complete(h)
    ensures multiset(EventsOf(h, ops, key))[EventOf(h, op)] == if Of(op, key) then multiset(ops)[op] else 0
  {
    hide ViewOf, Complete;
    if ops != [] {
      var m := |ops| - 1;
      EventsCount(h, ops[..m], key, op);
      CountStep(ops[..m], ops[m], op);
      assert ops == ops[..m] + [ops[m]];
      if Of(ops[m], key) { CountStep(EventsOf(h, ops[..m], key), EventOf(h, ops[m]), EventOf(h, op)); }
    }
  }

  lemma {:induction false} CountStep<T>(s: seq<T>, x: T, y: T)
    ensures multiset(s + [x])[y] == multiset(s)[y] + if x == y then 1 else 0
  {
    assert multiset(s + [x]) == multiset(s) + multiset{x};
  }

  lemma {:induction false} EventIn(h: History, ops: seq<Op>, key: ContKey, e: Event)
    requires Complete(h) && e in EventsOf(h, ops, key)
    ensures e.op in ops && Of(e.op, key) && e == EventOf(h, e.op)
  {
    var es := EventsOf(h, ops, key);
    var j :| 0 <= j < |es| && es[j] == e;
    var i := EventsAt(h, ops, key, j);
  }

  lemma {:induction false} EventHonest(h: History, op: Op, mode: Mode)
    requires Complete(h) && HonestOp(h, op, mode) && op.IsSeq()
    ensures WellFormed(op, ViewOf(h, op.id)) && ReadsSeen(op, ViewOf(h, op.id), mode.byPosition, mode.strict)
  {
    assert InAtoms(op.id, op.id, op.len);
    OwnTop(h, op.id);
  }

  ghost function Listed(s: set<Id>): (r: seq<Id>)
    ensures forall x :: x in r <==> x in s
  {
    if s == {} then []
    else
      var x :| x in s;
      assert forall y :: y in s <==> y in s - {x} || y == x;
      Listed(s - {x}) + [x]
  }

  ghost function AsChange(h: History, op: Op): SeqChange
    requires op.id in h
  {
    SeqChange(Change(op.id, h[op.id].lamport, Listed(h[op.id].deps), [op]), op.id.counter, op.id.counter + op.len, [op])
  }

  /** An op stands in the history as a change of its own would. */
  lemma {:induction false} OpTells(h: History, op: Op)
    requires Complete(h) && TellsOp(h, op)
    ensures op.id in h && Tells(h, AsChange(h, op)) && First(AsChange(h, op)) == op.id
  {
    hide Past;
    assert InAtoms(op.id, op.id, op.len);
    var c := AsChange(h, op);
    forall d ensures d in h[op.id].deps <==> d in IdSet(c.ch.deps) { DepInSet(c.ch.deps, d); }
    assert h[op.id].deps == IdSet(c.ch.deps);
    forall k | c.start <= k < c.end ensures TellsAtom(h, c, k) {
      assert InAtoms(Id(op.id.peer, k), op.id, op.len);
    }
  }

  /** The view an author has part way through its op. */
  lemma {:induction false} OpView(h: History, op: Op, x: Id)
    requires Complete(h) && TellsOp(h, op) && InAtoms(x, op.id, op.len)
    ensures x in h && SameHas(ViewAt(EventOf(h, op), x.counter), ViewOf(h, x))
  {
    hide Past, Tells, IsVersion, SameHas;
    OpTells(h, op);
    TopsVersion(h, op.id);
    ChangeView(h, AsChange(h, op), Tops(PastOf(h, op.id)), x);
  }

  lemma {:induction false} PairTransitive(h: History, a: Op, b: Op)
    requires Complete(h) && TellsOp(h, a) && TellsOp(h, b)
    ensures Transitive(EventOf(h, a), EventOf(h, b))
  {
    hide Past, ViewOf;
    var e, f := EventOf(h, a), EventOf(h, b);
    assert InAtoms(b.id, b.id, b.len);
    forall x, y | InAtoms(x, a.id, a.len) && f.view.Has(x) && ViewAt(e, x.counter).Has(y) ensures f.view.Has(y) {
      OpView(h, a, x);
      ViewIsPast(h, x, b.id);
      HasTrans(h, y, x, b.id);
    }
  }

  /** What a view has lies at or before one of its atoms, in its past. */
  lemma {:induction false} HasTop(h: History, y: Id, x: Id) returns (t: Id)
    requires Complete(h) && x in h && ViewOf(h, x).Has(y)
    ensures t.peer == y.peer && ((t == x && y.counter < t.counter) || (Past(h, t, x) && y.counter <= t.counter))
  {
    hide Past;
    var v := ViewOf(h, x);
    if y.peer == x.peer && y.counter < x.counter {
      t := x;
    } else {
      t := Id(y.peer, v.vv[y.peer] - 1);
      TopsVersion(h, x);
      VersionTop(h, v.vv, x, y.peer);
    }
  }

  lemma {:induction false} HasBelow(v: View, y: Id, t: Id)
    requires v.Has(t) && t.peer == y.peer && y.counter <= t.counter
    ensures v.Has(y)
  {
  }

  lemma {:induction false} HasTrans(h: History, y: Id, x: Id, z: Id)
    requires Complete(h) && x in h && z in h && ViewOf(h, x).Has(y) && Past(h, x, z)
    ensures ViewOf(h, z).Has(y)
  {
    hide Past, ViewOf;
    var t := HasTop(h, y, x);
    if t != x {
      PastIn(h, t, x);
      PastTrans(h, t, x, z);
    }
    ViewIsPast(h, t, z);
    HasBelow(ViewOf(h, z), y, t);
  }

  /** Honest ops make honest events. */
  lemma {:induction false} EventsHonest(h: History, ops: seq<Op>, key: ContKey, mode: Mode)
    requires Complete(h) && HonestOps(h, ops, mode)
    ensures Honest(EventsOf(h, ops, key), mode)
  {
    hide Past, ViewOf, WellFormed, ReadsSeen, HonestTwo, HonestOp, NamesSeen, EventsOf;
    var es := EventsOf(h, ops, key);
    forall e | e in es ensures WellFormed(e.op, e.view) && ReadsSeen(e.op, e.view, mode.byPosition, mode.strict) && multiset(es)[e] == 1 {
      OneHonest(h, ops, key, mode, e);
    }
    forall e, f | e in es && f in es && e != f ensures HonestPair(e, f) {
      EventIn(h, ops, key, e);
      EventIn(h, ops, key, f);
      TwoHonest(h, e.op, f.op, mode);
    }
  }

  lemma {:induction false} OneHonest(h: History, ops: seq<Op>, key: ContKey, mode: Mode, e: Event)
    requires Complete(h) && HonestOps(h, ops, mode) && e in EventsOf(h, ops, key)
    ensures WellFormed(e.op, e.view) && ReadsSeen(e.op, e.view, mode.byPosition, mode.strict)
    ensures multiset(EventsOf(h, ops, key))[e] == 1
  {
    hide Past, ViewOf, WellFormed, ReadsSeen, HonestTwo, HonestOp, NamesSeen, EventsOf;
    EventIn(h, ops, key, e);
    EventHonest(h, e.op, mode);
    EventsCount(h, ops, key, e.op);
  }

  lemma {:induction false} TwoHonest(h: History, a: Op, b: Op, mode: Mode)
    requires Complete(h) && HonestOp(h, a, mode) && HonestOp(h, b, mode) && HonestTwo(h, a, b) && HonestTwo(h, b, a)
    ensures HonestPair(EventOf(h, a), EventOf(h, b))
  {
    hide Past, ViewOf, NamesNot, Unseen, Transitive, TellsOp, RightLength, NamesSeen;
    PairTransitive(h, a, b);
  }

  /** An order that respects causality gives causally ordered events. */
  lemma {:induction false} EventsCausal(h: History, ops: seq<Op>, key: ContKey)
    requires Complete(h) && InOrder(h, ops) && forall op :: op in ops ==> TellsOp(h, op)
    ensures Causally(EventsOf(h, ops, key))
  {
    hide Past, ViewOf, TellsOp, NotBefore, Unseen;
    var es := EventsOf(h, ops, key);
    forall i, j | 0 <= i < j < |es| ensures Unseen(es[i].view, es[j].op) {
      var a := EventsAt(h, ops, key, i);
      var b := EventsAt(h, ops, key, j);
      if b <= a { EventsGrow(h, ops, key, b, a); }
      NotSeen(h, ops[b], ops[a]);
    }
  }

  lemma {:induction false} NotSeen(h: History, b: Op, a: Op)
    requires Complete(h) && TellsOp(h, a) && TellsOp(h, b) && NotBefore(h, b, a)
    ensures Unseen(ViewOf(h, a.id), b)
  {
    hide Past, ViewOf;
    assert InAtoms(a.id, a.id, a.len);
    forall x | InAtoms(x, b.id, b.len) ensures !ViewOf(h, a.id).Has(x) { ViewIsPast(h, x, a.id); }
  }

  lemma {:induction false} EventsSame(h: History, xs: seq<Op>, ys: seq<Op>, key: ContKey)
    requires Complete(h) && multiset(xs) == multiset(ys)
    ensures multiset(EventsOf(h, xs, key)) == multiset(EventsOf(h, ys, key))
  {
    hide ViewOf;
    var a, b := EventsOf(h, xs, key), EventsOf(h, ys, key);
    forall e ensures multiset(a)[e] == multiset(b)[e] {
      if e in a { EventIn(h, xs, key, e); EventsCount(h, xs, key, e.op); EventsCount(h, ys, key, e.op); }
      if e in b { EventIn(h, ys, key, e); EventsCount(h, xs, key, e.op); EventsCount(h, ys, key, e.op); }
    }
  }

  /** Any two orders of an honest history that respect causality merge each container to the same
      sequence. */
  lemma {:induction false} SameMerge(h: History, xs: seq<Op>, ys: seq<Op>, key: ContKey, mode: Mode)
    requires Complete(h) && HonestOps(h, xs, mode) && multiset(xs) == multiset(ys)
    requires InOrder(h, xs) && InOrder(h, ys)
    ensures Replay(EventsOf(h, xs, key), mode) == Replay(EventsOf(h, ys, key), mode)
  {
    hide Past, ViewOf, Honest, Causally, InOrder, HonestTwo, HonestOp;
    forall op | op in xs ensures TellsOp(h, op) { HonestTells(h, op, mode); }
    forall op | op in ys ensures TellsOp(h, op) { assert op in multiset(ys); HonestTells(h, op, mode); }
    EventsHonest(h, xs, key, mode);
    EventsCausal(h, xs, key);
    EventsCausal(h, ys, key);
    EventsSame(h, xs, ys, key);
    Converge(EventsOf(h, xs, key), EventsOf(h, ys, key), mode);
  }

  lemma {:induction false} HonestTells(h: History, op: Op, mode: Mode)
    requires Complete(h) && HonestOp(h, op, mode)
    ensures TellsOp(h, op)
  {
  }

  // ----- the order of a scan over all ops -----

  predicate NoLater(a: Op, b: Op) {
    a.lamport < b.lamport || (a.lamport == b.lamport &&
      (a.id.peer < b.id.peer || (a.id.peer == b.id.peer && a.id.counter <= b.id.counter)))
  }

  /** Ops sorted by (lamport, peer, counter) respect causality. */
  lemma {:induction false} SortedInOrder(h: History, ops: seq<Op>)
    requires Complete(h) && forall op :: op in ops ==> TellsOp(h, op)
    requires forall i, j :: 0 <= i < j < |ops| ==> NoLater(ops[i], ops[j])
    ensures InOrder(h, ops)
  {
    hide Past;
    forall i, j | 0 <= i < j < |ops| ensures NotBefore(h, ops[j], ops[i]) {
      assert ops[i] in ops && ops[j] in ops && InAtoms(ops[i].id, ops[i].id, ops[i].len);
      forall x | InAtoms(x, ops[j].id, ops[j].len) ensures !Past(h, x, ops[i].id) {
        if Past(h, x, ops[i].id) { PastIn(h, x, ops[i].id); }
      }
    }
  }
}
