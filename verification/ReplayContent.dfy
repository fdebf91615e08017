/** What a replayed history holds: every element and every deleter is some op's, and every op's are there. */
module ReplayContents {
  import opened Common
  import opened SeqTypes
  import opened SeqOrder
  import opened SeqInsert
  import opened SeqReference
  import opened SeqEdits
  import opened SeqFits
  import opened SeqPlan
  import opened SeqEffect
  import opened SeqApply
  import opened SeqSwap
  import opened SeqConverge
  import opened Ops
  import opened MovStates
  import opened SeqContents

  // ----- replays -----

  lemma {:induction false} PrefixHolds(es: seq<Event>, mode: Mode)
    requires es != [] && Honest(es, mode) && Causally(es) && Replay(es, mode).Some?
    ensures var p := es[..|es| - 1];
      Honest(p, mode) && Causally(p) && Replay(p, mode).Some? && Distinct(Replay(p, mode).value.nodes)
    ensures var e := es[|es| - 1];
      e in es && WellFormed(e.op, e.view)
      && Apply(Replay(es[..|es| - 1], mode).value, e.op, e.view, mode.byPosition, mode.strict) == Replay(es, mode)
  {
    hide Apply, Distinct, Unseen, HonestPair, WellFormed, ReadsSeen, Honest, Causally;
    var n := |es| - 1;
    assert es == es[..n] + [es[n]];
    HonestPrefix(es[..n], es[n], mode);
    ReplayDefined(es, mode);
    ReplayDistinct(es[..n], mode);
    EventFits(es, mode, n);
  }

  lemma {:induction false} EventFits(es: seq<Event>, mode: Mode, j: nat)
    requires Honest(es, mode) && j < |es|
    ensures es[j] in es && WellFormed(es[j].op, es[j].view) && ReadsSeen(es[j].op, es[j].view, mode.byPosition, mode.strict)
  {
    hide HonestPair, WellFormed, ReadsSeen;
  }

  lemma {:induction false} ReplayDistinct(es: seq<Event>, mode: Mode)
    requires Honest(es, mode) && Causally(es) && Replay(es, mode).Some?
    ensures Distinct(Replay(es, mode).value.nodes)
  {
    hide Replay, Honest, Causally;
    var key := ReplayHolds(es, mode);
    OrderedParts(Replay(es, mode).value.nodes, key);
  }

  /** The first j events replay, and hold all that is asked of a replay. */
  lemma {:induction false} FirstHolds(es: seq<Event>, mode: Mode, j: nat)
    requires Honest(es, mode) && Causally(es) && Replay(es, mode).Some? && j <= |es|
    ensures Honest(es[..j], mode) && Causally(es[..j]) && Replay(es[..j], mode).Some? && Distinct(Replay(es[..j], mode).value.nodes)
    decreases |es|
  {
    hide Replay, Honest, Causally, Distinct;
    if j == |es| {
      assert es[..j] == es;
      ReplayDistinct(es, mode);
    } else {
      var n := |es| - 1;
      PrefixHolds(es, mode);
      assert es[..n][..j] == es[..j];
      FirstHolds(es[..n], mode, j);
    }
  }

  /** Ops an author had not seen change nothing of what it knew. */
  lemma {:induction false} ViewStays(es: seq<Event>, mode: Mode, j: nat, v: View)
    requires Honest(es, mode) && Causally(es) && Replay(es, mode).Some? && j <= |es|
    requires forall k :: j <= k < |es| ==> Unseen(v, es[k].op)
    ensures Replay(es[..j], mode).Some? && Known(Replay(es, mode).value.nodes, v) == Known(Replay(es[..j], mode).value.nodes, v)
    decreases |es|
  {
    hide Replay, Honest, Causally, Distinct, Known, Apply, Unseen, WellFormed;
    if j == |es| {
      assert es[..j] == es;
    } else {
      var n := |es| - 1;
      PrefixHolds(es, mode);
      assert es[..n][..j] == es[..j];
      ViewStays(es[..n], mode, j, v);
      ApplyKeepsSight(Replay(es[..n], mode).value, es[n].op, es[n].view, mode.byPosition, mode.strict, v);
    }
  }

  /** What an op's author has once it has made the op. */
  ghost function After(e: Event): View { e.view.(own := e.view.own + e.op.len) }

  lemma {:induction false} StillUnseen(e: Event, f: Event)
    requires WellFormed(e.op, e.view) && Unseen(e.view, f.op) && Disjoint(e, f)
    ensures Unseen(After(e), f.op)
  {
    assert forall x :: After(e).Has(x) ==> e.view.Has(x) || InAtoms(x, e.op.id, e.op.len);
  }

  lemma {:induction false} NotYetSeen(es: seq<Event>, mode: Mode, j: nat, k: nat)
    requires Honest(es, mode) && Causally(es) && j <= k < |es|
    ensures Unseen(es[j].view, es[k].op)
    ensures j < k ==> Unseen(After(es[j]), es[k].op)
  {
    hide HonestPair, ReadsSeen, Honest, Disjoint, Transitive;
    EventFits(es, mode, j);
    if j < k {
      assert Unseen(es[j].view, es[k].op);
      PairAt(es, mode, j, k);
      PairDisjoint(es[j], es[k]);
      StillUnseen(es[j], es[k]);
    }
  }

  lemma {:induction false} PairDisjoint(e: Event, f: Event)
    requires HonestPair(e, f)
    ensures Disjoint(e, f)
  {
  }

  lemma {:induction false} PairAt(es: seq<Event>, mode: Mode, j: nat, k: nat)
    requires Honest(es, mode) && j < |es| && k < |es| && j != k
    ensures es[j] != es[k] && HonestPair(es[j], es[k])
  {
    hide HonestPair, WellFormed, ReadsSeen;
    assert es[j] in es && es[k] in es;
    OnlyOnce(es, j, k);
  }

  /** What the author of the j-th op saw is the same once everything is merged, before its op and after it. */
  lemma {:induction false} SeenThen(es: seq<Event>, mode: Mode, j: nat)
    requires Honest(es, mode) && Causally(es) && Replay(es, mode).Some? && j < |es|
    ensures Replay(es[..j], mode).Some? && Replay(es[..j + 1], mode).Some?
    ensures var s, p, v := Replay(es, mode).value, Replay(es[..j], mode).value, es[j].view;
      Seen(s.nodes, v) == Seen(p.nodes, v) && Known(s.nodes, v) == Known(p.nodes, v)
    ensures var s, q, w := Replay(es, mode).value, Replay(es[..j + 1], mode).value, After(es[j]);
      Seen(s.nodes, w) == Seen(q.nodes, w)
    ensures Apply(Replay(es[..j], mode).value, es[j].op, es[j].view, mode.byPosition, mode.strict) == Replay(es[..j + 1], mode)
  {
    hide Replay, Honest, Causally, Distinct, Known, Unseen, Seen, Apply;
    var v, w := es[j].view, After(es[j]);
    forall k | j <= k < |es| ensures Unseen(v, es[k].op) && (j < k ==> Unseen(w, es[k].op)) { NotYetSeen(es, mode, j, k); }
    ViewStays(es, mode, j, v);
    ViewStays(es, mode, j + 1, w);
    SameSeenKnown(Replay(es, mode).value.nodes, Replay(es[..j], mode).value.nodes, v);
    SameSeenKnown(Replay(es, mode).value.nodes, Replay(es[..j + 1], mode).value.nodes, w);
    FirstHolds(es, mode, j + 1);
    PrefixHolds(es[..j + 1], mode);
    assert es[..j + 1][..j] == es[..j];
  }

  // ----- elements and begun marks -----

  /** The elements there are those some insert created. */
  lemma {:induction false} ElemsCreated(es: seq<Event>, mode: Mode, k: ElemKey)
    requires Replay(es, mode).Some?
    ensures k in Replay(es, mode).value.elems <==> exists e :: e in es && Creates(e.op, k)
  {
    hide Apply, Creates, ElemsAfter;
    if es != [] {
      var n := |es| - 1;
      var s, e := Replay(es[..n], mode).value, es[n];
      ElemsCreated(es[..n], mode, k);
      ApplyRest(s, e.op, e.view, mode.byPosition, mode.strict);
      ElemsPointwise(s.elems, e.op, Acts(s, e.op, e.view), k);
      OneElem(s.elems, k, e.op, Acts(s, e.op, e.view));
      assert forall f :: f in es <==> f in es[..n] || f == e;
    }
  }

  lemma {:induction false} OneElem(elems: map<ElemKey, Elem>, k: ElemKey, op: Op, acts: bool)
    ensures ElemAfter(Get(elems, k), k, op, acts).Some? <==> k in elems || Creates(op, k)
    ensures Get(ElemsAfter(elems, op, acts), k).Some? <==> k in ElemsAfter(elems, op, acts)
  {
    hide ElemsAfter;
  }

  /** The start anchor's op of the mark that a mark end with this id closes. */
  ghost predicate Begins(op: Op, end: Id) { op.body.MarkStart? && op.id == Id(end.peer, end.counter - 1) }

  ghost predicate Begun(es: seq<Event>, end: Id) { exists e :: e in es && Begins(e.op, end) }

  /** The ends awaited are those of the marks begun, each just past its last character, the start anchor counted. */
  lemma {:induction false} EndsAwaited(es: seq<Event>, mode: Mode, end: Id)
    requires Replay(es, mode).Some? && forall e :: e in es ==> !(e.op.body.MarkEnd? && e.op.id == end)
    ensures end in Replay(es, mode).value.pendingEnd <==> Begun(es, end)
    ensures forall e :: e in es && Begins(e.op, end) && (forall f :: f in es && Begins(f.op, end) ==> f == e) ==>
      end in Replay(es, mode).value.pendingEnd
      && Replay(es, mode).value.pendingEnd[end] == e.op.body.info.start + 1 + e.op.body.info.len
  {
    hide Apply;
    if es != [] {
      var n := |es| - 1;
      var s, e := Replay(es[..n], mode).value, es[n];
      assert forall f :: f in es <==> f in es[..n] || f == e;
      EndsAwaited(es[..n], mode, end);
      ApplyRest(s, e.op, e.view, mode.byPosition, mode.strict);
      assert Begins(e.op, end) ==> end == Id(e.op.id.peer, e.op.id.counter + 1);
    }
  }

  ghost predicate Names(op: Op, k: ElemKey) {
    (op.body.ListMove? && op.body.elem == k) || (op.body.ListSet? && op.body.elem == k)
  }

  /** An element is created before any op that names it. */
  lemma {:induction false} CreatorFirst(es: seq<Event>, mode: Mode, i: nat, j: nat, k: ElemKey)
    requires Honest(es, mode) && Causally(es) && i < |es| && j < |es| && Names(es[j].op, k) && Creates(es[i].op, k)
    ensures i < j
  {
    hide Honest, Unseen, Disjoint, Transitive;
    if i != j {
      PairAt(es, mode, i, j);
      PairNames(es[i], es[j]);
    }
  }

  lemma {:induction false} PairNames(e: Event, f: Event)
    requires HonestPair(e, f) && !NamesNot(f.op, e.op)
    ensures !Unseen(f.view, e.op)
  {
  }

  lemma {:induction false} ElemThen(es: seq<Event>, mode: Mode, j: nat, k: ElemKey)
    requires Honest(es, mode) && Causally(es) && Replay(es, mode).Some? && j < |es| && Names(es[j].op, k) && Replay(es[..j], mode).Some?
    ensures k in Replay(es[..j], mode).value.elems <==> k in Replay(es, mode).value.elems
  {
    hide Replay, Honest, Causally, Names, Creates;
    ElemsCreated(es, mode, k);
    ElemsCreated(es[..j], mode, k);
    if e :| e in es && Creates(e.op, k) {
      var i :| 0 <= i < |es| && es[i] == e;
      CreatorFirst(es, mode, i, j, k);
      assert es[..j][i] == e;
    }
    if e :| e in es[..j] && Creates(e.op, k) { assert e in es; }
  }

  lemma {:induction false} OneMarkEnd(es: seq<Event>, mode: Mode, j: nat, i: nat)
    requires Honest(es, mode) && j < |es| && i < j
    ensures es[i].op.id != es[j].op.id
  {
    hide Honest, Transitive;
    PairAt(es, mode, i, j);
    EventFits(es, mode, i);
    EventFits(es, mode, j);
    PairDisjoint(es[i], es[j]);
    assert InAtoms(es[i].op.id, es[i].op.id, es[i].op.len);
    assert InAtoms(es[j].op.id, es[j].op.id, es[j].op.len);
  }

  /** An author has its own start anchor when it ends the mark. */
  lemma {:induction false} BeginsFirst(es: seq<Event>, mode: Mode, i: nat, j: nat)
    requires Honest(es, mode) && Causally(es) && i < |es| && j < |es| && Begins(es[i].op, es[j].op.id)
    ensures i < j
  {
    hide Honest, HonestPair, ReadsSeen;
    EventFits(es, mode, i);
    EventFits(es, mode, j);
    assert InAtoms(es[i].op.id, es[i].op.id, es[i].op.len) && es[j].view.Has(es[i].op.id);
  }

  lemma {:induction false} BegunThen(es: seq<Event>, mode: Mode, j: nat)
    requires Honest(es, mode) && Causally(es) && j < |es| && Replay(es[..j], mode).Some?
    ensures es[j].op.id in Replay(es[..j], mode).value.pendingEnd <==> Begun(es, es[j].op.id)
  {
    hide Replay, Honest, Causally, Begins;
    var end := es[j].op.id;
    forall e | e in es[..j] ensures !(e.op.body.MarkEnd? && e.op.id == end) {
      var i :| 0 <= i < j && es[..j][i] == e;
      OneMarkEnd(es, mode, j, i);
    }
    EndsAwaited(es[..j], mode, end);
    if e :| e in es && Begins(e.op, end) {
      var i :| 0 <= i < |es| && es[i] == e;
      BeginsFirst(es, mode, i, j);
      assert es[..j][i] == e;
    }
    if e :| e in es[..j] && Begins(e.op, end) { assert e in es; }
  }

  /** Of what an author had seen, the same is there. */
  lemma {:induction false} KnownIds(a: seq<Node>, b: seq<Node>, v: View, x: Id)
    requires Known(a, v) == Known(b, v) && v.Has(x) && x in Ids(a)
    ensures x in Ids(b)
  {
    hide Known;
    var i :| 0 <= i < |a| && a[i].id == x;
    KnownAt(a, v, i);
    KnownFrom(b, v, |Known(a[..i], v)|);
  }

  lemma {:induction false} KnownFrom(nodes: seq<Node>, v: View, k: nat)
    requires k < |Known(nodes, v)|
    ensures Known(nodes, v)[k].id in Ids(nodes)
  {
    var m := |nodes| - 1;
    if k < |Known(nodes[..m], v)| {
      KnownFrom(nodes[..m], v, k);
      var i :| 0 <= i < m && nodes[..m][i].id == Known(nodes, v)[k].id;
      assert nodes[i].id == Known(nodes, v)[k].id;
    } else {
      assert nodes[m].id == Known(nodes, v)[k].id;
    }
  }

  // ----- what the j-th op puts in and takes, seen from the end -----

  lemma {:induction false} SamePuts(s: SeqVal, t: SeqVal, a: bool, b: bool, op: Op, v: View, x: Id, c: Cell)
    requires Seen(s.nodes, v) == Seen(t.nodes, v) && (op.body.MarkEnd? ==> a == b)
    requires op.body.ListMove? ==> (op.body.elem in s.elems <==> op.body.elem in t.elems)
    ensures Puts(s, a, op, v, x, c) <==> Puts(t, b, op, v, x, c)
  {
    hide Seen, PutsItem;
  }

  lemma {:induction false} SameTakes(s: SeqVal, t: SeqVal, op: Op, v: View, byPosition: bool, x: Id, d: Id)
    requires Seen(s.nodes, v) == Seen(t.nodes, v)
    requires op.body.ListMove? ==> (op.body.elem in s.elems <==> op.body.elem in t.elems)
    ensures TakesSome(s, op, v, byPosition, x, d) <==> TakesSome(t, op, v, byPosition, x, d)
  {
    hide Seen, InReach;
    forall k ensures Takes(s, op, v, byPosition, x, k) <==> Takes(t, op, v, byPosition, x, k) {}
  }

  /** The j-th op, its author's view and what it names, before it is merged and at the end. */
  lemma {:induction false} ThenAndNow(es: seq<Event>, mode: Mode, j: nat)
    requires Honest(es, mode) && Causally(es) && Replay(es, mode).Some? && j < |es|
    ensures Replay(es[..j], mode).Some?
    ensures var s, p, e := Replay(es, mode).value, Replay(es[..j], mode).value, es[j];
      && (forall x, c :: Puts(p, e.op.id in p.pendingEnd, e.op, e.view, x, c) <==> Puts(s, Begun(es, e.op.id), e.op, e.view, x, c))
      && (forall x, d :: TakesSome(p, e.op, e.view, mode.byPosition, x, d) <==> TakesSome(s, e.op, e.view, mode.byPosition, x, d))
  {
    hide Replay, Honest, Causally, Puts, TakesSome, Begun, Seen, Apply, Known;
    SeenThen(es, mode, j);
    BegunThen(es, mode, j);
    var s, p, e := Replay(es, mode).value, Replay(es[..j], mode).value, es[j];
    if e.op.body.ListMove? { ElemThen(es, mode, j, e.op.body.elem); }
    forall x, c ensures Puts(p, e.op.id in p.pendingEnd, e.op, e.view, x, c) <==> Puts(s, Begun(es, e.op.id), e.op, e.view, x, c) {
      SamePuts(p, s, e.op.id in p.pendingEnd, Begun(es, e.op.id), e.op, e.view, x, c);
    }
    forall x, d ensures TakesSome(p, e.op, e.view, mode.byPosition, x, d) <==> TakesSome(s, e.op, e.view, mode.byPosition, x, d) {
      SameTakes(p, s, e.op, e.view, mode.byPosition, x, d);
    }
  }

  ghost predicate PutThen(es: seq<Event>, mode: Mode, j: nat, x: Id, c: Cell)
    requires j < |es|
  {
    var p := Replay(es[..j], mode);
    p.Some? && Puts(p.value, es[j].op.id in p.value.pendingEnd, es[j].op, es[j].view, x, c)
  }

  ghost predicate TakenThen(es: seq<Event>, mode: Mode, j: nat, x: Id, d: Id)
    requires j < |es|
  {
    var p := Replay(es[..j], mode);
    p.Some? && x in Ids(p.value.nodes) && TakesSome(p.value, es[j].op, es[j].view, mode.byPosition, x, d)
  }

  lemma {:induction false} PutsSoFar(es: seq<Event>, mode: Mode, x: Id, c: Cell)
    requires Replay(es, mode).Some?
    ensures HasNode(Replay(es, mode).value.nodes, x, c) <==> exists j :: 0 <= j < |es| && PutThen(es, mode, j, x, c)
  {
    hide Apply, Puts, HasNode;
    if es != [] {
      var n := |es| - 1;
      var p, e := es[..n], es[n];
      PutsSoFar(p, mode, x, c);
      ApplyPuts(Replay(p, mode).value, e.op, e.view, mode.byPosition, mode.strict, Replay(es, mode).value, x, c);
      forall j | 0 <= j < n ensures PutThen(p, mode, j, x, c) <==> PutThen(es, mode, j, x, c) { assert p[..j] == es[..j]; }
      if j :| 0 <= j < n && PutThen(p, mode, j, x, c) { assert PutThen(es, mode, j, x, c); }
      if j :| 0 <= j < |es| && PutThen(es, mode, j, x, c) { assert j < n ==> PutThen(p, mode, j, x, c); }
      assert PutThen(es, mode, n, x, c) || !PutThen(es, mode, n, x, c);
    } else {
      NothingThere(x, c);
    }
  }

  lemma {:induction false} NothingThere(x: Id, c: Cell)
    ensures !HasNode([], x, c)
  {
  }

  lemma {:induction false} TakesSoFar(es: seq<Event>, mode: Mode, x: Id, d: Id)
    requires Honest(es, mode) && Causally(es) && Replay(es, mode).Some?
    ensures HasDeleter(Replay(es, mode).value.nodes, x, d) <==> exists j :: 0 <= j < |es| && TakenThen(es, mode, j, x, d)
    decreases |es|
  {
    hide Apply, TakesSome, HasDeleter, Honest, Causally, Distinct, Ids;
    if es != [] {
      var n := |es| - 1;
      var p, e := es[..n], es[n];
      PrefixHolds(es, mode);
      TakesSoFar(p, mode, x, d);
      ApplyTakes(Replay(p, mode).value, e.op, e.view, mode.byPosition, mode.strict, Replay(es, mode).value, x, d);
      forall j | 0 <= j < n ensures TakenThen(p, mode, j, x, d) <==> TakenThen(es, mode, j, x, d) { assert p[..j] == es[..j]; }
      if j :| 0 <= j < n && TakenThen(p, mode, j, x, d) { assert TakenThen(es, mode, j, x, d); }
      if j :| 0 <= j < |es| && TakenThen(es, mode, j, x, d) { assert j < n ==> TakenThen(p, mode, j, x, d); }
      assert TakenThen(es, mode, n, x, d) || !TakenThen(es, mode, n, x, d);
    } else {
      NoDeleter(x, d);
    }
  }

  lemma {:induction false} NoDeleter(x: Id, d: Id)
    ensures !HasDeleter([], x, d)
  {
  }

  /** The elements merged are those the ops put in, each with the cell its op gives it: all of them, and no others. */
  lemma {:induction false} ElementsAre(es: seq<Event>, mode: Mode, x: Id, c: Cell)
    requires Honest(es, mode) && Causally(es) && Replay(es, mode).Some?
    ensures var s := Replay(es, mode).value;
      HasNode(s.nodes, x, c) <==> exists e :: e in es && Puts(s, Begun(es, e.op.id), e.op, e.view, x, c)
  {
    hide Replay, Puts, HasNode, Honest, Causally, Begun, TakesSome;
    PutsSoFar(es, mode, x, c);
    var s := Replay(es, mode).value;
    if e :| e in es && Puts(s, Begun(es, e.op.id), e.op, e.view, x, c) {
      var j :| 0 <= j < |es| && es[j] == e;
      ThenAndNow(es, mode, j);
      assert PutThen(es, mode, j, x, c);
    }
    if j :| 0 <= j < |es| && PutThen(es, mode, j, x, c) {
      ThenAndNow(es, mode, j);
      assert es[j] in es;
    }
  }

  /** What an op takes was there when it was merged. */
  lemma {:induction false} TakenThere(es: seq<Event>, mode: Mode, j: nat, x: Id, d: Id)
    requires Honest(es, mode) && Causally(es) && Replay(es, mode).Some? && j < |es|
    requires x in Ids(Replay(es, mode).value.nodes) && TakesSome(Replay(es, mode).value, es[j].op, es[j].view, mode.byPosition, x, d)
    ensures Replay(es[..j], mode).Some? && x in Ids(Replay(es[..j], mode).value.nodes)
  {
    hide Replay, Honest, Causally, Seen, Known, Ids, Apply, ReadsSeen, WellFormed, TakesSome;
    SeenThen(es, mode, j);
    FirstHolds(es, mode, j);
    EventFits(es, mode, j);
    var s, p, e := Replay(es, mode).value, Replay(es[..j], mode).value, es[j];
    Covered(s, p, e, mode, x, d);
    if x !in Seen(s.nodes, e.view) { KnownIds(s.nodes, p.nodes, e.view, x); } else { SeenIn(p.nodes, e.view, x); }
  }

  lemma {:induction false} SeenIn(nodes: seq<Node>, v: View, x: Id)
    requires x in Seen(nodes, v)
    ensures x in Ids(nodes)
  {
    hide Seen;
    var k :| 0 <= k < |Seen(nodes, v)| && Seen(nodes, v)[k] == x;
    SeenVisible(nodes, v, k);
  }

  lemma {:induction false} Covered(s: SeqVal, p: SeqVal, e: Event, mode: Mode, x: Id, d: Id)
    requires TakesSome(s, e.op, e.view, mode.byPosition, x, d) && Seen(s.nodes, e.view) == Seen(p.nodes, e.view)
    requires ReadsSeen(e.op, e.view, mode.byPosition, mode.strict) && Apply(p, e.op, e.view, mode.byPosition, mode.strict).Some?
    ensures x in Seen(s.nodes, e.view) || e.view.Has(x)
  {
    hide Seen, Insert, InReach;
    var k :| d == Id(e.op.id.peer, e.op.id.counter + k) && Takes(s, e.op, e.view, mode.byPosition, x, k);
    if e.op.body.DeleteSeq? {
      ReachIs(s.nodes, e.view, e.op, e.op.body.span.len);
      ReachIs(p.nodes, e.view, e.op, e.op.body.span.len);
      Reached(Seen(s.nodes, e.view), e.op, e.op.body.span.len);
      assert x == Named(e.op.body.span, k) ==> e.op.body.span.Covers(x);
    }
  }

  lemma {:induction false} Reached(seen: seq<Id>, op: Op, len: int)
    ensures InReach(seen, op, len) ==> forall k :: 0 <= k < Size(len) ==> 0 <= Rank(op, len, k) < |seen|
  {
  }

  /** The deleters of an element are the delete atoms that take it: all of them, and no others. */
  lemma {:induction false} DeletersAre(es: seq<Event>, mode: Mode, x: Id, d: Id)
    requires Honest(es, mode) && Causally(es) && Replay(es, mode).Some?
    ensures var s := Replay(es, mode).value;
      HasDeleter(s.nodes, x, d) <==> x in Ids(s.nodes) && exists e :: e in es && TakesSome(s, e.op, e.view, mode.byPosition, x, d)
  {
    hide Replay, Puts, HasDeleter, Honest, Causally, Begun, TakesSome, Ids;
    TakesSoFar(es, mode, x, d);
    var s := Replay(es, mode).value;
    HasDeleterIn(s.nodes, x, d);
    if e :| x in Ids(s.nodes) && e in es && TakesSome(s, e.op, e.view, mode.byPosition, x, d) {
      var j :| 0 <= j < |es| && es[j] == e;
      ThenAndNow(es, mode, j);
      TakenThere(es, mode, j, x, d);
      assert TakenThen(es, mode, j, x, d);
    }
    if j :| 0 <= j < |es| && TakenThen(es, mode, j, x, d) {
      ThenAndNow(es, mode, j);
      assert es[j] in es;
    }
  }

  lemma {:induction false} HasDeleterIn(nodes: seq<Node>, x: Id, d: Id)
    ensures HasDeleter(nodes, x, d) ==> x in Ids(nodes)
  {
  }
}
