/** Convergence: merging the same ops in any two orders that respect causality gives the same
    sequence. */
module SeqConverge {
  import opened Common
  import opened SeqTypes
  import opened SeqOrder
  import opened SeqReference
  import opened SeqEdits
  import opened SeqFits
  import opened SeqPlan
  import opened SeqEffect
  import opened SeqApply
  import opened SeqSwap
  import opened Ops

  /** An op with what its author had seen. */
  datatype Event = Event(op: Op, view: View)

  datatype Mode = Mode(byPosition: bool, strict: bool)

  /** The author's view just before atom c of its op. */
  ghost function ViewAt(e: Event, c: int): View { e.view.(own := c) }

  /** Causality is transitive: who has an atom has what its author had. */
  ghost predicate Transitive(e: Event, f: Event) {
    forall x, y :: InAtoms(x, e.op.id, e.op.len) && f.view.Has(x) && ViewAt(e, x.counter).Has(y) ==> f.view.Has(y)
  }

  ghost predicate Disjoint(e: Event, f: Event) {
    forall x :: InAtoms(x, e.op.id, e.op.len) ==> !InAtoms(x, f.op.id, f.op.len)
  }

  ghost predicate HonestPair(e: Event, f: Event) {
    Disjoint(e, f) && Transitive(e, f) && (Unseen(f.view, e.op) ==> NamesNot(f.op, e.op))
  }

  /** A history as honest authors make it: one op per id, views transitive, every op naming only
      what its author had seen. */
  ghost predicate Honest(es: seq<Event>, mode: Mode) {
    && (forall e :: e in es ==> WellFormed(e.op, e.view) && ReadsSeen(e.op, e.view, mode.byPosition, mode.strict))
    && (forall e, f :: e in es && f in es && e != f ==> HonestPair(e, f))
    && (forall e :: e in es ==> multiset(es)[e] == 1)
  }

  /** No op comes before one its author had seen. */
  ghost predicate Causally(es: seq<Event>) {
    forall i, j :: 0 <= i < j < |es| ==> Unseen(es[i].view, es[j].op)
  }

  ghost function Replay(es: seq<Event>, mode: Mode): Option<SeqVal> {
    if es == [] then Some(EmptySeq)
    else
      var e := es[|es| - 1];
      Then(Replay(es[..|es| - 1], mode), e.op, e.view, mode.byPosition, mode.strict)
  }

  lemma {:induction false} ReplayStep(es: seq<Event>, e: Event, mode: Mode)
    ensures Replay(es + [e], mode) == Then(Replay(es, mode), e.op, e.view, mode.byPosition, mode.strict)
  {
    assert (es + [e])[..|es|] == es;
  }

  // ----- what a replayed state holds -----

  /** The node was made by the event, its origins among what the author had. */
  ghost predicate MadeBy(n: Node, e: Event) {
    && InAtoms(n.id, e.op.id, e.op.len)
    && (n.left.Some? ==> ViewAt(e, n.id.counter).Has(n.left.value))
    && (n.right.Some? ==> ViewAt(e, n.id.counter).Has(n.right.value))
  }

  ghost predicate Accounted(n: Node, es: seq<Event>) {
    && (exists e :: e in es && MadeBy(n, e))
    && (forall d :: d in n.deleters ==> exists e :: e in es && InAtoms(d, e.op.id, e.op.len))
  }

  ghost predicate AllAccounted(nodes: seq<Node>, es: seq<Event>) {
    forall i :: 0 <= i < |nodes| ==> Accounted(nodes[i], es)
  }

  /** An author of a later event has every element of its own. */
  lemma {:induction false} OwnSeen(e: Event, f: Event, x: Id)
    requires WellFormed(e.op, e.view) && WellFormed(f.op, f.view) && Disjoint(e, f) && Unseen(e.view, f.op)
    requires InAtoms(x, e.op.id, e.op.len) && x.peer == f.view.peer
    ensures f.view.Has(x)
  {
    if f.op.id.counter < e.op.id.counter {
      assert InAtoms(f.op.id, f.op.id, f.op.len) && e.view.Has(f.op.id);
    } else if f.op.id.counter <= x.counter {
      assert InAtoms(f.op.id, e.op.id, e.op.len) && InAtoms(f.op.id, f.op.id, f.op.len);
    }
  }

  lemma {:induction false} NextMergeable(s: SeqVal, es: seq<Event>, f: Event, mode: Mode)
    requires AllAccounted(s.nodes, es) && Honest(es + [f], mode) && Causally(es + [f])
    ensures Mergeable(s, f.op, f.view)
  {
    hide Unseen, Disjoint, NamesNot;
    forall i | 0 <= i < |s.nodes| ensures CausalAt(s.nodes[i], f.view) && FreshFor(s.nodes[i], f.op.id, f.op.len) {
      NextMergeableAt(s.nodes[i], es, f, mode);
    }
    assert f in es + [f];
  }

  lemma {:induction false} NextMergeableAt(n: Node, es: seq<Event>, f: Event, mode: Mode)
    requires Accounted(n, es) && Honest(es + [f], mode) && Causally(es + [f])
    ensures CausalAt(n, f.view) && FreshFor(n, f.op.id, f.op.len)
  {
    hide Unseen, Disjoint, Transitive, Honest, Causally;
    var e :| e in es && MadeBy(n, e);
    LastPair(es, f, e, mode);
    if n.id.peer == f.view.peer { OwnSeen(e, f, n.id); }
    MadeSeen(n, e, f);
    DisjointAtoms(e, f, n.id);
    forall d | d in n.deleters ensures !InAtoms(d, f.op.id, f.op.len) {
      var g :| g in es && InAtoms(d, g.op.id, g.op.len);
      LastPair(es, f, g, mode);
      DisjointAtoms(g, f, d);
    }
  }

  lemma {:induction false} MadeSeen(n: Node, e: Event, f: Event)
    requires MadeBy(n, e) && Transitive(e, f)
    ensures f.view.Has(n.id) && n.left.Some? ==> f.view.Has(n.left.value)
    ensures f.view.Has(n.id) && n.right.Some? ==> f.view.Has(n.right.value)
  {
  }

  lemma {:induction false} DisjointAtoms(e: Event, f: Event, x: Id)
    requires Disjoint(e, f) && InAtoms(x, e.op.id, e.op.len)
    ensures !InAtoms(x, f.op.id, f.op.len)
  {
  }

  lemma {:induction false} LastPair(es: seq<Event>, f: Event, e: Event, mode: Mode)
    requires Honest(es + [f], mode) && Causally(es + [f]) && e in es
    ensures e != f && HonestPair(e, f) && HonestPair(f, e) && Unseen(e.view, f.op)
    ensures WellFormed(e.op, e.view) && WellFormed(f.op, f.view)
  {
    hide Unseen, HonestPair, WellFormed, ReadsSeen;
    var all := es + [f];
    var i :| 0 <= i < |es| && es[i] == e;
    assert all[i] == e && all[|es|] == f;
    assert e in all && f in all;
    assert multiset(all) == multiset(es) + multiset{f};
  }

  /** The origins an op's run gets are among what its author had. */
  lemma {:induction false} PlaceSeen(s: SeqVal, op: Op, v: View, byPosition: bool, strict: bool)
    requires WellFormed(op, v) && Distinct(s.nodes) && FreshAtoms(s.nodes, op.id, op.len)
    ensures var e := EffectOf(s, op, v, byPosition, strict);
      e.Some? && e.value.place.Place? ==>
        && (e.value.place.left.Some? ==> v.Has(e.value.place.left.value))
        && (e.value.place.right.Some? ==> v.Has(e.value.place.right.value))
  {
    hide Distinct, FreshAtoms, InsertPlace, Visible, CanRemoveAt, Gone;
    match op.body
    case Items(_) => InsertPlaceSeen(s.nodes, v, op.pos, Cells(op), strict);
    case MarkStart(info) => InsertPlaceSeen(s.nodes, v, op.pos, [StartAnchor(info, Writer(op.lamport, op.id.peer))], strict);
    case MarkEnd =>
      if op.id in s.pendingEnd { InsertPlaceSeen(s.nodes, v, s.pendingEnd[op.id], [EndAnchor], strict); }
    case ListMove(elem, from) =>
      if Moves(s, op, v) {
        var gone := Gone(s.nodes, v, op.id, from);
        InsertPlaceSeen(gone, Later(v, 1), op.pos, [Position(elem)], strict);
        InsertPlaceHolds(gone, Later(v, 1), op.pos, [Position(elem)], strict);
        GoneFresh(s.nodes, v, op, from);
      }
    case _ =>
  }

  lemma {:induction false} InsertPlaceSeen(nodes: seq<Node>, v: View, pos: int, cells: seq<Cell>, strict: bool)
    ensures var p := InsertPlace(nodes, v, pos, cells, strict);
      p.Some? && p.value.Place? ==>
        && (p.value.left.Some? ==> v.Has(p.value.left.value))
        && (p.value.right.Some? ==> v.Has(p.value.right.value))
  {
    if pos > 0 { LocateRank(nodes, v, pos, strict); }
  }

  lemma {:induction false} InsertPlaceHolds(nodes: seq<Node>, v: View, pos: int, cells: seq<Cell>, strict: bool)
    ensures var p := InsertPlace(nodes, v, pos, cells, strict);
      p.Some? && p.value.Place? ==> Present(nodes, p.value.left) && Present(nodes, p.value.right)
  {
    hide Visible, Seen;
  }

  lemma {:induction false} GoneFresh(nodes: seq<Node>, v: View, op: Op, from: nat)
    requires from < |Seen(nodes, v)| && WellFormed(op, v) && op.len == 1 && FreshAtoms(nodes, op.id, 1)
    ensures forall x :: x in Ids(Gone(nodes, v, op.id, from)) && Later(v, 1).Has(x) ==> v.Has(x)
  {
    hide Visible, Seen;
    var gone := Gone(nodes, v, op.id, from);
    forall x | x in Ids(gone) && Later(v, 1).Has(x) ensures v.Has(x) {
      var i :| 0 <= i < |gone| && gone[i].id == x;
      assert nodes[i].id == x && FreshFor(nodes[i], op.id, 1);
    }
  }

  lemma {:induction false} RunMade(op: Op, v: View, place: Place, k: nat)
    requires WellFormed(op, v) && k < |RunOf(place, op.id)| && |RunOf(place, op.id)| <= op.len
    requires place.Place? ==> (place.left.Some? ==> v.Has(place.left.value)) && (place.right.Some? ==> v.Has(place.right.value))
    ensures MadeBy(RunOf(place, op.id)[k], Event(op, v))
    ensures RunOf(place, op.id)[k].deleters == {}
  {
  }

  /** Executing an event's effect accounts for what it adds. */
  lemma {:induction false} ExecutedAccounted(n: seq<Node>, key: Keys, e: Effect, f: Event, m: seq<Node>, es: seq<Event>)
    requires AllAccounted(n, es) && Executed(n, key, e, f.op.id, m) && WellFormed(f.op, f.view)
    requires MarksFit(e.marks, f.op) && |RunOf(e.place, f.op.id)| <= f.op.len
    requires e.place.Place? ==>
      (e.place.left.Some? ==> f.view.Has(e.place.left.value)) && (e.place.right.Some? ==> f.view.Has(e.place.right.value))
    ensures AllAccounted(m, es + [f])
  {
    hide Ordered, Target, KeysAfter, Accounted, WellFormed, MarksFit, RunOf;
    ExecutedDistinct(n, key, e, f.op.id, m);
    forall i | 0 <= i < |m| ensures Accounted(m[i], es + [f]) {
      IndexOfIs(m, i);
      OneAccounted(n, key, e, f, m, es, m[i].id);
    }
  }

  lemma {:induction false} OneAccounted(n: seq<Node>, key: Keys, e: Effect, f: Event, m: seq<Node>, es: seq<Event>, x: Id)
    requires AllAccounted(n, es) && Executed(n, key, e, f.op.id, m) && WellFormed(f.op, f.view) && x in Ids(m)
    requires MarksFit(e.marks, f.op) && |RunOf(e.place, f.op.id)| <= f.op.len
    requires e.place.Place? ==>
      (e.place.left.Some? ==> f.view.Has(e.place.left.value)) && (e.place.right.Some? ==> f.view.Has(e.place.right.value))
    ensures Accounted(NodeAt(m, x), es + [f])
  {
    hide Ordered, Target, KeysAfter, RunOf, MadeBy;
    if x in Ids(n) {
      assert Accounted(NodeAt(n, x), es);
      TargetIsAtom(e.marks, f.op, x);
      StillAccounted(NodeAt(n, x), Target(e.marks, f.op.id, x), es, f);
    } else {
      var run := RunOf(e.place, f.op.id);
      var k :| 0 <= k < |run| && run[k].id == x;
      RunMade(f.op, f.view, e.place, k);
      assert f in es + [f];
    }
  }

  lemma {:induction false} StillAccounted(n: Node, t: Option<Id>, es: seq<Event>, f: Event)
    requires Accounted(n, es) && (t.Some? ==> InAtoms(t.value, f.op.id, f.op.len))
    ensures Accounted(MarkNode(n, t), es + [f])
  {
    var e :| e in es && MadeBy(n, e);
    assert e in es + [f] && MadeBy(MarkNode(n, t), e) && f in es + [f];
    forall d | d in MarkNode(n, t).deleters ensures exists g :: g in es + [f] && InAtoms(d, g.op.id, g.op.len) {
      if d in n.deleters {
        var g :| g in es && InAtoms(d, g.op.id, g.op.len);
        assert g in es + [f];
      }
    }
  }

  lemma {:induction false} HonestPrefix(es: seq<Event>, e: Event, mode: Mode)
    requires Honest(es + [e], mode) && Causally(es + [e])
    ensures Honest(es, mode) && Causally(es)
  {
    hide Unseen, HonestPair, WellFormed, ReadsSeen;
    var all := es + [e];
    assert multiset(all) == multiset(es) + multiset{e};
    forall f | f in es ensures f in all && multiset(es)[f] == 1 { }
    forall i, j | 0 <= i < j < |es| ensures Unseen(es[i].view, es[j].op) {
      assert all[i] == es[i] && all[j] == es[j];
    }
  }

  /** A replayed history is ordered by keys, and every element and deleter is some event's. */
  lemma {:induction false} ReplayHolds(es: seq<Event>, mode: Mode) returns (key: Keys)
    requires Honest(es, mode) && Causally(es) && Replay(es, mode).Some?
    ensures Ordered(Replay(es, mode).value.nodes, key)
    ensures AllAccounted(Replay(es, mode).value.nodes, es)
    decreases |es|
  {
    hide Honest, Causally, Ordered, Accounted, Executed, Then, Mergeable;
    if es == [] {
      key := map[];
      EmptyOrdered();
    } else {
      var m := |es| - 1;
      var e := es[m];
      assert es == es[..m] + [e];
      HonestPrefix(es[..m], e, mode);
      ReplayDefined(es, mode);
      var k := ReplayHolds(es[..m], mode);
      NextMergeable(Replay(es[..m], mode).value, es[..m], e, mode);
      key := StepHolds(Replay(es[..m], mode).value, k, es[..m], e, mode);
    }
  }

  lemma {:induction false} EmptyOrdered()
    ensures Ordered([], map[])
  {
  }

  lemma {:induction false} ReplayDefined(es: seq<Event>, mode: Mode)
    requires es != [] && Replay(es, mode).Some?
    ensures Replay(es[..|es| - 1], mode).Some?
    ensures Replay(es, mode) ==
      Apply(Replay(es[..|es| - 1], mode).value, es[|es| - 1].op, es[|es| - 1].view, mode.byPosition, mode.strict)
  {
  }

  lemma {:induction false} StepHolds(s: SeqVal, k: Keys, es: seq<Event>, e: Event, mode: Mode) returns (key: Keys)
    requires Ordered(s.nodes, k) && AllAccounted(s.nodes, es) && Mergeable(s, e.op, e.view)
    requires Apply(s, e.op, e.view, mode.byPosition, mode.strict).Some?
    ensures var t := Apply(s, e.op, e.view, mode.byPosition, mode.strict).value;
      Ordered(t.nodes, key) && AllAccounted(t.nodes, es + [e])
  {
    hide Ordered, Accounted, Executed, Apply, EffectOf, RunOf, MarksFit, KeysAfter, Distinct;
    OrderedParts2(s.nodes, k);
    ApplyExecutes(s, k, e.op, e.view, mode.byPosition, mode.strict);
    EffectFits(s, e.op, e.view, mode.byPosition, mode.strict);
    PlaceSeen(s, e.op, e.view, mode.byPosition, mode.strict);
    var eff := EffectOf(s, e.op, e.view, mode.byPosition, mode.strict).value;
    var t := Apply(s, e.op, e.view, mode.byPosition, mode.strict).value;
    ExecutedAccounted(s.nodes, k, eff, e, t.nodes, es);
    ExecutedOrdered(s.nodes, k, eff, e.op.id, t.nodes);
    key := KeysAfter(s.nodes, k, eff.place, e.op.id);
  }

  lemma {:induction false} OrderedParts2(nodes: seq<Node>, key: Keys)
    requires Ordered(nodes, key)
    ensures Distinct(nodes)
  {
  }

  // ----- swapping neighbours -----

  /** Two events neither of which has the other's atoms are by different authors. */
  lemma {:induction false} ApartPeers(a: Event, b: Event)
    requires WellFormed(a.op, a.view) && WellFormed(b.op, b.view) && Disjoint(a, b)
    requires Unseen(a.view, b.op) && Unseen(b.view, a.op)
    ensures a.op.id.peer != b.op.id.peer
  {
    if a.op.id.peer == b.op.id.peer {
      OwnSeen(a, b, a.op.id);
      assert InAtoms(a.op.id, a.op.id, a.op.len);
    }
  }

  lemma {:induction false} SwapAtEnd(es: seq<Event>, a: Event, b: Event, mode: Mode)
    requires Honest(es + [a, b], mode) && Causally(es + [a, b]) && Unseen(b.view, a.op)
    ensures Replay(es + [a, b], mode) == Replay(es + [b, a], mode)
  {
    hide Honest, Causally, Ordered, Unseen, Mergeable, AllAccounted, ReadsSeen, Apply, HonestPair, WellFormed;
    SplitPair(es, a, b, mode);
    assert es + [a, b] == (es + [a]) + [b] && es + [b, a] == (es + [b]) + [a];
    ReplayStep(es + [a], b, mode);
    ReplayStep(es, a, mode);
    ReplayStep(es + [b], a, mode);
    ReplayStep(es, b, mode);
    HonestPrefix(es, a, mode);
    if Replay(es, mode).Some? {
      var s := Replay(es, mode).value;
      var key := ReplayHolds(es, mode);
      NextMergeable(s, es, a, mode);
      NextMergeable(s, es, b, mode);
      PairConcurrent(a, b);
      Swap(s, key, a.op, a.view, b.op, b.view, mode.byPosition, mode.strict);
    }
  }

  lemma {:induction false} PairConcurrent(a: Event, b: Event)
    requires HonestPair(a, b) && HonestPair(b, a) && Unseen(a.view, b.op) && Unseen(b.view, a.op)
    requires WellFormed(a.op, a.view) && WellFormed(b.op, b.view)
    ensures Concurrent(a.op, a.view, b.op, b.view)
  {
    hide Unseen, Transitive, Disjoint, NamesNot;
    ApartPeers(a, b);
  }

  lemma {:induction false} HonestSubset(es: seq<Event>, ys: seq<Event>, mode: Mode)
    requires Honest(es, mode) && multiset(ys) <= multiset(es)
    ensures Honest(ys, mode)
  {
    hide Unseen, HonestPair, WellFormed, ReadsSeen;
    forall e | e in ys ensures e in es && multiset(ys)[e] == 1 {
      assert e in multiset(ys);
      assert e in multiset(es);
    }
  }

  lemma {:induction false} SplitPair(es: seq<Event>, a: Event, b: Event, mode: Mode)
    requires Honest(es + [a, b], mode) && Causally(es + [a, b])
    ensures Honest(es + [a], mode) && Causally(es + [a])
    ensures Honest(es + [b], mode) && Causally(es + [b])
    ensures HonestPair(a, b) && HonestPair(b, a) && Unseen(a.view, b.op)
    ensures WellFormed(a.op, a.view) && WellFormed(b.op, b.view)
    ensures ReadsSeen(a.op, a.view, mode.byPosition, mode.strict) && ReadsSeen(b.op, b.view, mode.byPosition, mode.strict)
  {
    hide Unseen, HonestPair, WellFormed, ReadsSeen, Honest;
    var all, other := es + [a, b], es + [b];
    assert all == (es + [a]) + [b];
    HonestPrefix(es + [a], b, mode);
    PairFacts(es, a, b, mode);
    assert multiset(other) <= multiset(all);
    HonestSubset(all, other, mode);
    forall i, j | 0 <= i < j < |other| ensures Unseen(other[i].view, other[j].op) {
      assert other[i] == all[i] && other[j] == all[if j < |es| then j else j + 1];
    }
  }

  lemma {:induction false} PairFacts(es: seq<Event>, a: Event, b: Event, mode: Mode)
    requires Honest(es + [a, b], mode) && Causally(es + [a, b])
    ensures HonestPair(a, b) && HonestPair(b, a) && Unseen(a.view, b.op)
    ensures WellFormed(a.op, a.view) && WellFormed(b.op, b.view)
    ensures ReadsSeen(a.op, a.view, mode.byPosition, mode.strict) && ReadsSeen(b.op, b.view, mode.byPosition, mode.strict)
  {
    hide Unseen, HonestPair, WellFormed, ReadsSeen;
    var all := es + [a, b];
    assert all[|es|] == a && all[|es| + 1] == b && a in all && b in all;
    assert multiset(all) == multiset(es) + multiset{a, b};
  }

  lemma {:induction false} ReplayRest(a: seq<Event>, b: seq<Event>, rest: seq<Event>, mode: Mode)
    requires Replay(a, mode) == Replay(b, mode)
    ensures Replay(a + rest, mode) == Replay(b + rest, mode)
    decreases |rest|
  {
    hide Replay, Then;
    if rest == [] {
      assert a + rest == a && b + rest == b;
    } else {
      var e, c, d := rest[0], a + [rest[0]], b + [rest[0]];
      ReplayStep(a, e, mode);
      ReplayStep(b, e, mode);
      ReplayRest(c, d, rest[1..], mode);
      assert a + rest == c + rest[1..] && b + rest == d + rest[1..];
    }
  }

  lemma {:induction false} HonestFirst(es: seq<Event>, k: nat, mode: Mode)
    requires Honest(es, mode) && Causally(es) && k <= |es|
    ensures Honest(es[..k], mode) && Causally(es[..k])
    decreases |es|
  {
    if k < |es| {
      var m := |es| - 1;
      assert es == es[..m] + [es[m]] && es[..m][..k] == es[..k];
      HonestPrefix(es[..m], es[m], mode);
      HonestFirst(es[..m], k, mode);
    } else {
      assert es[..k] == es;
    }
  }

  lemma {:induction false} AroundPair<T>(s: seq<T>, k: nat)
    requires k + 1 < |s|
    ensures s == (s[..k] + [s[k], s[k + 1]]) + s[k + 2..]
    ensures s[..k + 2] == s[..k] + [s[k], s[k + 1]]
  {
  }

  lemma {:induction false} SwappedLast<T>(s: seq<T>, k: nat)
    requires k + 1 < |s|
    ensures var t := (s[..k] + [s[k + 1], s[k]]) + s[k + 2..];
      t[..k + 1] + t[k + 2..] + [t[k + 1]] == s[..k] + s[k + 1..] + [s[k]]
  {
    var t := (s[..k] + [s[k + 1], s[k]]) + s[k + 2..];
    assert t[..k + 1] == s[..k] + [s[k + 1]] && t[k + 2..] == s[k + 2..] && t[k + 1] == s[k];
    assert s[k + 1..] == [s[k + 1]] + s[k + 2..];
  }

  /** Nobody else has seen the k-th event. */
  ghost predicate NobodySaw(es: seq<Event>, k: nat)
    requires k < |es|
  {
    forall i :: 0 <= i < |es| && i != k ==> Unseen(es[i].view, es[k].op)
  }

  /** An event nobody has seen can be merged last. */
  lemma {:induction false} MoveLast(es: seq<Event>, k: nat, mode: Mode)
    requires Honest(es, mode) && Causally(es) && k < |es| && NobodySaw(es, k)
    ensures Replay(es, mode) == Replay(es[..k] + es[k + 1..] + [es[k]], mode)
    decreases |es| - k
  {
    hide Honest, Causally, Unseen, Replay, NobodySaw;
    if k + 1 == |es| {
      assert es == es[..k] + es[k + 1..] + [es[k]];
    } else {
      var pre, rest := es[..k], es[k + 2..];
      var ys := (pre + [es[k + 1], es[k]]) + rest;
      MoveStep(es, k, mode);
      assert ys[k + 1] == es[k];
      MoveLast(ys, k + 1, mode);
      SwappedLast(es, k);
    }
  }

  lemma {:induction false} MoveStep(es: seq<Event>, k: nat, mode: Mode)
    requires Honest(es, mode) && Causally(es) && k + 1 < |es| && NobodySaw(es, k)
    ensures var ys := (es[..k] + [es[k + 1], es[k]]) + es[k + 2..];
      Replay(es, mode) == Replay(ys, mode) && Honest(ys, mode) && Causally(ys) && NobodySaw(ys, k + 1)
  {
    hide Honest, Causally, Unseen, Replay;
    var a, b, pre, rest := es[k], es[k + 1], es[..k], es[k + 2..];
    var ys := (pre + [b, a]) + rest;
    AroundPair(es, k);
    HonestFirst(es, k + 2, mode);
    SwapAtEnd(pre, a, b, mode);
    ReplayRest(pre + [a, b], pre + [b, a], rest, mode);
    SwapKeeps(pre, a, b, rest, mode);
    forall i | 0 <= i < |ys| && i != k + 1 ensures Unseen(ys[i].view, ys[k + 1].op) {
      assert ys[i] == es[if i == k then k + 1 else i];
    }
  }

  lemma {:induction false} SwapKeeps(pre: seq<Event>, a: Event, b: Event, rest: seq<Event>, mode: Mode)
    requires Honest(pre + [a, b] + rest, mode) && Causally(pre + [a, b] + rest) && Unseen(b.view, a.op)
    ensures Honest(pre + [b, a] + rest, mode) && Causally(pre + [b, a] + rest)
  {
    hide Unseen, HonestPair, WellFormed, ReadsSeen;
    var xs, ys := pre + [a, b] + rest, pre + [b, a] + rest;
    var k := |pre|;
    assert multiset(xs) == multiset(ys);
    SameMembers(xs, ys);
    forall i, j | 0 <= i < j < |ys| ensures Unseen(ys[i].view, ys[j].op) {
      var p := if i == k then k + 1 else if i == k + 1 then k else i;
      var q := if j == k then k + 1 else if j == k + 1 then k else j;
      assert ys[i] == xs[p] && ys[j] == xs[q];
    }
  }

  lemma {:induction false} SameMembers(xs: seq<Event>, ys: seq<Event>)
    requires multiset(xs) == multiset(ys)
    ensures forall e :: e in xs <==> e in ys
  {
    forall e ensures e in xs <==> e in ys {
      assert e in xs <==> e in multiset(xs);
      assert e in ys <==> e in multiset(ys);
    }
  }

  lemma {:induction false} MultisetWithout<T>(s: seq<T>, k: nat)
    requires k < |s|
    ensures multiset(s) == multiset(s[..k] + s[k + 1..]) + multiset{s[k]}
  {
    assert s == s[..k] + [s[k]] + s[k + 1..];
  }

  lemma {:induction false} WithoutOne(es: seq<Event>, k: nat, mode: Mode)
    requires Honest(es, mode) && Causally(es) && k < |es|
    ensures Honest(es[..k] + es[k + 1..], mode) && Causally(es[..k] + es[k + 1..])
    ensures multiset(es) == multiset(es[..k] + es[k + 1..]) + multiset{es[k]}
  {
    hide Unseen, HonestPair, WellFormed, ReadsSeen, Honest;
    var ys := es[..k] + es[k + 1..];
    MultisetWithout(es, k);
    HonestSubset(es, ys, mode);
    forall i, j | 0 <= i < j < |ys| ensures Unseen(ys[i].view, ys[j].op) {
      assert ys[i] == es[if i < k then i else i + 1] && ys[j] == es[if j < k then j else j + 1];
    }
  }

  /** Merging the same ops in any two orders that respect causality gives the same sequence:
      the same elements in the same order, with the same origins, deleters, element positions
      and values. A strict merge refuses both or neither. */
  lemma {:induction false} Converge(xs: seq<Event>, ys: seq<Event>, mode: Mode)
    requires Honest(xs, mode) && Causally(xs) && Causally(ys) && multiset(xs) == multiset(ys)
    ensures Replay(xs, mode) == Replay(ys, mode)
    decreases |xs|
  {
    hide Unseen, Honest, Causally, Replay;
    SameMembers(xs, ys);
    assert |multiset(xs)| == |xs| && |multiset(ys)| == |ys|;
    if xs != [] {
      var m := |xs| - 1;
      var e := xs[m];
      assert e in ys;
      var k :| 0 <= k < |ys| && ys[k] == e;
      var rest := ys[..k] + ys[k + 1..];
      LastUnseen(xs, ys, k, mode);
      MoveLast(ys, k, mode);
      WithoutOne(ys, k, mode);
      assert xs == xs[..m] + [e];
      HonestPrefix(xs[..m], e, mode);
      assert multiset(xs) == multiset(xs[..m]) + multiset{e};
      MultisetCancel(xs[..m], rest, e);
      Converge(xs[..m], rest, mode);
      ReplayStep(xs[..m], e, mode);
      ReplayStep(rest, e, mode);
    }
  }

  lemma {:induction false} MultisetCancel(a: seq<Event>, b: seq<Event>, e: Event)
    requires multiset(a) + multiset{e} == multiset(b) + multiset{e}
    ensures multiset(a) == multiset(b)
  {
    forall x ensures multiset(a)[x] == multiset(b)[x] {
      assert (multiset(a) + multiset{e})[x] == (multiset(b) + multiset{e})[x];
    }
  }

  lemma {:induction false} LastUnseen(xs: seq<Event>, ys: seq<Event>, k: nat, mode: Mode)
    requires Honest(xs, mode) && Causally(xs) && multiset(xs) == multiset(ys)
    requires xs != [] && k < |ys| && ys[k] == xs[|xs| - 1]
    ensures NobodySaw(ys, k) && Honest(ys, mode)
  {
    hide Unseen, HonestPair, WellFormed, ReadsSeen;
    SameMembers(xs, ys);
    forall i | 0 <= i < |ys| && i != k ensures Unseen(ys[i].view, ys[k].op) {
      OnlyOnce(ys, i, k);
      assert ys[i] in xs;
      var j :| 0 <= j < |xs| && xs[j] == ys[i];
    }
  }

  lemma {:induction false} OnlyOnce(es: seq<Event>, i: nat, k: nat)
    requires i < |es| && k < |es| && i != k && multiset(es)[es[k]] == 1
    ensures es[i] != es[k]
  {
    MultisetWithout(es, k);
    var rest := es[..k] + es[k + 1..];
    assert rest[if i < k then i else i - 1] == es[i];
    assert es[i] in multiset(rest);
  }
}
