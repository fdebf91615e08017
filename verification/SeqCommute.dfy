/** Two effects can be executed in either order. */
module SeqCommute {
  import opened Common
  import opened KeyOrder
  import opened SeqTypes
  import opened SeqOrder
  import opened SeqInsert
  import opened SeqReference
  import opened SeqFits
  import opened SeqEffect

  // ----- keys -----

  lemma {:induction false} WithRunGet(key: Keys, kx: Key, run: seq<Node>)
    requires Distinct(run)
    ensures WithRun(key, kx, run).Keys == key.Keys + Ids(run)
    ensures forall x :: x in key && x !in Ids(run) ==> WithRun(key, kx, run)[x] == key[x]
    decreases |run|
  {
    if run == [] {
      assert Ids(run) == {};
    } else {
      HeadIds(run);
      WithRunGet(key[run[0].id := kx], kx + [At(run[0].id.peer), End], run[1..]);
    }
  }

  lemma {:induction false} HeadIds(run: seq<Node>)
    requires run != [] && Distinct(run)
    ensures Ids(run) == {run[0].id} + Ids(run[1..]) && run[0].id !in Ids(run[1..]) && Distinct(run[1..])
  {
    forall x | x in Ids(run) ensures x in {run[0].id} + Ids(run[1..]) {
      var i :| 0 <= i < |run| && run[i].id == x;
      if i > 0 { assert run[1..][i - 1].id == x; }
    }
    forall x | x in Ids(run[1..]) ensures x in Ids(run) {
      var i :| 0 <= i < |run| - 1 && run[1..][i].id == x;
      assert run[i + 1].id == x;
    }
  }

  /** The keys of a run do not depend on what else has keys. */
  lemma {:induction false} WithRunOwn(a: Keys, b: Keys, kx: Key, run: seq<Node>)
    requires Distinct(run)
    ensures WithRun(a, kx, run).Keys == a.Keys + Ids(run)
    ensures WithRun(b, kx, run).Keys == b.Keys + Ids(run)
    ensures forall x :: x in Ids(run) ==> WithRun(a, kx, run)[x] == WithRun(b, kx, run)[x]
    decreases |run|
  {
    WithRunGet(a, kx, run);
    WithRunGet(b, kx, run);
    if run != [] {
      HeadIds(run);
      var k1 := kx + [At(run[0].id.peer), End];
      WithRunOwn(a[run[0].id := kx], b[run[0].id := kx], k1, run[1..]);
      WithRunGet(a[run[0].id := kx], k1, run[1..]);
      WithRunGet(b[run[0].id := kx], k1, run[1..]);
    }
  }

  lemma {:induction false} WithRunsCommute(key: Keys, ka: Key, ra: seq<Node>, kb: Key, rb: seq<Node>)
    requires Distinct(ra) && Distinct(rb) && Ids(ra) !! Ids(rb)
    ensures WithRun(WithRun(key, ka, ra), kb, rb) == WithRun(WithRun(key, kb, rb), ka, ra)
  {
    hide Ids, Distinct, WithRun;
    var a, b := WithRun(key, ka, ra), WithRun(key, kb, rb);
    WithRunGet(key, ka, ra);
    WithRunGet(key, kb, rb);
    WithRunGet(a, kb, rb);
    WithRunGet(b, ka, ra);
    WithRunOwn(a, key, kb, rb);
    WithRunOwn(b, key, ka, ra);
    var x, y := WithRun(a, kb, rb), WithRun(b, ka, ra);
    forall i | i in x ensures i in y && x[i] == y[i] { }
  }

  /** Keys built from origins a sequence holds are the same once an effect has been executed. */
  lemma {:induction false} ExecutedKeyFor(n: seq<Node>, key: Keys, e: Effect, id: Id, m: seq<Node>, l: Option<Id>, r: Option<Id>, peer: nat)
    requires Ordered(n, key) && Executed(n, key, e, id, m) && Present(n, l) && Present(n, r)
    ensures KeyFor(m, KeysAfter(n, key, e.place, id), l, r, peer) == KeyFor(n, key, l, r, peer)
  {
    hide Ordered, Target, KeyFor, WithRun, Distinct;
    OrderedParts(n, key);
    OrderedParts(m, KeysAfter(n, key, e.place, id));
    RunDistinct(e.place, id);
    KeysGrow(n, key, e, id, m);
    KeyForById(n, key, l, r, peer);
    KeyForById(m, KeysAfter(n, key, e.place, id), l, r, peer);
  }

  lemma {:induction false} KeysGrow(n: seq<Node>, key: Keys, e: Effect, id: Id, m: seq<Node>)
    requires Ordered(n, key) && Executed(n, key, e, id, m)
    ensures forall x :: x in key ==> x in KeysAfter(n, key, e.place, id) && KeysAfter(n, key, e.place, id)[x] == key[x]
  {
    hide Ordered, Target, KeyFor, WithRun, Distinct;
    OrderedParts(n, key);
    if e.place.Place? {
      var run := RunOf(e.place, id);
      RunDistinct(e.place, id);
      RunApart(n, run);
      WithRunGet(key, KeyFor(n, key, e.place.left, e.place.right, id.peer), run);
    }
  }

  lemma {:induction false} RunApart(n: seq<Node>, run: seq<Node>)
    requires forall k :: 0 <= k < |run| ==> run[k].id !in Ids(n)
    ensures Ids(n) !! Ids(run)
  {
  }

  lemma {:induction false} RunDistinct(place: Place, id: Id)
    ensures Distinct(RunOf(place, id))
  {
  }

  lemma {:induction false} KeyForById(n: seq<Node>, key: Keys, l: Option<Id>, r: Option<Id>, peer: nat)
    requires Present(n, l) && Present(n, r) && key.Keys == Ids(n)
    ensures KeyFor(n, key, l, r, peer) ==
      (if r.Some? && NodeAt(n, r.value).left == l then Stem(key[r.value]) else Base(key, l)) + [At(peer), End]
  {
  }

  // ----- a sequence is determined by its elements and their keys -----

  ghost predicate Within(a: seq<Node>, b: seq<Node>) {
    forall n :: n in a ==> n in b
  }

  lemma {:induction false} OrderUnique(a: seq<Node>, b: seq<Node>, key: Keys)
    requires Sorted(a, key) && Sorted(b, key) && Within(a, b) && Within(b, a)
    ensures a == b
    decreases |a|
  {
    if a != [] && b != [] {
      var x, y := |a| - 1, |b| - 1;
      LastSame(a, b, key);
      DropLast(a, b, key);
      DropLast(b, a, key);
      OrderUnique(a[..x], b[..y], key);
      assert a == a[..x] + [a[x]] && b == b[..y] + [b[y]];
    } else if a != [] {
      EmptyHolds(a[0], b, a);
    } else if b != [] {
      EmptyHolds(b[0], a, b);
    }
  }

  lemma {:induction false} EmptyHolds(n: Node, a: seq<Node>, b: seq<Node>)
    requires n in b && Within(b, a)
    ensures a != []
  {
  }

  lemma {:induction false} LastSame(a: seq<Node>, b: seq<Node>, key: Keys)
    requires Sorted(a, key) && Sorted(b, key) && a != [] && b != [] && Within(a, b) && Within(b, a)
    ensures a[|a| - 1] == b[|b| - 1]
  {
    var x, y := |a| - 1, |b| - 1;
    assert a[x] in b && b[y] in a;
    var i :| 0 <= i < |b| && b[i] == a[x];
    var j :| 0 <= j < |a| && a[j] == b[y];
    if i < y && j < x {
      assert Less(K(b, key, i), K(b, key, y));
      assert Less(K(a, key, j), K(a, key, x));
      LessAsym(K(b, key, i), K(b, key, y));
    }
  }

  lemma {:induction false} DropLast(a: seq<Node>, b: seq<Node>, key: Keys)
    requires Sorted(a, key) && a != [] && b != [] && a[|a| - 1] == b[|b| - 1] && Within(a, b)
    ensures Within(a[..|a| - 1], b[..|b| - 1]) && Sorted(a[..|a| - 1], key)
  {
    var x, y := |a| - 1, |b| - 1;
    forall n | n in a[..x] ensures n in b[..y] {
      var i :| 0 <= i < x && a[i] == n;
      assert n in a;
      var j :| 0 <= j < |b| && b[j] == a[i];
      assert Less(K(a, key, i), K(a, key, x));
      if j == y { LessIrreflexive(K(a, key, i)); }
      assert b[..y][j] == n;
    }
    forall i, j | 0 <= i < j < x ensures Less(K(a[..x], key, i), K(a[..x], key, j)) {
      assert Less(K(a, key, i), K(a, key, j));
    }
  }

  lemma {:induction false} SameElements(a: seq<Node>, b: seq<Node>)
    requires Distinct(a) && Distinct(b) && Ids(a) == Ids(b)
    requires forall x :: x in Ids(a) ==> NodeAt(a, x) == NodeAt(b, x)
    ensures Within(a, b)
  {
    forall n | n in a ensures n in b {
      var i :| 0 <= i < |a| && a[i] == n;
      IndexOfIs(a, i);
      assert NodeAt(a, n.id) == NodeAt(b, n.id);
    }
  }

  lemma {:induction false} Determined(a: seq<Node>, b: seq<Node>, key: Keys)
    requires Ordered(a, key) && Ordered(b, key) && Ids(a) == Ids(b)
    requires forall x :: x in Ids(a) ==> NodeAt(a, x) == NodeAt(b, x)
    ensures a == b
  {
    hide Ordered, Distinct, Sorted, BetweenOrigins, KeysMatch;
    OrderedParts(a, key);
    OrderedParts(b, key);
    SameElements(a, b);
    SameElements(b, a);
    OrderUnique(a, b, key);
  }

  // ----- two effects -----

  /** No element of the run is one the marks take. */
  ghost predicate Misses(marks: Marks, id: Id, run: seq<Node>) {
    forall k :: 0 <= k < |run| ==> Target(marks, id, run[k].id).None?
  }

  ghost predicate HoldsRun(m: seq<Node>, run: seq<Node>) {
    forall k :: 0 <= k < |run| ==> run[k].id in Ids(m) && NodeAt(m, run[k].id) == run[k]
  }

  /** Elements either order ends with. */
  ghost predicate BothExecuted(n: seq<Node>, ea: Effect, a: Id, eb: Effect, b: Id, m: seq<Node>) {
    && Ids(m) == Ids(n) + Ids(RunOf(ea.place, a)) + Ids(RunOf(eb.place, b))
    && (forall x :: x in Ids(n) ==>
         NodeAt(m, x) == MarkNode(MarkNode(NodeAt(n, x), Target(ea.marks, a, x)), Target(eb.marks, b, x)))
    && HoldsRun(m, RunOf(ea.place, a)) && HoldsRun(m, RunOf(eb.place, b))
  }

  lemma {:induction false} ExecuteTwice(n: seq<Node>, key: Keys, ea: Effect, a: Id, m: seq<Node>, eb: Effect, b: Id, x: seq<Node>)
    requires Executed(n, key, ea, a, m) && Executed(m, KeysAfter(n, key, ea.place, a), eb, b, x)
    requires Misses(eb.marks, b, RunOf(ea.place, a))
    ensures BothExecuted(n, ea, a, eb, b, x)
  {
    hide Ordered, Target, Ids, RunOf, KeysAfter;
    var ra, rb := RunOf(ea.place, a), RunOf(eb.place, b);
    forall k | 0 <= k < |ra| ensures ra[k].id in Ids(x) && NodeAt(x, ra[k].id) == ra[k] {
      RunHas(ra, k);
    }
    forall k | 0 <= k < |rb| ensures rb[k].id in Ids(x) { RunHas(rb, k); }
  }

  lemma {:induction false} RunHas(run: seq<Node>, k: nat)
    requires k < |run|
    ensures run[k].id in Ids(run)
  {
  }

  lemma {:induction false} BothSame(n: seq<Node>, ea: Effect, a: Id, eb: Effect, b: Id, x: seq<Node>, y: seq<Node>)
    requires BothExecuted(n, ea, a, eb, b, x) && BothExecuted(n, eb, b, ea, a, y)
    ensures Ids(x) == Ids(y) && forall i :: i in Ids(x) ==> NodeAt(x, i) == NodeAt(y, i)
  {
    hide Target, RunOf, NodeAt;
    var ra, rb := RunOf(ea.place, a), RunOf(eb.place, b);
    assert Ids(x) == Ids(y);
    forall i | i in Ids(x) ensures NodeAt(x, i) == NodeAt(y, i) {
      if i in Ids(n) {
        MarksCommute(NodeAt(n, i), Target(ea.marks, a, i), Target(eb.marks, b, i));
      } else if i in Ids(ra) {
        var k :| 0 <= k < |ra| && ra[k].id == i;
      } else {
        var k :| 0 <= k < |rb| && rb[k].id == i;
      }
    }
  }

  lemma {:induction false} MarksCommute(n: Node, s: Option<Id>, t: Option<Id>)
    ensures MarkNode(MarkNode(n, s), t) == MarkNode(MarkNode(n, t), s)
  {
    if s.Some? && t.Some? {
      assert n.deleters + {s.value} + {t.value} == n.deleters + {t.value} + {s.value};
    }
  }

  lemma {:induction false} KeysCommute(n: seq<Node>, key: Keys, ea: Effect, a: Id, m1: seq<Node>, eb: Effect, b: Id, m2: seq<Node>)
    requires Ordered(n, key) && Executed(n, key, ea, a, m1) && Executed(n, key, eb, b, m2)
    requires Ids(RunOf(ea.place, a)) !! Ids(RunOf(eb.place, b))
    ensures KeysAfter(m1, KeysAfter(n, key, ea.place, a), eb.place, b) == KeysAfter(m2, KeysAfter(n, key, eb.place, b), ea.place, a)
  {
    hide Ordered, Target, KeyFor, WithRun, Distinct, Ids, Present;
    RunDistinct(ea.place, a);
    RunDistinct(eb.place, b);
    if ea.place.Place? && eb.place.Place? {
      ExecutedKeyFor(n, key, ea, a, m1, eb.place.left, eb.place.right, b.peer);
      ExecutedKeyFor(n, key, eb, b, m2, ea.place.left, ea.place.right, a.peer);
      WithRunsCommute(key, KeyFor(n, key, ea.place.left, ea.place.right, a.peer), RunOf(ea.place, a),
                      KeyFor(n, key, eb.place.left, eb.place.right, b.peer), RunOf(eb.place, b));
    } else if ea.place.Place? {
      ExecutedKeyFor(n, key, eb, b, m2, ea.place.left, ea.place.right, a.peer);
    } else if eb.place.Place? {
      ExecutedKeyFor(n, key, ea, a, m1, eb.place.left, eb.place.right, b.peer);
    }
  }

  /** Executing two effects, neither of which marks what the other puts in, gives the same
      sequence in either order. */
  lemma {:induction false} EffectsCommute(n: seq<Node>, key: Keys, ea: Effect, a: Id, m1: seq<Node>, x: seq<Node>,
                       eb: Effect, b: Id, m2: seq<Node>, y: seq<Node>)
    requires Ordered(n, key)
    requires Executed(n, key, ea, a, m1) && Executed(m1, KeysAfter(n, key, ea.place, a), eb, b, x)
    requires Executed(n, key, eb, b, m2) && Executed(m2, KeysAfter(n, key, eb.place, b), ea, a, y)
    requires Misses(eb.marks, b, RunOf(ea.place, a)) && Misses(ea.marks, a, RunOf(eb.place, b))
    ensures x == y
    ensures Ordered(x, KeysAfter(m1, KeysAfter(n, key, ea.place, a), eb.place, b))
  {
    hide Ordered, Target, Ids, RunOf, KeysAfter, Misses, NodeAt;
    RunsApart(n, key, ea, a, m1, eb, b, x);
    ExecuteTwice(n, key, ea, a, m1, eb, b, x);
    ExecuteTwice(n, key, eb, b, m2, ea, a, y);
    BothSame(n, ea, a, eb, b, x, y);
    KeysCommute(n, key, ea, a, m1, eb, b, m2);
    Determined(x, y, KeysAfter(m1, KeysAfter(n, key, ea.place, a), eb.place, b));
  }

  lemma {:induction false} RunsApart(n: seq<Node>, key: Keys, ea: Effect, a: Id, m1: seq<Node>, eb: Effect, b: Id, x: seq<Node>)
    requires Executed(n, key, ea, a, m1) && Executed(m1, KeysAfter(n, key, ea.place, a), eb, b, x)
    ensures Ids(RunOf(ea.place, a)) !! Ids(RunOf(eb.place, b))
  {
    hide Ordered, Target, RunOf, KeysAfter, NodeAt;
    RunApart(m1, RunOf(eb.place, b));
  }
}
