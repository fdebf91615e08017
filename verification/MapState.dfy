/** A Map's winning write for each key: kept by local writes, found by replay, always the latest. */
module MapStates {
  import opened Common
  import opened OpSort

  /** A write to a key; None deletes it. */
  datatype MapOp = MapOp(id: Id, lamport: int, key: Value, value: Option<Value>)

  function StampOf(op: MapOp): Stamp { Stamp(op.lamport, op.id.peer, op.id.counter) }

  /** The write of its key with the greatest lamport, of those the one with the greatest peer, of those the one with the
      greatest counter. */
  ghost predicate Wins(ops: seq<MapOp>, op: MapOp) {
    && op in ops
    && forall x :: x in ops && x.key == op.key && x != op ==>
         x.lamport < op.lamport
         || (x.lamport == op.lamport && (x.id.peer < op.id.peer || (x.id.peer == op.id.peer && x.id.counter < op.id.counter)))
  }

  /** The map holds each written key's winning write, deletions included. */
  ghost predicate Decided(ops: seq<MapOp>, m: map<Value, MapOp>) {
    && (forall x :: x in ops ==> x.key in m)
    && (forall k :: k in m ==> m[k].key == k && Wins(ops, m[k]))
  }

  /** Two lists of the same writes, in whatever order, have the same winners. */
  lemma {:induction false} SameWinners(a: seq<MapOp>, b: seq<MapOp>, m: map<Value, MapOp>, n: map<Value, MapOp>)
    requires Decided(a, m) && Decided(b, n) && multiset(a) == multiset(b)
    ensures m == n
  {
    forall x ensures x in a <==> x in b { assert x in a <==> x in multiset(a); }
    forall k ensures k in m <==> k in n
      ensures k in m && k in n ==> m[k] == n[k]
    {
      if k in m { assert m[k] in b; }
      if k in n { assert n[k] in a; }
      if k in m && k in n { OneWinner(a, b, m[k], n[k]); }
    }
  }

  lemma {:induction false} OneWinner(a: seq<MapOp>, b: seq<MapOp>, x: MapOp, y: MapOp)
    requires Wins(a, x) && Wins(b, y) && x.key == y.key && x in b && y in a
    ensures x == y
  {
  }

  /** A write later than all the others wins its key and leaves the rest. */
  lemma {:induction false} LaterWins(ops: seq<MapOp>, m: map<Value, MapOp>, op: MapOp)
    requires Decided(ops, m) && forall x :: x in ops ==> Sooner(x, op, StampOf)
    ensures Decided(ops + [op], m[op.key := op])
  {
    var more, now := ops + [op], m[op.key := op];
    forall k | k in now ensures now[k].key == k && Wins(more, now[k]) {
      if k != op.key { assert Wins(ops, m[k]); }
    }
  }

  lemma {:induction false} PrefixLater(ops: seq<MapOp>, i: nat)
    requires InOrder(ops, StampOf) && i < |ops|
    ensures ops[..i + 1] == ops[..i] + [ops[i]] && forall x :: x in ops[..i] ==> Sooner(x, ops[i], StampOf)
  {
  }

  lemma {:induction false} Reordered(a: seq<MapOp>, b: seq<MapOp>, m: map<Value, MapOp>)
    requires Decided(a, m) && multiset(a) == multiset(b)
    ensures Decided(b, m)
  {
    forall x ensures x in a <==> x in b { assert x in a <==> x in multiset(a); }
    forall k | k in m ensures m[k].key == k && Wins(b, m[k]) { assert Wins(a, m[k]); }
  }

  class DocMap {
    var ops: seq<MapOp>
    var winners: Option<map<Value, MapOp>>

    ghost predicate Valid()
      reads this
    {
      Stamped(ops, StampOf) && (winners.Some? ==> Decided(ops, winners.value))
    }

    /** As built from the whole history: the ops, and no winners worked out yet. */
    constructor (ops: seq<MapOp>)
      requires Stamped(ops, StampOf)
      ensures Valid() && this.ops == ops
    {
      this.ops, winners := ops, None;
    }

    /** A local write, later than all the others. */
    method ApplyLocal(op: MapOp)
      requires Valid() && forall x :: x in ops ==> Sooner(x, op, StampOf)
      modifies this
      ensures Valid() && ops == old(ops) + [op]
    {
      if winners.Some? {
        LaterWins(ops, winners.value, op);
        winners := Some(winners.value[op.key := op]);
      }
      ops := ops + [op];
    }

    /** The winning write of a key, unless none wins it or the winner deletes. */
    method Entry(key: Value) returns (r: Option<MapOp>)
      requires Valid()
      modifies this`winners
      ensures Valid()
      ensures r.Some? ==> r.value in ops && r.value.key == key && r.value.value.Some?
      ensures r.Some? ==> forall x :: x in ops && x.key == key && x != r.value ==>
        x.lamport < r.value.lamport
        || (x.lamport == r.value.lamport
            && (x.id.peer < r.value.id.peer || (x.id.peer == r.value.id.peer && x.id.counter < r.value.id.counter)))
      ensures r.None? ==> (forall x :: x in ops ==> x.key != key) || exists x :: Wins(ops, x) && x.key == key && x.value.None?
    {
      hide Stamped;
      if winners.None? {
        var m := Winners(ops);
        winners := Some(m);
      }
      var m := winners.value;
      if key !in m { return None; }
      OnlyOne(ops, m[key]);
      if m[key].value.None? { return None; }
      return Some(m[key]);
    }
  }

  lemma {:induction false} OnlyOne(ops: seq<MapOp>, x: MapOp)
    requires Wins(ops, x)
    ensures forall y :: Wins(ops, y) && y.key == x.key ==> y == x
  {
    forall y | Wins(ops, y) && y.key == x.key ensures y == x { OneWinner(ops, ops, y, x); }
  }

  /** Replaying the writes in order, the last to each key stays. */
  method Winners(ops: seq<MapOp>) returns (m: map<Value, MapOp>)
    requires Stamped(ops, StampOf)
    ensures Decided(ops, m)
  {
    hide Stamped, InOrder, SortedOps, Decided;
    var sorted := SortedOps(ops, StampOf);
    SortedInOrder(ops, StampOf);
    m := map[];
    NoneDecided();
    for i := 0 to |sorted|
      invariant Decided(sorted[..i], m)
    {
      PrefixLater(sorted, i);
      LaterWins(sorted[..i], m, sorted[i]);
      m := m[sorted[i].key := sorted[i]];
    }
    assert sorted[..|sorted|] == sorted;
    Reordered(sorted, ops, m);
  }

  lemma {:induction false} NoneDecided()
    ensures Decided([], map[])
  {
  }

  /** The same replay as a document's value is built: a deletion takes its key out. */
  method Shape(ops: seq<MapOp>) returns (win: map<Value, Value>)
    requires Stamped(ops, StampOf)
    ensures forall x :: Wins(ops, x) ==> (x.key in win <==> x.value.Some?) && (x.value.Some? ==> win[x.key] == x.value.value)
    ensures forall k :: k in win ==> exists x :: Wins(ops, x) && x.key == k
  {
    hide Stamped, InOrder, SortedOps, Decided;
    var sorted := SortedOps(ops, StampOf);
    SortedInOrder(ops, StampOf);
    win := map[];
    ghost var m: map<Value, MapOp> := map[];
    NoneDecided();
    for i := 0 to |sorted|
      invariant Decided(sorted[..i], m) && Leaves(m, win)
    {
      PrefixLater(sorted, i);
      LaterWins(sorted[..i], m, sorted[i]);
      var op := sorted[i];
      m := m[op.key := op];
      win := if op.value.None? then win - {op.key} else win[op.key := op.value.value];
    }
    assert sorted[..|sorted|] == sorted;
    Reordered(sorted, ops, m);
    ShapeIs(ops, m, win);
  }

  /** The keys not deleted, with their values. */
  ghost predicate Leaves(m: map<Value, MapOp>, win: map<Value, Value>) {
    && (forall k :: k in win <==> k in m && m[k].value.Some?)
    && (forall k :: k in win ==> win[k] == m[k].value.value)
  }

  lemma {:induction false} ShapeIs(ops: seq<MapOp>, m: map<Value, MapOp>, win: map<Value, Value>)
    requires Decided(ops, m) && Leaves(m, win)
    ensures forall x :: Wins(ops, x) ==> (x.key in win <==> x.value.Some?) && (x.value.Some? ==> win[x.key] == x.value.value)
    ensures forall k :: k in win ==> exists x :: Wins(ops, x) && x.key == k
  {
    forall x | Wins(ops, x) ensures (x.key in win <==> x.value.Some?) && (x.value.Some? ==> win[x.key] == x.value.value) {
      OneWinner(ops, ops, x, m[x.key]);
    }
    forall k | k in win ensures exists x :: Wins(ops, x) && x.key == k { assert Wins(ops, m[k]); }
  }
}
