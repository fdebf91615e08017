/** Replaying a container's ops in one order: by lamport, then peer, then counter. */
module OpSort {

  datatype Stamp = Stamp(lamport: int, peer: nat, counter: int)

  predicate StampLess(a: Stamp, b: Stamp) {
    a.lamport < b.lamport || (a.lamport == b.lamport && (a.peer < b.peer || (a.peer == b.peer && a.counter < b.counter)))
  }

  predicate Sooner<T>(a: T, b: T, stamp: T -> Stamp) { StampLess(stamp(a), stamp(b)) }

  ghost predicate InOrder<T>(ops: seq<T>, stamp: T -> Stamp) {
    forall i, j :: 0 <= i < j < |ops| ==> Sooner(ops[i], ops[j], stamp)
  }

  /** No two ops share a lamport and peer. */
  ghost predicate Stamped<T>(ops: seq<T>, stamp: T -> Stamp) {
    forall i, j :: 0 <= i < j < |ops| ==> Sooner(ops[i], ops[j], stamp) || Sooner(ops[j], ops[i], stamp)
  }

  function PutOp<T>(ops: seq<T>, op: T, stamp: T -> Stamp): (r: seq<T>)
    ensures multiset(r) == multiset(ops + [op])
  {
    if ops == [] || Sooner(ops[|ops| - 1], op, stamp) then ops + [op]
    else
      var last := |ops| - 1;
      assert ops == ops[..last] + [ops[last]];
      PutOp(ops[..last], op, stamp) + [ops[last]]
  }

  /** The ops in (lamport, peer) order. */
  function SortedOps<T>(ops: seq<T>, stamp: T -> Stamp): (r: seq<T>)
    ensures multiset(r) == multiset(ops)
  {
    if ops == [] then []
    else
      assert ops == ops[..|ops| - 1] + [ops[|ops| - 1]];
      PutOp(SortedOps(ops[..|ops| - 1], stamp), ops[|ops| - 1], stamp)
  }

  lemma {:induction false} PutInOrder<T>(ops: seq<T>, op: T, stamp: T -> Stamp)
    requires InOrder(ops, stamp) && forall x :: x in ops ==> Sooner(x, op, stamp) || Sooner(op, x, stamp)
    ensures InOrder(PutOp(ops, op, stamp), stamp)
  {
    hide InOrder, Sooner;
    if ops == [] || Sooner(ops[|ops| - 1], op, stamp) {
      AllBefore(ops, op, stamp);
      OnePast(ops, op, stamp);
    } else {
      var last := |ops| - 1;
      DropLast(ops, stamp);
      PutInOrder(ops[..last], op, stamp);
      var r := PutOp(ops[..last], op, stamp);
      AllBefore(ops[..last], ops[last], stamp) by { LastBefore(ops, stamp); }
      forall i | 0 <= i < |r| ensures Sooner(r[i], ops[last], stamp) {
        assert r[i] in multiset(r);
        assert r[i] in ops[..last] || r[i] == op;
      }
      OnePast(r, ops[last], stamp);
    }
  }

  lemma {:induction false} LastBefore<T>(ops: seq<T>, stamp: T -> Stamp)
    requires InOrder(ops, stamp) && ops != []
    ensures |ops| > 1 ==> Sooner(ops[..|ops| - 1][|ops| - 2], ops[|ops| - 1], stamp)
  {
  }

  lemma {:induction false} AllBefore<T>(ops: seq<T>, op: T, stamp: T -> Stamp)
    requires InOrder(ops, stamp) && (ops != [] ==> Sooner(ops[|ops| - 1], op, stamp))
    ensures forall x :: x in ops ==> Sooner(x, op, stamp)
  {
    forall i | 0 <= i < |ops| ensures Sooner(ops[i], op, stamp) {
      if i < |ops| - 1 { assert Sooner(ops[i], ops[|ops| - 1], stamp); }
    }
  }

  lemma {:induction false} OnePast<T>(ops: seq<T>, op: T, stamp: T -> Stamp)
    requires InOrder(ops, stamp) && forall x :: x in ops ==> Sooner(x, op, stamp)
    ensures InOrder(ops + [op], stamp)
  {
  }

  lemma {:induction false} SortedInOrder<T>(ops: seq<T>, stamp: T -> Stamp)
    requires Stamped(ops, stamp)
    ensures InOrder(SortedOps(ops, stamp), stamp)
  {
    if ops != [] {
      var last := |ops| - 1;
      SortedInOrder(ops[..last], stamp);
      var r := SortedOps(ops[..last], stamp);
      forall x | x in r ensures Sooner(x, ops[last], stamp) || Sooner(ops[last], x, stamp) {
        assert x in multiset(r);
        assert x in ops[..last];
      }
      PutInOrder(r, ops[last], stamp);
    }
  }

  /** Two lists in order hold the same ops only if they are the same. */
  lemma {:induction false} OneOrder<T>(a: seq<T>, b: seq<T>, stamp: T -> Stamp)
    requires InOrder(a, stamp) && InOrder(b, stamp) && multiset(a) == multiset(b)
    ensures a == b
  {
    hide InOrder;
    SizeSame(a, b);
    if a != [] {
      LastSame(a, b, stamp);
      DropLast(a, stamp);
      DropLast(b, stamp);
      OneOrder(a[..|a| - 1], b[..|b| - 1], stamp);
      assert a == a[..|a| - 1] + [a[|a| - 1]] && b == b[..|b| - 1] + [b[|b| - 1]];
    }
  }

  lemma {:induction false} DropLast<T>(a: seq<T>, stamp: T -> Stamp)
    requires InOrder(a, stamp) && a != []
    ensures InOrder(a[..|a| - 1], stamp) && multiset(a[..|a| - 1]) == multiset(a) - multiset{a[|a| - 1]}
  {
    var p, x := a[..|a| - 1], a[|a| - 1];
    assert a == p + [x];
  }

  lemma {:induction false} SizeSame<X>(a: seq<X>, b: seq<X>)
    requires multiset(a) == multiset(b)
    ensures |a| == |b|
  {
    assert |multiset(a)| == |multiset(b)|;
  }

  lemma {:induction false} LastSame<T>(a: seq<T>, b: seq<T>, stamp: T -> Stamp)
    requires InOrder(a, stamp) && InOrder(b, stamp) && multiset(a) == multiset(b) && |a| == |b| > 0
    ensures a[|a| - 1] == b[|b| - 1]
  {
    NotLater(a, b, stamp);
    NotLater(b, a, stamp);
  }

  lemma {:induction false} NotLater<T>(a: seq<T>, b: seq<T>, stamp: T -> Stamp)
    requires InOrder(b, stamp) && multiset(a) == multiset(b) && |a| == |b| > 0
    ensures a[|a| - 1] == b[|b| - 1] || Sooner(a[|a| - 1], b[|b| - 1], stamp)
  {
    var m := |a| - 1;
    assert a[m] in multiset(b);
    var i :| 0 <= i <= m && b[i] == a[m];
  }

  /** An op later than all is replayed last. */
  lemma {:induction false} SortedLast<T>(ops: seq<T>, op: T, stamp: T -> Stamp)
    requires forall x :: x in ops ==> Sooner(x, op, stamp)
    ensures SortedOps(ops + [op], stamp) == SortedOps(ops, stamp) + [op]
  {
    assert (ops + [op])[..|ops|] == ops;
    var r := SortedOps(ops, stamp);
    if r != [] { assert r[|r| - 1] in multiset(r); }
  }
}
