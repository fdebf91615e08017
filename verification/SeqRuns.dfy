/** Splitting the fresh ops of changes into contiguous runs and putting the runs in order: the
    order respects causality. */
module SeqRuns {
  import opened Common
  import opened SeqTypes
  import opened SeqConverge
  import opened SeqHistory
  import opened CausalHistory
  import opened IdLists
  import opened Ops

  /** Fresh ops of one change, each starting where the one before ends. */
  datatype Run = Run(src: SeqChange, ops: seq<Op>)

  predicate Contiguous(ops: seq<Op>) {
    forall i :: 0 < i < |ops| ==> Adjacent(ops[i - 1], ops[i])
  }

  predicate Adjacent(a: Op, b: Op) { b.id == Id(a.id.peer, a.id.counter + a.Atoms()) }

  ghost predicate InChange(u: SeqChange, op: Op) {
    op.id.peer == u.ch.id.peer && u.start <= op.id.counter && op.id.counter + op.Atoms() <= u.end
  }

  ghost predicate RunRight(r: Run) {
    r.ops != [] && Contiguous(r.ops) && forall op :: op in r.ops ==> InChange(r.src, op)
  }

  ghost function Flatten(runs: seq<Run>): seq<Op> {
    if runs == [] then [] else Flatten(runs[..|runs| - 1]) + runs[|runs| - 1].ops
  }

  lemma {:induction false} FlattenStep(runs: seq<Run>, r: Run)
    ensures Flatten(runs + [r]) == Flatten(runs) + r.ops
  {
    assert (runs + [r])[..|runs|] == runs;
  }

  lemma {:induction false} FlattenConcat(a: seq<Run>, b: seq<Run>)
    ensures Flatten(a + b) == Flatten(a) + Flatten(b)
  {
    if b == [] {
      assert a + b == a;
    } else {
      var m := |b| - 1;
      assert (a + b)[..|a| + m] == a + b[..m];
      FlattenConcat(a, b[..m]);
    }
  }

  /** The fresh ops of all units. */
  ghost function News(units: seq<SeqChange>): seq<Op> {
    if units == [] then [] else News(units[..|units| - 1]) + units[|units| - 1].news
  }

  /** The fresh ops of a change, cut wherever an op does not start where the one before ends. */
  method SplitRuns(u: SeqChange) returns (runs: seq<Run>)
    requires forall op :: op in u.news ==> InChange(u, op)
    ensures Flatten(runs) == u.news
    ensures forall r :: r in runs ==> RunRight(r) && r.src == u
  {
    runs := [];
    var ops, from, n := u.news, 0, |u.news|;
    var i := 1;
    while i <= n
      invariant 1 <= i && 0 <= from <= n && (i <= n ==> from < i) && (i > n ==> from == n) && i <= n + 1
      invariant i <= n ==> Contiguous(ops[from..i])
      invariant Flatten(runs) == ops[..from]
      invariant forall r :: r in runs ==> RunRight(r) && r.src == u
    {
      if i == n || ops[i].id != Id(ops[i - 1].id.peer, ops[i - 1].id.counter + ops[i - 1].Atoms()) {
        var r := Run(u, ops[from..i]);
        FlattenStep(runs, r);
        assert ops[..from] + ops[from..i] == ops[..i];
        assert forall op :: op in r.ops ==> op in ops;
        runs := runs + [r];
        from := i;
      } else {
        assert Adjacent(ops[i - 1], ops[i]);
      }
      i := i + 1;
      if i <= n { ContiguousStep(ops, from, i); }
    }
    assert ops[..n] == ops;
  }

  lemma {:induction false} ContiguousStep(ops: seq<Op>, from: nat, i: nat)
    requires from < i <= |ops|
    requires from + 1 == i || (Contiguous(ops[from..i - 1]) && Adjacent(ops[i - 2], ops[i - 1]))
    ensures Contiguous(ops[from..i])
  {
    var s := ops[from..i];
    forall k | 0 < k < |s| ensures Adjacent(s[k - 1], s[k]) {
      if k < |s| - 1 {
        var t := ops[from..i - 1];
        assert t[k - 1] == s[k - 1] && t[k] == s[k];
      }
    }
  }

  // ----- putting runs in order -----

  predicate RunNoLater(a: Run, b: Run)
    requires a.ops != [] && b.ops != []
  {
    NoLater(a.ops[0], b.ops[0])
  }

  predicate AllNonempty(runs: seq<Run>) { forall r :: r in runs ==> r.ops != [] }

  ghost predicate RunsRight(runs: seq<Run>) {
    forall r :: r in runs ==> RunRight(r)
  }

  ghost predicate RunsOrdered(runs: seq<Run>)
    requires AllNonempty(runs)
  {
    forall i, j :: 0 <= i < j < |runs| ==> RunNoLater(runs[i], runs[j])
  }

  function InsertRun(runs: seq<Run>, c: Run): (r: seq<Run>)
    requires AllNonempty(runs) && c.ops != []
    ensures forall x :: x in r <==> x in runs || x == c
    ensures multiset(Flatten(r)) == multiset(Flatten(runs)) + multiset(c.ops)
  {
    if runs == [] then
      FlattenStep([], c);
      assert [] + [c] == [c];
      [c]
    else
      var m := |runs| - 1;
      assert runs == runs[..m] + [runs[m]];
      if RunNoLater(runs[m], c) then
        FlattenStep(runs, c);
        runs + [c]
      else
        var t := InsertRun(runs[..m], c);
        FlattenStep(t, runs[m]);
        t + [runs[m]]
  }

  function SortRuns(runs: seq<Run>): (r: seq<Run>)
    requires AllNonempty(runs)
    ensures forall x :: x in r <==> x in runs
    ensures multiset(Flatten(r)) == multiset(Flatten(runs))
  {
    if runs == [] then []
    else
      var m := |runs| - 1;
      assert runs == runs[..m] + [runs[m]];
      InsertRun(SortRuns(runs[..m]), runs[m])
  }

  lemma {:induction false} OrderedEnd(runs: seq<Run>, c: Run)
    requires AllNonempty(runs) && c.ops != [] && RunsOrdered(runs)
    requires forall r :: r in runs ==> RunNoLater(r, c)
    ensures RunsOrdered(runs + [c])
  {
    hide RunNoLater;
    var r := runs + [c];
    forall i, j | 0 <= i < j < |r| ensures RunNoLater(r[i], r[j]) {
      assert r[i] == runs[i];
      assert j < |runs| ==> r[j] == runs[j];
    }
  }

  lemma {:induction false} OrderedStart(runs: seq<Run>, m: nat)
    requires AllNonempty(runs) && RunsOrdered(runs) && |runs| == m + 1
    ensures RunsOrdered(runs[..m])
    ensures forall r :: r in runs[..m] ==> RunNoLater(r, runs[m])
  {
    hide RunNoLater;
    var t := runs[..m];
    forall i, j | 0 <= i < j < |t| ensures RunNoLater(t[i], t[j]) { assert RunNoLater(runs[i], runs[j]); }
  }

  lemma {:induction false} InsertOrdered(runs: seq<Run>, c: Run)
    requires AllNonempty(runs) && c.ops != [] && RunsOrdered(runs)
    ensures RunsOrdered(InsertRun(runs, c))
  {
    hide RunsOrdered;
    if runs == [] {
      NoneOrdered(c);
    } else {
      var m := |runs| - 1;
      assert runs == runs[..m] + [runs[m]];
      OrderedStart(runs, m);
      if RunNoLater(runs[m], c) {
        OrderedEnd(runs, c);
      } else {
        InsertOrdered(runs[..m], c);
        OrderedEnd(InsertRun(runs[..m], c), runs[m]);
      }
    }
  }

  lemma {:induction false} NoneOrdered(c: Run)
    requires c.ops != []
    ensures RunsOrdered([c])
  {
  }

  lemma {:induction false} EmptyOrdered()
    ensures RunsOrdered([])
  {
  }

  lemma {:induction false} SortOrdered(runs: seq<Run>)
    requires AllNonempty(runs)
    ensures RunsOrdered(SortRuns(runs))
  {
    hide RunsOrdered;
    if runs == [] {
      EmptyOrdered();
    } else {
      var m := |runs| - 1;
      SortOrdered(runs[..m]);
      InsertOrdered(SortRuns(runs[..m]), runs[m]);
    }
  }

  // ----- the order respects causality -----

  /** A run stands in the history as a change of its own would. */
  ghost function RunChange(h: History, r: Run): SeqChange
    requires r.ops != [] && r.ops[0].id in h
  {
    var a, z := r.ops[0], r.ops[|r.ops| - 1];
    SeqChange(Change(a.id, h[a.id].lamport, if a.id.counter == r.src.start then r.src.ch.deps else [Prev(a.id)], r.ops),
              a.id.counter, z.id.counter + z.Atoms(), r.ops)
  }

  lemma {:induction false} RunTells(h: History, r: Run)
    requires RunRight(r) && Tells(h, r.src)
    ensures r.ops[0].id in h && Tells(h, RunChange(h, r))
  {
    var u, a, z := r.src, r.ops[0], r.ops[|r.ops| - 1];
    RunSpan(r, 0, |r.ops| - 1);
    assert a in r.ops && z in r.ops;
    assert InChange(u, a) && InChange(u, z);
    assert TellsAtom(h, u, a.id.counter);
    var c := RunChange(h, r);
    assert IdSet([Prev(a.id)]) == {Prev(a.id)} by { assert [Prev(a.id)][0] == Prev(a.id); }
    forall k | c.start <= k < c.end ensures TellsAtom(h, c, k) { assert TellsAtom(h, u, k); }
  }

  lemma {:induction false} RunSpan(r: Run, i: nat, j: nat)
    requires RunRight(r) && i <= j < |r.ops|
    ensures r.ops[i].id.peer == r.ops[j].id.peer == r.src.ch.id.peer
    ensures i == j || r.ops[i].id.counter + r.ops[i].Atoms() <= r.ops[j].id.counter
    decreases j
  {
    assert r.ops[i] in r.ops && r.ops[j] in r.ops;
    if i < j {
      RunSpan(r, i, j - 1);
      assert Adjacent(r.ops[j - 1], r.ops[j]);
    }
  }

  /** Every atom of a run is an atom of one of its ops. */
  lemma {:induction false} RunHolds(r: Run, n: nat, k: int) returns (i: nat)
    requires RunRight(r) && n < |r.ops| && r.ops[0].id.counter <= k < r.ops[n].id.counter + r.ops[n].Atoms()
    ensures i <= n && r.ops[i].id.counter <= k < r.ops[i].id.counter + r.ops[i].Atoms()
    decreases n
  {
    if k >= r.ops[n].id.counter {
      i := n;
    } else {
      assert Adjacent(r.ops[n - 1], r.ops[n]);
      i := RunHolds(r, n - 1, k);
    }
  }

  lemma {:induction false} RunInOrder(h: History, r: Run)
    requires Complete(h) && RunRight(r) && Tells(h, r.src) && forall op :: op in r.ops ==> TellsOp(h, op)
    ensures InOrder(h, r.ops)
  {
    hide Past, TellsOp, Closed, CausalHistory.OwnSeen;
    var ops := r.ops;
    forall i, j | 0 <= i < j < |ops| ensures NotBefore(h, ops[j], ops[i]) {
      RunSpan(r, i, j);
      assert ops[i] in ops && ops[j] in ops;
      LaterNotBefore(h, ops[i], ops[j]);
    }
  }

  lemma {:induction false} LaterNotBefore(h: History, a: Op, b: Op)
    requires Complete(h) && TellsOp(h, a) && TellsOp(h, b)
    requires a.id.peer == b.id.peer && a.id.counter + a.Atoms() <= b.id.counter
    ensures NotBefore(h, b, a)
  {
    hide Past;
    assert InAtoms(a.id, a.id, a.len);
    forall x | InAtoms(x, b.id, b.len) ensures !Past(h, x, a.id) {
      if Past(h, x, a.id) {
        PastIn(h, x, a.id);
        OwnPast(h, a.id, x);
        PastIn(h, a.id, x);
      }
    }
  }

  /** An op of a run that starts no earlier is not in the past of an op of this run. */
  lemma {:induction false} CrossRuns(h: History, r: Run, a: Op, b: Op)
    requires Complete(h) && RunRight(r) && Tells(h, r.src) && a in r.ops
    requires TellsOp(h, a) && TellsOp(h, b) && TellsOp(h, r.ops[0]) && r.ops[0].lamport <= b.lamport
    requires forall op :: op in r.ops ==> Apart(b, op) && op.Atoms() == op.len
    ensures NotBefore(h, b, a)
  {
    hide Past, Tells, Apart, RunRight, TellsOp, Closed, CausalHistory.OwnSeen;
    forall x | InAtoms(x, b.id, b.len) ensures !Past(h, x, a.id) {
      if Past(h, x, a.id) {
        BeforeRun(h, r, a, x);
        Higher(h, r.ops[0], b, x);
        var k := InRun(r, a, x);
        NotBoth(b, r.ops[k], x);
      }
    }
  }

  /** What comes before an op of a run is in the run, or lies below its first lamport. */
  lemma {:induction false} BeforeRun(h: History, r: Run, a: Op, x: Id)
    requires Complete(h) && RunRight(r) && Tells(h, r.src) && a in r.ops && Past(h, x, a.id) && TellsOp(h, r.ops[0])
    ensures x in h
    ensures h[x].lamport < r.ops[0].lamport
      || (x.peer == r.src.ch.id.peer && r.ops[0].id.counter <= x.counter < a.id.counter)
  {
    hide Past, Tells;
    RunTells(h, r);
    PastIn(h, x, a.id);
    var i :| 0 <= i < |r.ops| && r.ops[i] == a;
    RunSpan(r, 0, i);
    RunSpan(r, i, |r.ops| - 1);
    BeforeInside(h, RunChange(h, r), x, a.id);
    assert InAtoms(r.ops[0].id, r.ops[0].id, r.ops[0].len);
    if Past(h, x, r.ops[0].id) { PastIn(h, x, r.ops[0].id); }
  }

  lemma {:induction false} InRun(r: Run, a: Op, x: Id) returns (k: nat)
    requires RunRight(r) && a in r.ops && (forall op :: op in r.ops ==> op.Atoms() == op.len)
    requires x.peer == r.src.ch.id.peer && r.ops[0].id.counter <= x.counter < a.id.counter
    ensures k < |r.ops| && InAtoms(x, r.ops[k].id, r.ops[k].len)
  {
    var i :| 0 <= i < |r.ops| && r.ops[i] == a;
    k := RunHolds(r, i, x.counter);
    RunSpan(r, 0, k);
    assert r.ops[k] in r.ops;
  }

  lemma {:induction false} Higher(h: History, a: Op, b: Op, x: Id)
    requires TellsOp(h, b) && InAtoms(x, b.id, b.len) && a.lamport <= b.lamport
    ensures x in h && h[x].lamport >= a.lamport
  {
  }

  lemma {:induction false} NotBoth(a: Op, b: Op, x: Id)
    requires Apart(a, b) && InAtoms(x, a.id, a.len)
    ensures !InAtoms(x, b.id, b.len)
  {
  }
}
