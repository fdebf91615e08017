/** Ops put into a change one by one, each folded into the one before where loro would fold it. */
module Transactions {
  import opened Common
  import opened SeqTypes
  import opened Ops
  import opened CausalHistory
  import opened Folding
  import opened Changes
  import opened Blocks
  import opened IdLists

  /** A transaction's ops stand in a row from where it started. */
  class Txn {
    const start: Id
    const startLamport: nat
    const deps: seq<Id>
    var nextCounter: int
    var nextLamport: nat
    var ops: seq<Op>

    ghost predicate Valid()
      reads this
    {
      && Row(ops, start, startLamport)
      && nextCounter == start.counter + |Joined(ops)| && nextLamport == startLamport + |Joined(ops)|
    }

    constructor (start: Id, lamport: nat, deps: seq<Id>)
      ensures Valid() && ops == [] && this.start == start && startLamport == lamport && this.deps == deps
    {
      this.start, startLamport, this.deps := start, lamport, deps;
      nextCounter, nextLamport, ops := start.counter, lamport, [];
    }

    /** One local op takes the next ids and lamports; its atoms follow those before, folded or not. */
    method Apply(op: Op) returns (made: Op)
      requires Valid() && RightLen(op)
      modifies this
      ensures Valid() && made == op.(id := Id(start.peer, old(nextCounter)), lamport := old(nextLamport))
      ensures Joined(ops) == old(Joined(ops)) + Atoms(made) && ops != []
      ensures nextCounter == old(nextCounter) + op.len && nextLamport == old(nextLamport) + op.len
    {
      hide Atoms, Push, Row, Joined;
      made := op.(id := Id(start.peer, nextCounter), lamport := nextLamport);
      Renamed(op, made);
      var fold: bool := *;
      PushJoins(ops, made, fold, start, startLamport);
      ops := Push(ops, made, fold);
      nextCounter, nextLamport := nextCounter + op.len, nextLamport + op.len;
    }

    /** The change the transaction becomes, if it made any op. */
    method Commit() returns (c: Option<Change>)
      requires Valid() && |deps| <= MAX_DEPS && DistinctIds(deps)
      ensures c.None? <==> ops == []
      ensures c.Some? ==> Formed(c.value) && c.value.id == start && c.value.lamport == startLamport && c.value.deps == deps
      ensures c.Some? ==> Joined(c.value.ops) == Joined(ops) && ChangeEnd(c.value) == nextCounter
    {
      hide Atoms, Joined;
      if ops == [] { return None; }
      FormedSize(Change(start, startLamport, deps, ops));
      return Some(Change(start, startLamport, deps, ops));
    }
  }

  /** An op's ids and lamport aside, its atoms are as many. */
  lemma {:induction false} Renamed(op: Op, made: Op)
    requires RightLen(op) && made == op.(id := made.id, lamport := made.lamport)
    ensures RightLen(made) && |Atoms(made)| == op.len
  {
  }

  /** Ops of a decoded change that continue each other are folded: its atoms, their lamports and deps stay. */
  method FoldDecoded(c: Change) returns (out: Change)
    requires Formed(c)
    ensures Formed(out) && Entries(out) == Entries(c) && out.id == c.id && out.lamport == c.lamport && out.deps == c.deps
  {
    hide Atoms, Push, Row, Joined, PushAll, Entries;
    var ops: seq<Op> := [];
    ghost var folds: seq<bool> := [];
    NothingPushed();
    for j := 0 to |c.ops|
      invariant |folds| == j && ops == PushAll([], c.ops[..j], folds)
    {
      var fold: bool := *;
      PushAllStep([], c.ops, folds, j, fold);
      folds := folds + [fold];
      ops := Push(ops, c.ops[j], fold);
    }
    assert c.ops[..|c.ops|] == c.ops;
    NoOps(c);
    PushAllJoins([], c.ops, folds, c.id, c.lamport);
    out := c.(ops := ops);
    SameEntries(c, out);
  }

  lemma {:induction false} NothingPushed()
    ensures PushAll([], [], []) == []
  {
  }

  lemma {:induction false} NoOps(c: Change)
    requires Formed(c)
    ensures Row([], c.id, c.lamport) && |Joined([])| == 0 && [] + Joined(c.ops) == Joined(c.ops)
    ensures Row(c.ops, Id(c.id.peer, c.id.counter + 0), c.lamport + 0)
  {
    hide Atoms;
  }

  lemma {:induction false} SameEntries(c: Change, out: Change)
    requires Joined(out.ops) == Joined(c.ops) && out.id == c.id && out.lamport == c.lamport && out.deps == c.deps
    ensures Entries(out) == Entries(c)
  {
    hide Joined, IdSet;
  }
}
