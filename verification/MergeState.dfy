/** From copies of changes as they arrive to merged sequences. */
module MergeStates {
  import opened Common
  import opened SeqTypes
  import opened SeqApply
  import opened SeqSwap
  import opened SeqConverge
  import opened SeqMachine
  import opened SeqViews
  import opened SeqHistory
  import opened SeqRuns
  import opened SeqMerge
  import opened CausalHistory
  import opened CausalIndices
  import opened Ops
  import opened Folding
  import opened Changes
  import opened LogHistory
  import Collect

  /** Every op names only what its author had seen. */
  ghost predicate NamesHonest(h: History, ops: seq<Op>, mode: Mode)
    requires Complete(h)
  {
    && (forall op :: op in ops && op.IsSeq() ==> NamesSeen(h, op, mode))
    && (forall a, b :: a in ops && b in ops && a != b && Unseen(ViewOf(h, b.id), a) ==> NamesNot(b, a))
  }

  lemma {:induction false} KeptTells(w: World, op: Op)
    requires Collect.ToldOp(w, op)
    ensures TellsOp(w.h, op) && RightLength(op)
  {
    hide Atoms;
    forall x | InAtoms(x, op.id, op.len) ensures x in w.h && w.h[x].lamport == op.lamport + (x.counter - op.id.counter) && (x != op.id ==> w.h[x].deps == {Prev(x)}) {
      assert Collect.ToldAt(w, op, x.counter - op.id.counter);
    }
    LenIs(op);
  }

  lemma {:induction false} LenIs(op: Op)
    requires RightLen(op)
    ensures RightLength(op)
  {
  }

  /** Kept ops are one op per id, as a merge needs them. */
  lemma {:induction false} KeptHonest(w: World, ops: seq<Op>, seen: set<Id>, mode: Mode)
    requires Complete(w.h) && Collect.Kept(w, ops, seen) && NamesHonest(w.h, ops, mode)
    ensures HonestOps(w.h, ops, mode)
  {
    hide Closed, CausalHistory.OwnSeen, NamesSeen, Unseen, NamesNot, TellsOp, RightLength, Collect.ToldOp, Collect.TakenOnce;
    forall op | op in ops ensures HonestOp(w.h, op, mode) && multiset(ops)[op] == 1 {
      var i :| 0 <= i < |ops| && ops[i] == op;
      KeptTells(w, op);
      Once(w, ops, i);
    }
    forall a, b | a in ops && b in ops && a != b ensures HonestTwo(w.h, a, b) {
      var i :| 0 <= i < |ops| && ops[i] == a;
      var j :| 0 <= j < |ops| && ops[j] == b;
      KeptApart(ops, i, j);
    }
  }

  lemma {:induction false} KeptApart(ops: seq<Op>, i: nat, j: nat)
    requires Collect.TakenOnce(ops) && i < |ops| && j < |ops| && i != j
    ensures Apart(ops[i], ops[j])
  {
    forall x | InAtoms(x, ops[i].id, ops[i].len) ensures !InAtoms(x, ops[j].id, ops[j].len) {
      assert Collect.Takes(ops[i], x);
      assert Collect.Takes(ops[j], x) <==> InAtoms(x, ops[j].id, ops[j].len);
    }
  }

  lemma {:induction false} Once(w: World, ops: seq<Op>, i: nat)
    requires Collect.TakenOnce(ops) && i < |ops| && Collect.ToldOp(w, ops[i])
    ensures multiset(ops)[ops[i]] == 1
  {
    hide Collect.TakenOnce, Atoms;
    var rest := ops[..i] + ops[i + 1..];
    assert ops == ops[..i] + [ops[i]] + ops[i + 1..];
    assert multiset(ops) == multiset(rest) + multiset{ops[i]};
    forall j | 0 <= j < |rest| ensures rest[j] != ops[i] {
      var k := if j < i then j else j + 1;
      assert rest[j] == ops[k];
      KeptApart(ops, i, k);
      assert InAtoms(ops[i].id, ops[i].id, ops[i].len);
    }
    assert ops[i] !in rest && ops[i] !in multiset(rest);
  }

  /** The copies tell the history when every atom of it has arrived. */
  lemma {:induction false} CopiesTell(w: World, changes: seq<Change>, copies: seq<SeqChange>)
    requires Complete(w.h) && (forall c :: c in changes ==> LogHistory.Told(w, c)) && Collect.CopiesOf(w, changes, copies)
    requires Collect.AtomsOf(changes) == w.h.Keys
    ensures CausalIndices.Told(w.h, copies)
  {
    hide Closed, CausalHistory.OwnSeen, LogHistory.Told, Tells, Collect.AtomsOf, ChangeEnd;
    forall sc | sc in copies ensures Tells(w.h, sc) {
      var i :| 0 <= i < |copies| && copies[i] == sc;
      CopyTells(w, changes[i], sc);
    }
    forall x | x in w.h ensures Held(copies, x) {
      AtomHeld(w, changes, x);
      var i :| 0 <= i < |changes| && Within(changes[i], x);
      assert Collect.CopyOf(w, changes[i], copies[i]);
      assert copies[i] in copies && Holds(copies[i], x);
    }
  }

  lemma {:induction false} CopyTells(w: World, c: Change, sc: SeqChange)
    requires LogHistory.Told(w, c) && Collect.CopyOf(w, c, sc)
    ensures Tells(w.h, sc)
  {
    hide LogHistory.Told, TellsAtom, Collect.ToldOp;
    LogHistory.ToldTells(w, c);
    forall k | sc.start <= k < sc.end ensures TellsAtom(w.h, sc, k) {
      assert TellsAtom(w.h, AsSeq(c), k);
      SameTell(w.h, AsSeq(c), sc, k);
    }
  }

  lemma {:induction false} SameTell(h: History, a: SeqChange, b: SeqChange, k: int)
    requires TellsAtom(h, a, k) && a.ch == b.ch && a.start == b.start
    ensures TellsAtom(h, b, k)
  {
  }

  lemma {:induction false} AtomHeld(w: World, changes: seq<Change>, x: Id)
    requires x in Collect.AtomsOf(changes)
    ensures exists i :: 0 <= i < |changes| && Within(changes[i], x)
  {
    var m := |changes| - 1;
    if x in Collect.AtomsOf(changes[..m]) {
      AtomHeld(w, changes[..m], x);
      var i :| 0 <= i < m && Within(changes[..m][i], x);
      assert Within(changes[i], x);
    } else {
      assert Within(changes[m], x);
    }
  }

  lemma {:induction false} SameNews(units: seq<SeqChange>)
    ensures SeqRuns.News(units) == Collect.News(units)
  {
    if units != [] { SameNews(units[..|units| - 1]); }
  }

  lemma {:induction false} UnitsHonest(w: World, changes: seq<Change>, r: Collect.Collected, mode: Mode)
    requires Complete(w.h) && Collect.CopiesOf(w, changes, r.copies) && Collect.UnitsOf(r.copies, r.units)
    requires Collect.Kept(w, Collect.News(r.copies), Collect.AtomsOf(changes)) && NamesHonest(w.h, Collect.News(r.copies), mode)
    ensures HonestUnits(w.h, r.units, mode)
  {
    hide Closed, CausalHistory.OwnSeen, HonestOps, NamesHonest, Collect.Kept, Collect.ToldOp, ChangeEnd;
    SameNews(r.units);
    KeptHonest(w, Collect.News(r.copies), Collect.AtomsOf(changes), mode);
    forall u, op | u in r.units && op in u.news ensures InChange(u, op) {
      var i :| 0 <= i < |r.copies| && r.copies[i] == u;
      assert Collect.CopyOf(w, changes[i], u);
      PositiveLen(w, op);
    }
  }

  lemma {:induction false} PositiveLen(w: World, op: Op)
    requires Collect.ToldOp(w, op)
    ensures op.Atoms() == op.len
  {
  }

  /** Merging gathered copies, once every atom of the history has arrived: each container's sequence
      is the replay of the kept ops in any order that respects causality. */
  method MergeGathered(ghost w: World, ghost changes: seq<Change>, got: Collect.Collected, strict: bool)
    returns (r: Option<map<ContKey, SeqState>>)
    requires LogHistory.Honest(w) && (forall c :: c in changes ==> LogHistory.Told(w, c)) && Collect.AtomsOf(changes) == w.h.Keys
    requires Collect.CopiesOf(w, changes, got.copies) && Collect.UnitsOf(got.copies, got.units)
    requires Collect.Kept(w, Collect.News(got.copies), Collect.AtomsOf(changes))
    requires NamesHonest(w.h, Collect.News(got.copies), Mode(true, strict))
    ensures r.Some? ==> fresh(r.value.Values)
    ensures forall order :: InOrder(w.h, order) && multiset(order) == multiset(Collect.News(got.copies)) ==>
      SeqMerge.Merged(w.h, Mode(true, strict), order, r)
  {
    hide Closed, CausalHistory.OwnSeen, Tight, LogHistory.Told, CausalIndices.Told, HonestUnits, NamesHonest, Collect.Kept, Collect.CopiesOf, SeqMerge.Merged, InOrder;
    CopiesTell(w, changes, got.copies);
    SameNews(got.units);
    UnitsHonest(w, changes, got, Mode(true, strict));
    r := MergeSequences(w.h, got.copies, got.units, strict);
  }
}
