/** Folding and clipping ops: however an op is cut up or joined, its atoms stay the same. */
module Folding {
  import opened Common
  import opened SeqTypes
  import opened Ops

  /** What one atom does: inserts an item, deletes an element, or is a whole op of one atom. */
  datatype What =
    | Item(cont: ContKey, pos: int, value: Value)
    | Del(cont: ContKey, pos: int, target: Id)
    | Whole(cont: ContKey, pos: int, body: Body)

  /** What each id of an op does, in id order; a delete with negative length names falling ids at falling
      positions. */
  function Atoms(op: Op): seq<What> {
    match op.body
    case Items(items) => seq(|items|, k requires 0 <= k < |items| => Item(op.cont, op.pos + k, items[k]))
    case DeleteSeq(span) =>
      seq(span.Size(), k requires 0 <= k < span.Size() =>
        if span.len < 0 then Del(op.cont, op.pos - k, Id(span.peer, span.counter + span.Size() - 1 - k))
        else Del(op.cont, op.pos, Id(span.peer, span.counter + k)))
    case _ => [Whole(op.cont, op.pos, op.body)]
  }

  /** An op takes as many ids as it has atoms, and at least one. */
  predicate RightLen(op: Op) { op.len == |Atoms(op)| && op.len >= 1 }

  // ----- deletes -----

  /** A delete at `pos`; its targets start at `low` whichever way it runs. */
  datatype DelSpan = DelSpan(pos: int, len: int, peer: nat, low: int) {
    predicate Bidirectional() { len == 1 || len == -1 }

    function Length(): nat { if len < 0 then -len else len }

    function Direction(): int { if len > 0 then 1 else -1 }

    function Start(): int { if len > 0 then pos else pos + 1 + len }

    function End(): int { if len > 0 then pos + len else pos + 1 }

    function NextPos(): int { if len > 0 then Start() else Start() - 1 }

    function PrevPos(): int { if len > 0 then pos else End() }

    predicate IdIs(p: nat, c: int) { peer == p && low == c }

    /** Whether r removes the element next to this one's last, in the direction both run. */
    predicate Mergeable(r: DelSpan) {
      if Bidirectional() && r.Bidirectional() then
        (pos == r.pos && r.IdIs(peer, low + 1)) || (pos == r.pos + 1 && IdIs(r.peer, r.low + 1))
      else if Bidirectional() then
        pos == r.PrevPos() && if r.len > 0 then r.IdIs(peer, low + 1) else IdIs(r.peer, r.low + r.Length())
      else if r.Bidirectional() then
        NextPos() == r.pos && if len > 0 then r.IdIs(peer, low + Length()) else IdIs(r.peer, r.low + 1)
      else
        NextPos() == r.pos && Direction() == r.Direction()
        && if len > 0 then r.IdIs(peer, low + Length()) else IdIs(r.peer, r.low + r.Length())
    }

    function Merge(r: DelSpan): DelSpan {
      var n :=
        if Bidirectional() && r.Bidirectional() then (if pos == r.pos then 2 else -2)
        else if Bidirectional() then r.len + r.Direction()
        else if r.Bidirectional() then len + Direction()
        else len + r.len;
      DelSpan(pos, n, peer, Min(low, r.low))
    }
  }

  function SpanOf(op: Op): DelSpan
    requires op.body.DeleteSeq?
  {
    DelSpan(op.pos, op.body.span.len, op.body.span.peer, op.body.span.counter)
  }

  // ----- folding -----

  /** Whether b may be folded into a. Where the values lie decides whether loro does fold two
      inserts, never whether it may. */
  predicate MayFold(a: Op, b: Op) {
    && a.cont == b.cont && a.id.peer == b.id.peer && a.id.counter + a.len == b.id.counter
    && ((a.body.Items? && b.body.Items? && a.pos + a.len == b.pos)
        || (a.body.DeleteSeq? && b.body.DeleteSeq? && SpanOf(a).Mergeable(SpanOf(b))))
  }

  function Fold(a: Op, b: Op): Op
    requires MayFold(a, b)
  {
    if a.body.Items? then a.(len := a.len + b.len, body := Items(a.body.items + b.body.items))
    else
      var x := SpanOf(a).Merge(SpanOf(b));
      a.(len := a.len + b.len, pos := x.pos, body := DeleteSeq(DeleteSpan(x.peer, x.low, x.len)))
  }

  /** Folding joins the atoms of the two ops, in all cases of forward and backward deletes. */
  lemma {:induction false} FoldJoins(a: Op, b: Op)
    requires MayFold(a, b) && RightLen(a) && RightLen(b)
    ensures Atoms(Fold(a, b)) == Atoms(a) + Atoms(b) && RightLen(Fold(a, b))
    ensures Fold(a, b).id == a.id && Fold(a, b).lamport == a.lamport
  {
    if a.body.DeleteSeq? { SpansJoin(a, b); }
  }

  lemma {:induction false} SpansJoin(a: Op, b: Op)
    requires MayFold(a, b) && RightLen(a) && RightLen(b) && a.body.DeleteSeq?
    ensures Atoms(Fold(a, b)) == Atoms(a) + Atoms(b) && RightLen(Fold(a, b))
  {
    var s, r, x := SpanOf(a), SpanOf(b), SpanOf(Fold(a, b));
    MergedSpan(s, r);
    assert |Atoms(Fold(a, b))| == x.Length();
    var j := Atoms(a) + Atoms(b);
    forall k | 0 <= k < |j| ensures Atoms(Fold(a, b))[k] == j[k] {
      assert k >= |Atoms(a)| ==> j[k] == Atoms(b)[k - |Atoms(a)|];
    }
  }

  /** The span of two folded deletes runs over both in turn. */
  lemma {:induction false} MergedSpan(s: DelSpan, r: DelSpan)
    requires s.Mergeable(r) && s.len != 0 && r.len != 0
    ensures var x := s.Merge(r);
      && x.pos == s.pos && x.peer == s.peer == r.peer && x.Length() == s.Length() + r.Length()
      && (x.len > 0 ==> (s.len > 0 || s.len == -1) && (r.len > 0 || r.len == -1) && x.low == s.low && r.low == s.low + s.Length() && r.pos == s.pos)
      && (x.len < 0 ==> (s.len < 0 || s.len == 1) && (r.len < 0 || r.len == 1) && x.low == r.low && s.low == r.low + r.Length() && r.pos == s.pos - s.Length())
  {
  }

  /** Two ops in a row may be folded exactly when some single op has the atoms of both. */
  lemma {:induction false} FoldsExactly(a: Op, b: Op)
    requires RightLen(a) && RightLen(b) && b.id == Id(a.id.peer, a.id.counter + a.len)
    ensures MayFold(a, b) <==> exists f: Op :: Atoms(f) == Atoms(a) + Atoms(b)
  {
    hide Atoms;
    if MayFold(a, b) { FoldJoins(a, b); }
    if f: Op :| Atoms(f) == Atoms(a) + Atoms(b) { OneOp(a, b, f); }
  }

  lemma {:induction false} OneOp(a: Op, b: Op, f: Op)
    requires RightLen(a) && RightLen(b) && b.id == Id(a.id.peer, a.id.counter + a.len) && Atoms(f) == Atoms(a) + Atoms(b)
    ensures MayFold(a, b)
  {
    hide DelSpan.Mergeable, MayFold;
    var j := Atoms(a) + Atoms(b);
    assert j[0] == Atoms(a)[0] && j[a.len] == Atoms(b)[0];
    SameSort(a, f, 0, 0);
    SameSort(b, f, 0, a.len);
    if f.body.DeleteSeq? {
      OneDelete(a, b, f);
    }
    FoldConditions(a, b);
  }

  lemma {:induction false} FoldConditions(a: Op, b: Op)
    ensures MayFold(a, b) <==>
      && a.cont == b.cont && a.id.peer == b.id.peer && a.id.counter + a.len == b.id.counter
      && ((a.body.Items? && b.body.Items? && a.pos + a.len == b.pos)
          || (a.body.DeleteSeq? && b.body.DeleteSeq? && SpanOf(a).Mergeable(SpanOf(b))))
  {
  }

  /** Ops that share an atom, one of several of the second's, are inserts at matching positions, or deletes. */
  lemma {:induction false} SameSort(a: Op, f: Op, i: nat, k: nat)
    requires i < |Atoms(a)| && k < |Atoms(f)| && |Atoms(f)| > 1 && Atoms(a)[i] == Atoms(f)[k]
    ensures a.cont == f.cont
    ensures (f.body.Items? && a.body.Items? && a.pos + i == f.pos + k) || (f.body.DeleteSeq? && a.body.DeleteSeq?)
  {
  }

  /** The i-th atom of a delete. */
  lemma {:induction false} DelAt(a: Op, i: nat)
    requires a.body.DeleteSeq? && i < |Atoms(a)|
    ensures var s := SpanOf(a);
      && |Atoms(a)| == s.Length()
      && Atoms(a)[i] == Del(a.cont, if s.len < 0 then s.pos - i else s.pos, Id(s.peer, if s.len < 0 then s.low + s.Length() - 1 - i else s.low + i))
  {
  }

  /** A delete of which one has all the atoms from k on runs as that one does. */
  lemma {:induction false} WithinDelete(a: Op, f: Op, k: nat)
    requires a.body.DeleteSeq? && f.body.DeleteSeq? && RightLen(a) && k + a.len <= |Atoms(f)| && Atoms(a) == Atoms(f)[k..k + a.len]
    ensures var s, x := SpanOf(a), SpanOf(f);
      && s.peer == x.peer && s.Length() == a.len
      && (a.len > 1 ==> (s.len > 0 <==> x.len > 0))
      && (x.len > 0 ==> s.pos == x.pos && s.low == x.low + k)
      && (x.len < 0 ==> s.pos == x.pos - k && s.low == x.low + x.Length() - k - a.len)
  {
    hide Atoms;
    DelAt(a, 0);
    DelAt(f, k);
    assert Atoms(a)[0] == Atoms(f)[k];
    if a.len > 1 {
      DelAt(a, 1);
      DelAt(f, k + 1);
      assert Atoms(a)[1] == Atoms(f)[k + 1];
    }
  }

  lemma {:induction false} OneDelete(a: Op, b: Op, f: Op)
    requires RightLen(a) && RightLen(b) && a.body.DeleteSeq? && b.body.DeleteSeq? && f.body.DeleteSeq?
    requires Atoms(f) == Atoms(a) + Atoms(b)
    ensures SpanOf(a).Mergeable(SpanOf(b))
  {
    hide Atoms;
    assert Atoms(f)[0..a.len] == Atoms(a) && Atoms(f)[a.len..a.len + b.len] == Atoms(b);
    WithinDelete(a, f, 0);
    WithinDelete(b, f, a.len);
    DelAt(f, 0);
  }

  // ----- clipping -----

  /** The n atoms of an op from `off` on; None where the op cannot be cut. */
  function Clip(op: Op, off: int, n: int): Option<Op> {
    if off == 0 && n == op.Atoms() then Some(op)
    else
      match op.body
      case Items(items) =>
        if off < 0 || n < 0 || off + n > |items| then None
        else Some(Moved(op, off, n, op.pos + off, Items(items[off..off + n])))
      case DeleteSeq(span) =>
        if off < 0 || off + n > span.Size() then None
        else if span.len >= 0 then
          Some(Moved(op, off, n, op.pos, DeleteSeq(DeleteSpan(span.peer, span.counter + off, n))))
        else
          Some(Moved(op, off, n, op.pos - off, DeleteSeq(DeleteSpan(span.peer, span.counter + span.Size() - (off + n), -n))))
      case _ => None
  }

  function Moved(op: Op, off: int, n: int, pos: int, body: Body): Op {
    op.(id := Id(op.id.peer, op.id.counter + off), lamport := op.lamport + off, pos := pos, len := n, body := body)
  }

  /** Clipping carries exactly the atoms kept, and always succeeds inside an op. */
  lemma {:induction false} ClipKeeps(op: Op, off: int, n: int)
    requires RightLen(op) && 0 <= off && 0 < n && off + n <= op.len
    ensures Clip(op, off, n).Some?
    ensures var c := Clip(op, off, n).value;
      && RightLen(c) && c.len == n && Atoms(c) == Atoms(op)[off..off + n]
      && c.id == Id(op.id.peer, op.id.counter + off) && c.lamport == op.lamport + off && c.cont == op.cont
  {
    var c := Clip(op, off, n).value;
    assert |Atoms(c)| == n;
    forall k | 0 <= k < n ensures Atoms(c)[k] == Atoms(op)[off..off + n][k] {
      assert Atoms(op)[off..off + n][k] == Atoms(op)[off + k];
    }
  }

  // ----- ops in a row -----

  function Joined(ops: seq<Op>): seq<What> {
    if ops == [] then [] else Joined(ops[..|ops| - 1]) + Atoms(ops[|ops| - 1])
  }

  /** Each op takes up where the one before ends, in ids and lamports, from id `at` on. */
  predicate Row(ops: seq<Op>, at: Id, lamport: int) {
    ops == []
    || (var m := |ops| - 1;
        var n := |Joined(ops[..m])|;
        Row(ops[..m], at, lamport) && RightLen(ops[m]) && ops[m].id == Id(at.peer, at.counter + n) && ops[m].lamport == lamport + n)
  }

  lemma {:induction false} JoinedStep(ops: seq<Op>, op: Op)
    ensures Joined(ops + [op]) == Joined(ops) + Atoms(op)
  {
    assert (ops + [op])[..|ops|] == ops;
  }

  lemma {:induction false} RowStep(ops: seq<Op>, op: Op, at: Id, lamport: int)
    requires Row(ops, at, lamport) && RightLen(op)
    requires op.id == Id(at.peer, at.counter + |Joined(ops)|) && op.lamport == lamport + |Joined(ops)|
    ensures Row(ops + [op], at, lamport)
  {
    assert (ops + [op])[..|ops|] == ops;
  }

  lemma {:induction false} JoinedConcat(a: seq<Op>, b: seq<Op>)
    ensures Joined(a + b) == Joined(a) + Joined(b)
  {
    hide Atoms;
    if b == [] {
      assert a + b == a;
    } else {
      var m := |b| - 1;
      assert (a + b)[..|a| + m] == a + b[..m];
      JoinedConcat(a, b[..m]);
    }
  }

  /** Puts an op after the others, folded into the last one when `fold` says so and it may. */
  function Push(ops: seq<Op>, op: Op, fold: bool): seq<Op> {
    if fold && ops != [] && MayFold(ops[|ops| - 1], op) then ops[..|ops| - 1] + [Fold(ops[|ops| - 1], op)]
    else ops + [op]
  }

  lemma {:induction false} PushJoins(ops: seq<Op>, op: Op, fold: bool, at: Id, lamport: int)
    requires Row(ops, at, lamport) && RightLen(op)
    requires op.id == Id(at.peer, at.counter + |Joined(ops)|) && op.lamport == lamport + |Joined(ops)|
    ensures Joined(Push(ops, op, fold)) == Joined(ops) + Atoms(op)
    ensures Row(Push(ops, op, fold), at, lamport)
    ensures Push(ops, op, fold) != []
  {
    hide Atoms, MayFold, Fold;
    if fold && ops != [] && MayFold(ops[|ops| - 1], op) {
      var m := |ops| - 1;
      FoldJoins(ops[m], op);
      JoinedStep(ops[..m], Fold(ops[m], op));
      RowStep(ops[..m], Fold(ops[m], op), at, lamport);
    } else {
      JoinedStep(ops, op);
      RowStep(ops, op, at, lamport);
    }
  }
}
