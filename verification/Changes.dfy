/** Changes as sequences of atoms: slicing, pushing and merging keep every atom's content, lamport
    and deps. */
module Changes {
  import opened Common
  import opened SeqTypes
  import opened CausalHistory
  import opened IdLists
  import opened Ops
  import opened Folding

  /** One atom of a history: what it does, its lamport, and what it depends on. */
  datatype Entry = Entry(what: What, lamport: int, deps: set<Id>)

  function ChangeEnd(c: Change): int { c.id.counter + |Joined(c.ops)| }

  function LastId(c: Change): Id { Id(c.id.peer, ChangeEnd(c) - 1) }

  /** The change's atoms in id order: the first has the change's deps, each later one depends on
      the one before. */
  function Entries(c: Change): seq<Entry> {
    seq(|Joined(c.ops)|, k requires 0 <= k < |Joined(c.ops)| =>
      Entry(Joined(c.ops)[k], c.lamport + k, if k == 0 then IdSet(c.deps) else {Id(c.id.peer, c.id.counter + k - 1)}))
  }

  /** More deps than this leave a block no room for an atom. */
  const MAX_DEPS := 1023

  /** A change of at least one op, its ops in a row from its id and lamport on. */
  ghost predicate Formed(c: Change) {
    c.ops != [] && Row(c.ops, c.id, c.lamport) && |c.deps| <= MAX_DEPS && DistinctIds(c.deps)
  }

  lemma {:induction false} FormedSize(c: Change)
    requires Formed(c)
    ensures |Entries(c)| >= 1 && ChangeEnd(c) > c.id.counter
  {
    hide Atoms;
    var m := |c.ops| - 1;
    assert RightLen(c.ops[m]);
    assert Joined(c.ops) == Joined(c.ops[..m]) + Atoms(c.ops[m]);
  }

  lemma {:induction false} EntryAt(c: Change, k: nat)
    requires k < |Joined(c.ops)|
    ensures |Entries(c)| == |Joined(c.ops)|
    ensures Entries(c)[k] ==
      Entry(Joined(c.ops)[k], c.lamport + k, if k == 0 then IdSet(c.deps) else {Id(c.id.peer, c.id.counter + k - 1)})
  {
  }

  lemma {:induction false} EntryCount(c: Change)
    ensures |Entries(c)| == |Joined(c.ops)|
  {
  }

  lemma {:induction false} OpPlace(c: Change, i: nat)
    requires Formed(c) && i < |c.ops|
    ensures var n := |Joined(c.ops[..i])|; var op := c.ops[i];
      && RightLen(op) && n + op.len <= |Joined(c.ops)| && Joined(c.ops)[n..n + op.len] == Atoms(op)
      && op.id == Id(c.id.peer, c.id.counter + n) && op.lamport == c.lamport + n
  {
    hide Atoms;
    RowAt(c.ops, c.id, c.lamport, i);
    assert c.ops[..i + 1] == c.ops[..i] + [c.ops[i]];
    JoinedStep(c.ops[..i], c.ops[i]);
    assert c.ops == c.ops[..i + 1] + c.ops[i + 1..];
    JoinedConcat(c.ops[..i + 1], c.ops[i + 1..]);
  }

  lemma {:induction false} RowAt(ops: seq<Op>, at: Id, lamport: int, i: nat)
    requires Row(ops, at, lamport) && i < |ops|
    ensures var n := |Joined(ops[..i])|;
      RightLen(ops[i]) && ops[i].id == Id(at.peer, at.counter + n) && ops[i].lamport == lamport + n
  {
    hide Atoms;
    var m := |ops| - 1;
    if i < m {
      RowAt(ops[..m], at, lamport, i);
      assert ops[..m][..i] == ops[..i];
    }
  }

  // ----- slices -----

  /** The kept part of an op that takes the counters [start, start + len). */
  function SliceOp(op: Op, lo: int, hi: int): seq<Op> {
    var from, to := Max(op.id.counter, lo), Min(op.id.counter + op.len, hi);
    if from >= to then []
    else
      var c := Clip(op, from - op.id.counter, to - from);
      if c.Some? then [c.value] else [op]
  }

  function SliceOps(ops: seq<Op>, lo: int, hi: int): seq<Op> {
    if ops == [] then [] else SliceOps(ops[..|ops| - 1], lo, hi) + SliceOp(ops[|ops| - 1], lo, hi)
  }

  /** A change made of entries [from, to): with `from` positive its only dep is entry from - 1. */
  function Slice(c: Change, from: nat, to: nat): Change {
    Change(Id(c.id.peer, c.id.counter + from), c.lamport + from,
           if from > 0 then [Id(c.id.peer, c.id.counter + from - 1)] else c.deps,
           SliceOps(c.ops, c.id.counter + from, c.id.counter + to))
  }

  lemma {:induction false} SliceOpsKeep(ops: seq<Op>, at: Id, lamport: int, from: nat, to: nat)
    requires Row(ops, at, lamport) && from <= to
    ensures var s, n := SliceOps(ops, at.counter + from, at.counter + to), |Joined(ops)|;
      && Joined(s) == Joined(ops)[Min(from, n)..Min(to, n)]
      && Row(s, Id(at.peer, at.counter + from), lamport + from)
      && (from < to && from < n ==> s != [])
  {
    hide Atoms, SliceOp;
    if ops != [] {
      var m := |ops| - 1;
      SliceOpsKeep(ops[..m], at, lamport, from, to);
      SliceStep(SliceOps(ops[..m], at.counter + from, at.counter + to), Joined(ops[..m]), ops[m], at, lamport, from, to);
    }
  }

  lemma {:induction false} SliceStep(s: seq<Op>, before: seq<What>, op: Op, at: Id, lamport: int, from: nat, to: nat)
    requires from <= to && RightLen(op) && op.id == Id(at.peer, at.counter + |before|) && op.lamport == lamport + |before|
    requires Joined(s) == before[Min(from, |before|)..Min(to, |before|)]
    requires Row(s, Id(at.peer, at.counter + from), lamport + from)
    requires from < to && from < |before| ==> s != []
    ensures var t, all := s + SliceOp(op, at.counter + from, at.counter + to), before + Atoms(op);
      && Joined(t) == all[Min(from, |all|)..Min(to, |all|)]
      && Row(t, Id(at.peer, at.counter + from), lamport + from)
      && (from < to && from < |all| ==> t != [])
  {
    hide Atoms, SliceOp, Row, Joined;
    SliceOpAt(op, at, |before|, from, to);
    Cut(before, Atoms(op), from, to);
    var part := SliceOp(op, at.counter + from, at.counter + to);
    if part != [] {
      assert part == [part[0]];
      assert |Joined(s)| == Max(|before|, from) - from;
      JoinedStep(s, part[0]);
      RowStep(s, part[0], Id(at.peer, at.counter + from), lamport + from);
    } else {
      assert s + [] == s;
    }
  }

  lemma {:induction false} SliceOpAt(op: Op, at: Id, n: nat, from: nat, to: nat)
    requires RightLen(op) && op.id == Id(at.peer, at.counter + n)
    ensures var s := SliceOp(op, at.counter + from, at.counter + to);
      var f, t := Max(n, from), Min(n + op.len, to);
      if f >= t then s == [] else
        |s| == 1 && RightLen(s[0]) && Atoms(s[0]) == Atoms(op)[f - n..t - n]
          && s[0].id == Id(at.peer, at.counter + f) && s[0].lamport == op.lamport + (f - n)
  {
    hide Atoms, SliceOp;
    SliceOpKeeps(op, at.counter + from, at.counter + to);
  }

  lemma {:induction false} Cut<T>(a: seq<T>, b: seq<T>, from: nat, to: nat)
    requires from <= to
    ensures var n, k := |a|, |a| + |b|;
      (a + b)[Min(from, k)..Min(to, k)] ==
        a[Min(from, n)..Min(to, n)] + (if Max(n, from) < Min(k, to) then b[Max(n, from) - n..Min(k, to) - n] else [])
  {
    var n, k := |a|, |a| + |b|;
    CutIn(a, b, Min(from, k), Min(to, k));
    if Max(n, from) >= Min(k, to) { assert a[Min(from, n)..Min(to, n)] + [] == a[Min(from, n)..Min(to, n)]; }
  }

  lemma {:induction false} CutIn<T>(a: seq<T>, b: seq<T>, f: nat, t: nat)
    requires f <= t <= |a| + |b|
    ensures t <= |a| ==> (a + b)[f..t] == a[f..t]
    ensures f >= |a| ==> (a + b)[f..t] == b[f - |a|..t - |a|]
    ensures f < |a| < t ==> (a + b)[f..t] == a[f..] + b[..t - |a|]
  {
  }

  lemma {:induction false} SliceOpKeeps(op: Op, lo: int, hi: int)
    requires RightLen(op)
    ensures var s := SliceOp(op, lo, hi);
      var from, to := Max(op.id.counter, lo), Min(op.id.counter + op.len, hi);
      if from >= to then s == [] else
        |s| == 1 && RightLen(s[0]) && Atoms(s[0]) == Atoms(op)[from - op.id.counter..to - op.id.counter]
          && s[0].id == Id(op.id.peer, from) && s[0].lamport == op.lamport + (from - op.id.counter)
  {
    hide Atoms, Clip;
    var from, to := Max(op.id.counter, lo), Min(op.id.counter + op.len, hi);
    if from < to { ClipKeeps(op, from - op.id.counter, to - from); }
  }

  /** A slice holds exactly the atoms asked for, each with the lamport and deps it had. */
  lemma {:induction false} SliceKeeps(c: Change, from: nat, to: nat)
    requires Formed(c) && from < to <= |Entries(c)|
    ensures Formed(Slice(c, from, to)) && Entries(Slice(c, from, to)) == Entries(c)[from..to]
    ensures Slice(c, from, to).id == Id(c.id.peer, c.id.counter + from)
    ensures ChangeEnd(Slice(c, from, to)) == c.id.counter + to
  {
    hide Row, Joined, SliceOps, Entries, IdSet;
    EntryCount(c);
    SliceOpsKeep(c.ops, c.id, c.lamport, from, to);
    var s := Slice(c, from, to);
    EntryCount(s);
    forall k | 0 <= k < to - from ensures Entries(s)[k] == Entries(c)[from..to][k] {
      EntryAt(s, k);
      EntryAt(c, from + k);
      if k == 0 && from > 0 { OneId(s.deps[0]); }
    }
  }

  // ----- merging -----

  function PushAll(ops: seq<Op>, more: seq<Op>, folds: seq<bool>): seq<Op>
    requires |folds| == |more|
  {
    if more == [] then ops
    else
      var m := |more| - 1;
      Push(PushAll(ops, more[..m], folds[..m]), more[m], folds[m])
  }

  lemma {:induction false} PushAllJoins(ops: seq<Op>, more: seq<Op>, folds: seq<bool>, at: Id, lamport: int)
    requires Row(ops, at, lamport) && |folds| == |more|
    requires Row(more, Id(at.peer, at.counter + |Joined(ops)|), lamport + |Joined(ops)|)
    ensures Joined(PushAll(ops, more, folds)) == Joined(ops) + Joined(more)
    ensures Row(PushAll(ops, more, folds), at, lamport)
    ensures ops != [] || more != [] ==> PushAll(ops, more, folds) != []
  {
    hide Atoms, Push;
    if more != [] {
      var m := |more| - 1;
      PushAllJoins(ops, more[..m], folds[..m], at, lamport);
      PushJoins(PushAll(ops, more[..m], folds[..m]), more[m], folds[m], at, lamport);
    }
  }

  /** b starts at the counter where a ends, and its single dep is by the same author. */
  predicate MayMerge(a: Change, b: Change) {
    b.id.peer == a.id.peer && b.id.counter == ChangeEnd(a) && |b.deps| == 1 && b.deps[0].peer == a.id.peer
  }

  /** An honest continuation: such a dep is the atom just before, one lamport lower. */
  predicate Continues(a: Change, b: Change) {
    MayMerge(a, b) ==> b.deps == [LastId(a)] && b.lamport == a.lamport + |Entries(a)|
  }

  /** b merged into a, its ops pushed one by one. */
  function Merged(a: Change, b: Change, folds: seq<bool>): Change
    requires |folds| == |b.ops|
  {
    a.(ops := PushAll(a.ops, b.ops, folds))
  }

  /** Merging changes joins their atoms, however their ops fold. */
  lemma {:induction false} MergeJoins(a: Change, b: Change, folds: seq<bool>)
    requires Formed(a) && Formed(b) && MayMerge(a, b) && Continues(a, b) && |folds| == |b.ops|
    ensures Formed(Merged(a, b, folds)) && Entries(Merged(a, b, folds)) == Entries(a) + Entries(b)
    ensures ChangeEnd(Merged(a, b, folds)) == ChangeEnd(b)
  {
    hide Row, Joined, PushAll, Entries, IdSet;
    FormedSize(a);
    EntryCount(a);
    EntryCount(b);
    PushAllJoins(a.ops, b.ops, folds, a.id, a.lamport);
    var c := Merged(a, b, folds);
    EntryCount(c);
    forall k | 0 <= k < |Entries(a)| + |Entries(b)| ensures Entries(c)[k] == (Entries(a) + Entries(b))[k] {
      EntryAt(c, k);
      if k < |Entries(a)| {
        EntryAt(a, k);
      } else {
        EntryAt(b, k - |Entries(a)|);
        OneId(b.deps[0]);
      }
    }
  }
}
