/** Blocks of changes of one peer, and the log of atoms they stand for. */
module Blocks {
  import opened Common
  import opened SeqTypes
  import opened CausalHistory
  import opened IdLists
  import opened Ops
  import opened Folding
  import opened Changes

  const BLOCK_LIMIT := 4096

  /** Bytes of a code point in UTF-8. */
  function Utf8(v: Value): nat {
    if v < 0x80 then 1 else if v < 0x800 then 2 else if v < 0x1_0000 then 3 else 4
  }

  function Utf8Size(items: seq<Value>): (n: nat)
    ensures n >= |items|
  {
    if items == [] then 0 else Utf8Size(items[..|items| - 1]) + Utf8(items[|items| - 1])
  }

  function ItemsSize(kind: Kind, items: seq<Value>): nat { if kind == Text then Utf8Size(items) else 4 * |items| }

  /** The byte count a block's fill is reckoned in, op by op. */
  function StoredOpSize(op: Op): nat {
    match op.cont.kind
    case Map => 3
    case Tree => 8
    case Counter => 4
    case _ =>
      match op.body
      case Items(items) => ItemsSize(op.cont.kind, items)
      case DeleteSeq(_) => 8
      case ListMove(_, _) => 8
      case ListSet(_, _) => 7
      case MarkStart(_) => 10
      case _ => 1
  }

  function BaseSize(deps: seq<Id>): nat { 4 + (Max(|deps|, 1) - 1) * 4 }

  function OpsSize(ops: seq<Op>): nat {
    if ops == [] then 0 else OpsSize(ops[..|ops| - 1]) + StoredOpSize(ops[|ops| - 1])
  }

  /** The longest proper prefix of an insert, in atoms, that `room` bytes can take; None for an op that cannot be
      divided. */
  function FitsIn(op: Op, room: int): Option<int> {
    if StoredOpSize(op) <= room || !op.body.Items? then None
    else Some(Min(if op.cont.kind == Text then room else room / 4, op.len))
  }

  /** Part of a peer's log as stored: changes that follow each other, and their summed size. */
  datatype Block = Block(changes: seq<Change>, size: int, end: int)

  ghost function Flat(blocks: seq<Block>): seq<Change> {
    if blocks == [] then [] else Flat(blocks[..|blocks| - 1]) + blocks[|blocks| - 1].changes
  }

  /** The atoms of changes one after another. */
  ghost function LogOf(cs: seq<Change>): seq<Entry> {
    if cs == [] then [] else LogOf(cs[..|cs| - 1]) + Entries(cs[|cs| - 1])
  }

  /** Where a list of changes starts. */
  ghost function Origin(cs: seq<Change>): int { if cs == [] then 0 else cs[0].id.counter }

  /** Changes of peer p, each starting where the one before ends. */
  ghost predicate Consecutive(cs: seq<Change>, p: nat) {
    && (forall i :: 0 <= i < |cs| ==> Formed(cs[i]) && cs[i].id.peer == p)
    && (forall i :: 0 < i < |cs| ==> Next(cs[i - 1], cs[i]))
  }

  ghost predicate Next(a: Change, b: Change) { b.id.counter == ChangeEnd(a) }

  ghost predicate BlockRight(b: Block) {
    b.changes != [] && b.end == ChangeEnd(b.changes[|b.changes| - 1])
  }

  ghost predicate BlocksRight(blocks: seq<Block>, p: nat) {
    && blocks != [] && (forall b :: b in blocks ==> BlockRight(b))
    && Consecutive(Flat(blocks), p)
  }

  /** c can go after a log that ends with `last`: a dep on its own peer is the atom just before. */
  ghost predicate Follows(c: Change, last: Entry) {
    |c.deps| == 1 && c.deps[0].peer == c.id.peer ==>
      c.deps == [Id(c.id.peer, c.id.counter - 1)] && c.lamport == last.lamport + 1
  }

  // ----- lists of changes -----

  lemma {:induction false} LogStep(cs: seq<Change>, c: Change)
    ensures LogOf(cs + [c]) == LogOf(cs) + Entries(c)
  {
    assert (cs + [c])[..|cs|] == cs;
  }

  lemma {:induction false} LogConcat(a: seq<Change>, b: seq<Change>)
    ensures LogOf(a + b) == LogOf(a) + LogOf(b)
  {
    hide Entries;
    if b == [] {
      assert a + b == a;
    } else {
      var m := |b| - 1;
      assert (a + b)[..|a| + m] == a + b[..m];
      LogConcat(a, b[..m]);
    }
  }

  lemma {:induction false} FlatStep(blocks: seq<Block>, b: Block)
    ensures Flat(blocks + [b]) == Flat(blocks) + b.changes
  {
    assert (blocks + [b])[..|blocks|] == blocks;
  }

  lemma {:induction false} LogEnd(cs: seq<Change>, p: nat)
    requires Consecutive(cs, p) && cs != []
    ensures ChangeEnd(cs[|cs| - 1]) == cs[0].id.counter + |LogOf(cs)|
    ensures LogOf(cs) != [] && LogOf(cs)[|LogOf(cs)| - 1] == Entries(cs[|cs| - 1])[|Entries(cs[|cs| - 1])| - 1]
  {
    hide Formed, Entries, Joined;
    var m := |cs| - 1;
    FormedSize(cs[m]);
    EntryCount(cs[m]);
    if m > 0 {
      assert Next(cs[m - 1], cs[m]);
      ConsecutiveStart(cs, p);
      LogEnd(cs[..m], p);
    } else {
      assert LogOf(cs[..0]) == [];
    }
  }

  lemma {:induction false} ConsecutiveStart(cs: seq<Change>, p: nat)
    requires Consecutive(cs, p) && cs != []
    ensures Consecutive(cs[..|cs| - 1], p)
  {
    hide Formed, Next;
    var t := cs[..|cs| - 1];
    forall i | 0 < i < |t| ensures Next(t[i - 1], t[i]) { assert Next(cs[i - 1], cs[i]); }
  }

  lemma {:induction false} ConsecutiveAdd(cs: seq<Change>, c: Change, p: nat)
    requires Consecutive(cs, p) && Formed(c) && c.id.peer == p
    requires cs != [] ==> Next(cs[|cs| - 1], c)
    ensures Consecutive(cs + [c], p)
  {
    hide Formed, Next;
    var t := cs + [c];
    forall i | 0 < i < |t| ensures Next(t[i - 1], t[i]) {
      if i < |cs| { assert t[i - 1] == cs[i - 1] && t[i] == cs[i] && Next(cs[i - 1], cs[i]); }
      else { assert t[i - 1] == cs[|cs| - 1]; }
    }
  }

  /** Replacing the last change by one with more atoms. */
  lemma {:induction false} ReplaceLast(cs: seq<Change>, c: Change, p: nat, more: seq<Entry>)
    requires Consecutive(cs, p) && cs != [] && Formed(c) && c.id == cs[|cs| - 1].id
    requires Entries(c) == Entries(cs[|cs| - 1]) + more
    ensures Consecutive(cs[..|cs| - 1] + [c], p) && LogOf(cs[..|cs| - 1] + [c]) == LogOf(cs) + more
  {
    hide Formed, Entries;
    var m := |cs| - 1;
    ConsecutiveStart(cs, p);
    if m > 0 { assert Next(cs[m - 1], cs[m]); }
    ConsecutiveAdd(cs[..m], c, p);
    LogStep(cs[..m], c);
  }

  // ----- blocks -----

  lemma {:induction false} FlatLast(blocks: seq<Block>)
    requires blocks != [] && BlockRight(blocks[|blocks| - 1])
    ensures var b := blocks[|blocks| - 1]; var f := Flat(blocks);
      f != [] && f[|f| - 1] == b.changes[|b.changes| - 1]
      && f[..|f| - 1] == Flat(blocks[..|blocks| - 1]) + b.changes[..|b.changes| - 1]
  {
  }

  /** The end of a peer's last block is the end of its log. */
  lemma {:induction false} BlocksEnd(blocks: seq<Block>, p: nat)
    requires BlocksRight(blocks, p)
    ensures blocks != [] && LogOf(Flat(blocks)) != [] && blocks[|blocks| - 1].end == Origin(Flat(blocks)) + |LogOf(Flat(blocks))|
  {
    hide Consecutive;
    var b := blocks[|blocks| - 1];
    assert BlockRight(b);
    FlatLast(blocks);
    LogEnd(Flat(blocks), p);
  }

  /** A change put in a block of its own. */
  lemma {:induction false} NewBlock(blocks: seq<Block>, c: Change, size: nat)
    requires Formed(c) && (blocks == [] || (BlocksRight(blocks, c.id.peer) && c.id.counter == blocks[|blocks| - 1].end))
    ensures var r := blocks + [Block([c], size, ChangeEnd(c))];
      && BlocksRight(r, c.id.peer) && LogOf(Flat(r)) == LogOf(Flat(blocks)) + Entries(c)
      && Origin(Flat(r)) == (if blocks == [] then c.id.counter else Origin(Flat(blocks)))
  {
    hide Consecutive, Formed, Entries, LogOf;
    var b := Block([c], size, ChangeEnd(c));
    FlatStep(blocks, b);
    LogStep(Flat(blocks), c);
    if blocks == [] {
      NoneConsecutive(c.id.peer);
    } else {
      assert BlockRight(blocks[|blocks| - 1]);
      FlatLast(blocks);
    }
    ConsecutiveAdd(Flat(blocks), c, c.id.peer);
  }

  lemma {:induction false} NoneConsecutive(p: nat)
    ensures Consecutive([], p)
  {
  }

  /** A change put in the last block, merged into its last change or after it. */
  ghost predicate Pushed(b: Block, c: Change, r: Block) {
    var m := |b.changes| - 1;
    && b.changes != [] && r.end == ChangeEnd(c)
    && (r.changes == b.changes + [c]
        || exists d :: MergedInto(b.changes[m], c, d) && r.changes == b.changes[..m] + [d])
  }

  ghost predicate MergedInto(a: Change, c: Change, d: Change) {
    Formed(d) && d.id == a.id && Entries(d) == Entries(a) + Entries(c) && ChangeEnd(d) == ChangeEnd(c)
  }

  lemma {:induction false} PushedBlocks(blocks: seq<Block>, c: Change, r: Block)
    requires blocks != [] && BlocksRight(blocks, c.id.peer) && Formed(c) && c.id.counter == blocks[|blocks| - 1].end
    requires Pushed(blocks[|blocks| - 1], c, r)
    ensures var n := blocks[..|blocks| - 1] + [r];
      BlocksRight(n, c.id.peer) && LogOf(Flat(n)) == LogOf(Flat(blocks)) + Entries(c) && Origin(Flat(n)) == Origin(Flat(blocks))
  {
    hide Consecutive, Formed, Entries, LogOf, Flat;
    var b, m := blocks[|blocks| - 1], |blocks| - 1;
    var f := Flat(blocks);
    assert BlockRight(b);
    FlatLast(blocks);
    FlatStep(blocks[..m], r);
    if r.changes == b.changes + [c] {
      assert blocks == blocks[..m] + [b];
      FlatStep(blocks[..m], b);
      assert Flat(blocks[..m]) + r.changes == f + [c];
      ConsecutiveAdd(f, c, c.id.peer);
      LogStep(f, c);
    } else {
      var d :| MergedInto(b.changes[|b.changes| - 1], c, d) && r.changes == b.changes[..|b.changes| - 1] + [d];
      assert Flat(blocks[..m]) + r.changes == f[..|f| - 1] + [d];
      ReplaceLast(f, d, c.id.peer, Entries(c));
    }
    assert forall x :: x in blocks[..m] ==> x in blocks;
  }

  /** The last change of a peer. */
  ghost function LastChange(blocks: seq<Block>): Change
    requires blocks != [] && blocks[|blocks| - 1].changes != []
  {
    var b := blocks[|blocks| - 1];
    b.changes[|b.changes| - 1]
  }

  lemma {:induction false} LastIs(blocks: seq<Block>, p: nat)
    requires BlocksRight(blocks, p)
    ensures blocks != [] && BlockRight(blocks[|blocks| - 1])
    ensures Flat(blocks) != [] && LastChange(blocks) == Flat(blocks)[|Flat(blocks)| - 1]
    ensures Formed(LastChange(blocks)) && LastChange(blocks).id.peer == p
  {
    hide Formed, Next, Flat;
    assert BlockRight(blocks[|blocks| - 1]);
    FlatLast(blocks);
  }

  /** The last atom of a peer's log is that of its last change. */
  lemma {:induction false} PeerEnd(blocks: seq<Block>, p: nat)
    requires BlocksRight(blocks, p)
    ensures blocks != [] && BlockRight(blocks[|blocks| - 1])
    ensures var last := LastChange(blocks); var l := LogOf(Flat(blocks));
      && l != [] && blocks[|blocks| - 1].end == Origin(Flat(blocks)) + |l|
      && Formed(last) && last.id.peer == p && Entries(last) != [] && l[|l| - 1] == Entries(last)[|Entries(last)| - 1]
  {
    hide Formed, Entries, LogOf, Flat, Origin, Consecutive;
    BlocksEnd(blocks, p);
    LastIs(blocks, p);
    FlatRight(blocks, p);
    LogEnd(Flat(blocks), p);
    FormedSize(LastChange(blocks));
  }

  lemma {:induction false} FlatRight(blocks: seq<Block>, p: nat)
    requires BlocksRight(blocks, p)
    ensures Consecutive(Flat(blocks), p) && forall b :: b in blocks ==> BlockRight(b)
  {
  }

  /** A change that may follow the log continues the last change. */
  lemma {:induction false} FollowsContinues(a: Change, c: Change)
    requires Formed(a) && Entries(a) != [] && a.id.peer == c.id.peer && c.id.counter == ChangeEnd(a)
    requires Follows(c, Entries(a)[|Entries(a)| - 1])
    ensures Continues(a, c)
  {
    EntryAt(a, |Entries(a)| - 1);
  }

  /** The change is one op that may fold into a's last one. */
  predicate FoldsIn(a: Change, c: Change) {
    MayMerge(a, c) && |c.ops| == 1 && a.ops != [] && MayFold(a.ops[|a.ops| - 1], c.ops[0])
  }

  /** Puts a change in a block while it has room, merging it into the last change where loro would.
      Timestamps, commit messages and where values lie decide whether loro does. */
  method PushInto(b: Block, c: Change, size: nat) returns (ok: bool, r: Block)
    requires BlockRight(b) && Formed(c) && c.id.counter == b.end
    requires var last := b.changes[|b.changes| - 1];
      Formed(last) && last.id.peer == c.id.peer && Continues(last, c)
    ensures ok ==> Pushed(b, c, r)
    ensures size + b.size <= BLOCK_LIMIT ==> ok
    ensures size + b.size > BLOCK_LIMIT && ok ==> |r.changes| == |b.changes| && FoldsIn(b.changes[|b.changes| - 1], c)
    ensures !ok ==> r == b
  {
    hide Formed, Entries, Continues;
    var full := size + b.size > BLOCK_LIMIT;
    var m := |b.changes| - 1;
    var last := b.changes[m];
    var near: bool := *;
    var fold: bool := *;
    NotEmpty(last);
    NotEmpty(c);
    if near && MayMerge(last, c) && (!full || (|c.ops| == 1 && fold && MayFold(last.ops[|last.ops| - 1], c.ops[0]))) {
      ghost var folds: seq<bool> := [];
      var ops, added := last.ops, 0;
      for i := 0 to |c.ops|
        invariant |folds| == i && ops == PushAll(last.ops, c.ops[..i], folds)
      {
        if i > 0 { fold := *; }
        var op := c.ops[i];
        if !(fold && ops != [] && MayFold(ops[|ops| - 1], op)) { added := added + StoredOpSize(op); }
        ops := Push(ops, op, fold);
        PushAllStep(last.ops, c.ops, folds, i, fold);
        folds := folds + [fold];
      }
      assert c.ops[..|c.ops|] == c.ops;
      MergeJoins(last, c, folds);
      var d := last.(ops := ops);
      assert MergedInto(last, c, d);
      return true, Block(b.changes[..m] + [d], b.size + added, ChangeEnd(c));
    }
    if full { return false, b; }
    return true, Block(b.changes + [c], b.size + size, ChangeEnd(c));
  }

  lemma {:induction false} NotEmpty(c: Change)
    requires Formed(c)
    ensures c.ops != []
  {
  }

  lemma {:induction false} PushAllStep(ops: seq<Op>, more: seq<Op>, folds: seq<bool>, i: nat, fold: bool)
    requires i < |more| && |folds| == i
    ensures PushAll(ops, more[..i + 1], folds + [fold]) == Push(PushAll(ops, more[..i], folds), more[i], fold)
  {
    assert more[..i + 1][..i] == more[..i] && (folds + [fold])[..i] == folds;
  }
}
