/** Gathering a history's ops by container: every atom once, however copies of changes overlap. */
module Collect {
  import opened Common
  import opened SeqTypes
  import opened CausalHistory
  import opened IdLists
  import opened Ops
  import opened Folding
  import opened Changes
  import opened LogHistory
  import opened Ranges

  /** Ops are told apart by peer, container and kind of value, and by the counters they take. */
  datatype SpanKey = SpanKey(peer: nat, cont: Value, kind: nat)

  function KindOf(body: Body): nat {
    match body
    case Items(_) => 0
    case MarkStart(_) => 1
    case MarkEnd => 2
    case DeleteSeq(_) => 3
    case ListMove(_, _) => 4
    case ListSet(_, _) => 5
    case Other(_) => 6
  }

  function KeyOf(op: Op): SpanKey { SpanKey(op.id.peer, op.cont.name, KindOf(op.body)) }

  ghost function KeyAt(w: World, x: Id): SpanKey
    requires x in w.does
  {
    match w.does[x]
    case Item(cont, _, _) => SpanKey(x.peer, cont.name, 0)
    case Del(cont, _, _) => SpanKey(x.peer, cont.name, 3)
    case Whole(cont, _, body) => SpanKey(x.peer, cont.name, KindOf(body))
  }

  /** An op whose atoms are the history's. */
  ghost predicate ToldOp(w: World, op: Op) {
    && RightLen(op) && op.id.counter >= 0
    && forall k :: 0 <= k < op.len ==> ToldAt(w, op, k)
  }

  ghost predicate ToldAt(w: World, op: Op, k: nat)
    requires k < |Atoms(op)|
  {
    var x := Id(op.id.peer, op.id.counter + k);
    && x in w.h && x in w.does && w.does[x] == Atoms(op)[k] && w.h[x].lamport == op.lamport + k
    && (k > 0 ==> w.h[x].deps == {Prev(x)})
  }

  predicate Takes(op: Op, x: Id) { InAtoms(x, op.id, op.len) }

  ghost predicate Taken(ops: seq<Op>, x: Id) { exists i :: 0 <= i < |ops| && Takes(ops[i], x) }

  /** No atom is in two of the ops. */
  ghost predicate TakenOnce(ops: seq<Op>) {
    forall i, j, x :: 0 <= i < j < |ops| && Takes(ops[i], x) ==> !Takes(ops[j], x)
  }

  lemma {:induction false} KeyTold(w: World, op: Op, x: Id)
    requires ToldOp(w, op) && Takes(op, x)
    ensures x in w.h && x in w.does && KeyAt(w, x) == KeyOf(op)
  {
    assert ToldAt(w, op, x.counter - op.id.counter);
  }

  /** The atoms of the change's i-th op are the history's. */
  lemma {:induction false} OpTold(w: World, c: Change, i: nat)
    requires Told(w, c) && i < |c.ops|
    ensures ToldOp(w, c.ops[i])
    ensures forall x :: Takes(c.ops[i], x) ==> Within(c, x)
  {
    hide Entries, Atoms, Joined, Row;
    var op := c.ops[i];
    OpPlace(c, i);
    EntryCount(c);
    var n := |Joined(c.ops[..i])|;
    forall k | 0 <= k < op.len ensures ToldAt(w, op, k) {
      EntryAt(c, n + k);
      assert ToldAtom(w, c, n + k);
      assert Joined(c.ops)[n..n + op.len][k] == Joined(c.ops)[n + k];
    }
  }

  /** A change's atoms are those of its ops. */
  lemma {:induction false} WithinOp(c: Change, x: Id) returns (i: nat)
    requires Formed(c) && Within(c, x)
    ensures i < |c.ops| && Takes(c.ops[i], x)
  {
    hide Atoms;
    i := RowHolds(c.ops, c.id, c.lamport, x);
  }

  lemma {:induction false} RowHolds(ops: seq<Op>, at: Id, lamport: int, x: Id) returns (i: nat)
    requires Row(ops, at, lamport) && x.peer == at.peer && at.counter <= x.counter < at.counter + |Joined(ops)|
    ensures i < |ops| && Takes(ops[i], x)
  {
    hide Atoms;
    var m := |ops| - 1;
    if x.counter >= ops[m].id.counter { i := m; } else { i := RowHolds(ops[..m], at, lamport, x); }
  }

  // ----- clipping to what is new -----

  lemma {:induction false} ClipTold(w: World, op: Op, r: Range)
    requires ToldOp(w, op) && op.id.counter <= r.start < r.end <= op.id.counter + op.len
    ensures var c := Clip(op, r.start - op.id.counter, r.end - r.start);
      && c.Some? && ToldOp(w, c.value) && c.value.cont == op.cont && KeyOf(c.value) == KeyOf(op)
      && c.value.id == Id(op.id.peer, r.start) && c.value.len == r.end - r.start
  {
    hide Atoms;
    var off, n := r.start - op.id.counter, r.end - r.start;
    ClipKeeps(op, off, n);
    ClipKind(op, off, n);
    var c := Clip(op, off, n).value;
    forall k | 0 <= k < n ensures ToldAt(w, c, k) {
      assert ToldAt(w, op, off + k);
      assert Atoms(op)[off..off + n][k] == Atoms(op)[off + k];
    }
  }

  lemma {:induction false} ClipKind(op: Op, off: int, n: int)
    requires Clip(op, off, n).Some?
    ensures KindOf(Clip(op, off, n).value.body) == KindOf(op.body)
  {
  }

  /** The atoms seen so far are just those the ranges of their key cover. */
  ghost predicate Consumed(w: World, consumed: map<SpanKey, seq<Range>>, seen: set<Id>) {
    && (forall x :: x in seen ==> x in w.h && x in w.does)
    && (forall key :: key in consumed ==> Neat(consumed[key]))
    && (forall key, k :: IsConsumed(consumed, key, k) <==> IsSeen(w, seen, key, k))
  }

  ghost predicate IsConsumed(consumed: map<SpanKey, seq<Range>>, key: SpanKey, k: int) {
    key in consumed && Covered(consumed[key], k)
  }

  ghost predicate IsSeen(w: World, seen: set<Id>, key: SpanKey, k: int) {
    var x := Id(key.peer, k);
    x in seen && x in w.does && KeyAt(w, x) == key
  }

  ghost function OpAtoms(op: Op): set<Id> { set k | op.id.counter <= k < op.id.counter + op.len :: Id(op.id.peer, k) }

  /** ops hold each atom of `seen` exactly once, as the history has it. */
  ghost predicate Kept(w: World, ops: seq<Op>, seen: set<Id>) {
    && (forall i :: 0 <= i < |ops| ==> ToldOp(w, ops[i]))
    && TakenOnce(ops) && forall x :: Taken(ops, x) <==> x in seen
  }

  lemma {:induction false} ConsumedMore(w: World, consumed: map<SpanKey, seq<Range>>, seen: set<Id>, op: Op, now: seq<Range>)
    requires Consumed(w, consumed, seen) && ToldOp(w, op)
    requires Union(if KeyOf(op) in consumed then consumed[KeyOf(op)] else [], Range(op.id.counter, op.id.counter + op.len), now)
    ensures Consumed(w, consumed[KeyOf(op) := now], seen + OpAtoms(op))
  {
    hide ToldOp, Neat, Covered;
    var key, after, more := KeyOf(op), consumed[KeyOf(op) := now], seen + OpAtoms(op);
    forall x | x in more ensures x in w.h && x in w.does { if x !in seen { KeyTold(w, op, x); } }
    forall q, k ensures IsConsumed(after, q, k) <==> IsSeen(w, more, q, k) {
      assert IsConsumed(consumed, q, k) <==> IsSeen(w, seen, q, k);
      var x := Id(q.peer, k);
      if Takes(op, x) { KeyTold(w, op, x); }
      if q == key && key !in consumed { NoneCovered(k); }
    }
  }

  /** The clipped parts of one op. */
  ghost predicate Parts(w: World, op: Op, ranges: seq<Range>, ops: seq<Op>) {
    && |ops| == |ranges|
    && forall i :: 0 <= i < |ops| ==> PartOf(w, op, ranges[i], ops[i])
  }

  ghost predicate PartOf(w: World, op: Op, r: Range, part: Op) {
    ToldOp(w, part) && part.cont == op.cont && part.id == Id(op.id.peer, r.start) && part.len == r.end - r.start
  }

  lemma {:induction false} PartTakes(w: World, op: Op, r: Range, part: Op, x: Id)
    requires PartOf(w, op, r, part)
    ensures Takes(part, x) <==> x.peer == op.id.peer && In(r, x.counter)
  {
  }

  lemma {:induction false} PartsTake(w: World, op: Op, ranges: seq<Range>, ops: seq<Op>, x: Id)
    requires Parts(w, op, ranges, ops)
    ensures Taken(ops, x) <==> x.peer == op.id.peer && Covered(ranges, x.counter)
  {
    hide PartOf, Takes, In;
    if i :| 0 <= i < |ops| && Takes(ops[i], x) { PartTakes(w, op, ranges[i], ops[i], x); }
    if x.peer == op.id.peer && Covered(ranges, x.counter) {
      var i :| 0 <= i < |ranges| && In(ranges[i], x.counter);
      PartTakes(w, op, ranges[i], ops[i], x);
    }
  }

  lemma {:induction false} PartsOnce(w: World, op: Op, ranges: seq<Range>, ops: seq<Op>, lo: int, hi: int)
    requires Parts(w, op, ranges, ops) && Ascending(ranges, lo, hi)
    ensures TakenOnce(ops)
  {
    hide PartOf, Takes;
    forall i, j, x | 0 <= i < j < |ops| && Takes(ops[i], x) ensures !Takes(ops[j], x) {
      PartTakes(w, op, ranges[i], ops[i], x);
      PartTakes(w, op, ranges[j], ops[j], x);
    }
  }

  lemma {:induction false} OnceConcat(a: seq<Op>, b: seq<Op>)
    requires TakenOnce(a) && TakenOnce(b) && forall x :: Taken(a, x) ==> !Taken(b, x)
    ensures TakenOnce(a + b)
  {
    hide Takes;
    var s := a + b;
    forall i, j, x | 0 <= i < j < |s| && Takes(s[i], x) ensures !Takes(s[j], x) {
      if j < |a| { assert s[i] == a[i] && s[j] == a[j]; }
      else if i >= |a| { assert s[i] == b[i - |a|] && s[j] == b[j - |a|]; }
      else { assert Taken(a, x) by { assert Takes(a[i], x); } assert s[j] == b[j - |a|]; }
    }
  }

  lemma {:induction false} TakenConcat(a: seq<Op>, b: seq<Op>, x: Id)
    ensures Taken(a + b, x) <==> Taken(a, x) || Taken(b, x)
  {
    hide Takes;
    var s := a + b;
    if i :| 0 <= i < |a| && Takes(a[i], x) { assert s[i] == a[i]; }
    if i :| 0 <= i < |b| && Takes(b[i], x) { assert s[|a| + i] == b[i]; }
  }

  /** The new parts of an op bring exactly its atoms not seen before. */
  lemma {:induction false} KeptMore(w: World, consumed: map<SpanKey, seq<Range>>, seen: set<Id>, ops: seq<Op>, op: Op,
                                    ranges: seq<Range>, parts: seq<Op>)
    requires Consumed(w, consumed, seen) && Kept(w, ops, seen) && ToldOp(w, op) && Parts(w, op, ranges, parts)
    requires Left(if KeyOf(op) in consumed then consumed[KeyOf(op)] else [], Range(op.id.counter, op.id.counter + op.len), ranges)
    ensures Kept(w, ops + parts, seen + OpAtoms(op))
  {
    hide ToldOp, Takes, Taken, TakenOnce, PartOf, Ascending, Covered;
    PartsOnce(w, op, ranges, parts, op.id.counter, op.id.counter + op.len);
    forall x ensures Taken(parts, x) <==> x in OpAtoms(op) && x !in seen { NewPart(w, consumed, seen, op, ranges, parts, x); }
    OnceConcat(ops, parts);
    forall x ensures Taken(ops + parts, x) <==> x in seen + OpAtoms(op) { TakenConcat(ops, parts, x); }
    var all := ops + parts;
    forall i | 0 <= i < |all| ensures ToldOp(w, all[i]) {
      if i >= |ops| { PartTold(w, op, ranges, parts, i - |ops|); }
    }
  }

  lemma {:induction false} PartTold(w: World, op: Op, ranges: seq<Range>, parts: seq<Op>, i: nat)
    requires Parts(w, op, ranges, parts) && i < |parts|
    ensures ToldOp(w, parts[i])
  {
  }

  lemma {:induction false} NewPart(w: World, consumed: map<SpanKey, seq<Range>>, seen: set<Id>, op: Op, ranges: seq<Range>, parts: seq<Op>, x: Id)
    requires Consumed(w, consumed, seen) && ToldOp(w, op) && Parts(w, op, ranges, parts)
    requires Left(if KeyOf(op) in consumed then consumed[KeyOf(op)] else [], Range(op.id.counter, op.id.counter + op.len), ranges)
    ensures Taken(parts, x) <==> x in OpAtoms(op) && x !in seen
  {
    hide ToldOp, Taken, PartOf, Ascending, Covered, Neat;
    PartsTake(w, op, ranges, parts, x);
    var key := KeyOf(op);
    assert x in OpAtoms(op) <==> Takes(op, x);
    if Takes(op, x) {
      KeyTold(w, op, x);
      assert IsConsumed(consumed, key, x.counter) <==> IsSeen(w, seen, key, x.counter);
      NoneCovered(x.counter);
    }
  }

  /** The parts of an op not consumed yet. */
  method FreshParts(ghost w: World, op: Op, ranges: seq<Range>) returns (parts: seq<Op>)
    requires ToldOp(w, op) && Ascending(ranges, op.id.counter, op.id.counter + op.len)
    ensures Parts(w, op, ranges, parts)
  {
    hide ToldOp, Clip, RightLen;
    parts := [];
    for i := 0 to |ranges|
      invariant Parts(w, op, ranges[..i], parts)
    {
      var r := ranges[i];
      ClipTold(w, op, r);
      var clipped := Clip(op, r.start - op.id.counter, r.end - r.start);
      assert ranges[..i + 1] == ranges[..i] + [r];
      parts := parts + [clipped.value];
    }
    assert ranges[..|ranges|] == ranges;
  }

  // ----- the whole history -----

  function Filter(ops: seq<Op>, key: ContKey): seq<Op> {
    if ops == [] then []
    else
      var op := ops[|ops| - 1];
      Filter(ops[..|ops| - 1], key) + if op.cont == key then [op] else []
  }

  lemma {:induction false} FilterStep(ops: seq<Op>, op: Op, key: ContKey)
    ensures Filter(ops + [op], key) == Filter(ops, key) + if op.cont == key then [op] else []
  {
    assert (ops + [op])[..|ops|] == ops;
  }

  /** Each container's kept ops, in arrival order, and the containers in order of first appearance. */
  ghost predicate Sorted(conts: map<ContKey, seq<Op>>, order: seq<ContKey>, ops: seq<Op>) {
    && (forall key :: key in conts <==> key in order)
    && (forall i, j :: 0 <= i < j < |order| ==> order[i] != order[j])
    && (forall key :: if key in conts then conts[key] == Filter(ops, key) && conts[key] != [] else Filter(ops, key) == [])
  }

  lemma {:induction false} SortedMore(conts: map<ContKey, seq<Op>>, order: seq<ContKey>, ops: seq<Op>, op: Op)
    requires Sorted(conts, order, ops)
    ensures var had := op.cont in conts;
      Sorted(conts[op.cont := (if had then conts[op.cont] else []) + [op]], if had then order else order + [op.cont], ops + [op])
  {
    hide Filter;
    forall key ensures Filter(ops + [op], key) == Filter(ops, key) + (if op.cont == key then [op] else []) { FilterStep(ops, op, key); }
  }

  datatype Collected = Collected(conts: map<ContKey, seq<Op>>, order: seq<ContKey>, copies: seq<SeqChange>, units: seq<SeqChange>)

  /** The kept ops of all copies, in arrival order. */
  ghost function News(copies: seq<SeqChange>): seq<Op> {
    if copies == [] then [] else News(copies[..|copies| - 1]) + copies[|copies| - 1].news
  }

  lemma {:induction false} NewsStep(copies: seq<SeqChange>, c: SeqChange)
    ensures News(copies + [c]) == News(copies) + c.news
  {
    assert (copies + [c])[..|copies|] == copies;
  }

  /** A copy as it arrived, with those of its ops no earlier copy brought. */
  ghost predicate CopyOf(w: World, c: Change, sc: SeqChange) {
    && sc.ch == c && sc.start == c.id.counter && sc.end == ChangeEnd(c)
    && forall op :: op in sc.news ==> ToldOp(w, op) && op.id.peer == c.id.peer && c.id.counter <= op.id.counter && op.id.counter + op.len <= ChangeEnd(c)
  }

  ghost predicate CopiesOf(w: World, changes: seq<Change>, copies: seq<SeqChange>) {
    |copies| == |changes| && forall i :: 0 <= i < |copies| ==> CopyOf(w, changes[i], copies[i])
  }

  ghost function AtomsOf(changes: seq<Change>): set<Id> {
    if changes == [] then {} else AtomsOf(changes[..|changes| - 1]) + ChangeAtoms(changes[|changes| - 1])
  }

  ghost function ChangeAtoms(c: Change): set<Id> { set k | c.id.counter <= k < ChangeEnd(c) :: Id(c.id.peer, k) }

  /** The units are the copies that brought something, in order. */
  ghost predicate UnitsOf(copies: seq<SeqChange>, units: seq<SeqChange>) {
    News(units) == News(copies) && forall u :: u in units ==> u in copies
  }

  /** Atoms of the first n ops of a change. */
  ghost function OpsAtoms(c: Change, n: nat): set<Id>
    requires n <= |c.ops|
  {
    if n == 0 then {} else OpsAtoms(c, n - 1) + OpAtoms(c.ops[n - 1])
  }

  lemma {:induction false} OpsAtomsAre(c: Change, n: nat, x: Id)
    requires n <= |c.ops|
    ensures x in OpsAtoms(c, n) <==> exists i :: 0 <= i < n && Takes(c.ops[i], x)
    decreases n
  {
    hide Takes, OpAtoms;
    if n > 0 {
      OpsAtomsAre(c, n - 1, x);
      OpAtomsAre(c.ops[n - 1], x);
    }
  }

  lemma {:induction false} OpAtomsAre(op: Op, x: Id)
    ensures x in OpAtoms(op) <==> Takes(op, x)
  {
  }

  lemma {:induction false} AllOps(w: World, c: Change)
    requires Told(w, c)
    ensures OpsAtoms(c, |c.ops|) == ChangeAtoms(c)
  {
    hide Told, Takes, OpsAtoms;
    ToldFormed(w, c);
    forall x ensures x in OpsAtoms(c, |c.ops|) <==> x in ChangeAtoms(c) {
      OpsAtomsAre(c, |c.ops|, x);
      ChangeAtomsAre(c, x);
      if i :| 0 <= i < |c.ops| && Takes(c.ops[i], x) { OpTold(w, c, i); }
      if Within(c, x) { var i := WithinOp(c, x); }
    }
  }

  lemma {:induction false} ToldFormed(w: World, c: Change)
    requires Told(w, c)
    ensures Formed(c)
  {
  }

  lemma {:induction false} ChangeAtomsAre(c: Change, x: Id)
    ensures x in ChangeAtoms(c) <==> Within(c, x)
  {
  }

  class Collector {
    ghost const w: World
    var consumed: map<SpanKey, seq<Range>>
    var conts: map<ContKey, seq<Op>>
    var order: seq<ContKey>
    ghost var seen: set<Id>
    ghost var ops: seq<Op>

    ghost predicate Valid()
      reads this
    {
      Consumed(w, consumed, seen) && Kept(w, ops, seen) && Sorted(conts, order, ops)
    }

    constructor (ghost w: World)
      ensures Valid() && this.w == w && seen == {} && ops == []
    {
      this.w, consumed, conts, order, seen, ops := w, map[], map[], [], {}, [];
    }

    /** Files a kept op under its container. */
    method File(op: Op)
      requires Sorted(conts, order, ops)
      modifies this`conts, this`order, this`ops
      ensures ops == old(ops) + [op] && Sorted(conts, order, ops)
    {
      hide Sorted;
      SortedMore(conts, order, ops, op);
      if op.cont in conts {
        conts := conts[op.cont := conts[op.cont] + [op]];
      } else {
        conts := conts[op.cont := [] + [op]];
        order := order + [op.cont];
      }
      ops := ops + [op];
    }

    /** Keeps the parts of an op not seen before. */
    method Add(op: Op) returns (parts: seq<Op>)
      requires Valid() && ToldOp(w, op)
      modifies this
      ensures Valid() && seen == old(seen) + OpAtoms(op) && ops == old(ops) + parts
      ensures forall part :: part in parts ==> InOp(w, op, part)
    {
      hide ToldOp, Neat, Covered, Kept, Consumed, Sorted, Left, Union, Ascending, InOp;
      var key, span := KeyOf(op), Range(op.id.counter, op.id.counter + op.len);
      var had := if key in consumed then consumed[key] else [];
      HadNeat(w, consumed, seen, op);
      var ranges := Uncovered(had, span);
      var now := AddRange(had, span);
      LeftAscending(had, span, ranges);
      parts := FreshParts(w, op, ranges);
      KeptMore(w, consumed, seen, ops, op, ranges, parts);
      ConsumedMore(w, consumed, seen, op, now);
      PartsIn(w, op, ranges, parts);
      consumed := consumed[key := now];
      seen := seen + OpAtoms(op);
      ghost var before := ops;
      FileAll(parts);
    }

    method FileAll(parts: seq<Op>)
      requires Sorted(conts, order, ops)
      modifies this`conts, this`order, this`ops
      ensures ops == old(ops) + parts && Sorted(conts, order, ops)
    {
      hide Sorted;
      for i := 0 to |parts|
        invariant Sorted(conts, order, ops) && ops == old(ops) + parts[..i]
      {
        File(parts[i]);
        assert parts[..i + 1] == parts[..i] + [parts[i]];
      }
      assert parts[..|parts|] == parts;
    }

    /** Keeps what a copy of a change brings. */
    method AddChange(c: Change) returns (sc: SeqChange)
      requires Valid() && Told(w, c)
      modifies this
      ensures Valid() && seen == old(seen) + ChangeAtoms(c) && ops == old(ops) + sc.news && CopyOf(w, c, sc)
    {
      hide ToldOp, Told, Kept, Consumed, Sorted, Takes, InChange;
      ToldFormed(w, c);
      var end := CountedEnd(c);
      var news := AddOps(c);
      AllOps(w, c);
      sc := SeqChange(c, c.id.counter, end, news);
      IsCopy(w, c, sc);
    }

    method AddOps(c: Change) returns (news: seq<Op>)
      requires Valid() && Told(w, c)
      modifies this
      ensures Valid() && seen == old(seen) + OpsAtoms(c, |c.ops|) && ops == old(ops) + news
      ensures forall op :: op in news ==> InChange(w, c, op)
    {
      hide ToldOp, Told, Kept, Consumed, Sorted, InOp, Takes, InChange, OpAtoms;
      news := [];
      for i := 0 to |c.ops|
        invariant Valid() && seen == old(seen) + OpsAtoms(c, i) && ops == old(ops) + news
        invariant forall op :: op in news ==> InChange(w, c, op)
      {
        OpTold(w, c, i);
        var parts := Add(c.ops[i]);
        PartsInChange(w, c, i, parts);
        news := news + parts;
      }
    }
  }

  /** A change's end, its ops counted one by one. */
  method CountedEnd(c: Change) returns (end: int)
    requires Formed(c)
    ensures end == ChangeEnd(c)
  {
    hide Formed, Joined;
    end := c.id.counter;
    JoinedNone(c);
    for i := 0 to |c.ops|
      invariant end == c.id.counter + |Joined(c.ops[..i])|
    {
      OpEnd(c, i);
      end := end + c.ops[i].Atoms();
    }
    assert c.ops[..|c.ops|] == c.ops;
  }

  lemma {:induction false} JoinedNone(c: Change)
    ensures |Joined(c.ops[..0])| == 0
  {
  }

  lemma {:induction false} IsCopy(w: World, c: Change, sc: SeqChange)
    requires sc.ch == c && sc.start == c.id.counter && sc.end == ChangeEnd(c) && forall op :: op in sc.news ==> InChange(w, c, op)
    ensures CopyOf(w, c, sc)
  {
    hide ToldOp;
  }

  ghost predicate InOp(w: World, op: Op, part: Op) {
    && ToldOp(w, part) && part.id.peer == op.id.peer && op.id.counter <= part.id.counter
    && part.id.counter + part.len <= op.id.counter + op.len
  }

  ghost predicate InChange(w: World, c: Change, op: Op) {
    ToldOp(w, op) && op.id.peer == c.id.peer && c.id.counter <= op.id.counter && op.id.counter + op.len <= ChangeEnd(c)
  }

  lemma {:induction false} PartsIn(w: World, op: Op, ranges: seq<Range>, parts: seq<Op>)
    requires Parts(w, op, ranges, parts) && Ascending(ranges, op.id.counter, op.id.counter + op.len)
    ensures forall part :: part in parts ==> InOp(w, op, part)
  {
    hide ToldOp;
  }

  lemma {:induction false} PartsInChange(w: World, c: Change, i: nat, parts: seq<Op>)
    requires Told(w, c) && i < |c.ops| && forall part :: part in parts ==> InOp(w, c.ops[i], part)
    ensures forall part :: part in parts ==> InChange(w, c, part)
  {
    hide ToldOp, Atoms, Joined, Row, Entries;
    OpPlace(c, i);
  }

  lemma {:induction false} LeftAscending(have: seq<Range>, want: Range, out: seq<Range>)
    requires Left(have, want, out)
    ensures Ascending(out, want.start, want.end)
  {
  }

  lemma {:induction false} HadNeat(w: World, consumed: map<SpanKey, seq<Range>>, seen: set<Id>, op: Op)
    requires Consumed(w, consumed, seen) && ToldOp(w, op)
    ensures Neat(if KeyOf(op) in consumed then consumed[KeyOf(op)] else []) && op.len >= 1
  {
  }

  lemma {:induction false} OpEnd(c: Change, i: nat)
    requires Formed(c) && i < |c.ops|
    ensures |Joined(c.ops[..i + 1])| == |Joined(c.ops[..i])| + c.ops[i].Atoms()
  {
    hide Atoms;
    OpPlace(c, i);
    assert c.ops[..i + 1] == c.ops[..i] + [c.ops[i]];
    JoinedStep(c.ops[..i], c.ops[i]);
  }

  /** Gathers the ops of all copies: every atom of the input exactly once. */
  method Gather(ghost w: World, changes: seq<Change>) returns (r: Collected)
    requires forall c :: c in changes ==> Told(w, c)
    ensures Kept(w, News(r.copies), AtomsOf(changes))
    ensures Sorted(r.conts, r.order, News(r.copies))
    ensures CopiesOf(w, changes, r.copies) && UnitsOf(r.copies, r.units)
  {
    hide ToldOp, Told, Kept, Consumed, Sorted, CopyOf, UnitsOf, News, CopiesOf, AtomsOf, ChangeAtoms;
    var all := new Collector(w);
    var copies: seq<SeqChange>, units: seq<SeqChange> := [], [];
    NothingYet(w, changes);
    for i := 0 to |changes|
      invariant all.Valid() && fresh(all) && all.w == w && all.seen == AtomsOf(changes[..i]) && all.ops == News(copies)
      invariant CopiesOf(w, changes[..i], copies) && UnitsOf(copies, units)
    {
      var sc := all.AddChange(changes[i]);
      OneMore(w, changes, i, copies, units, sc);
      if |sc.news| > 0 { units := units + [sc]; }
      copies := copies + [sc];
    }
    assert changes[..|changes|] == changes;
    r := Collected(all.conts, all.order, copies, units);
  }

  lemma {:induction false} NothingYet(w: World, changes: seq<Change>)
    ensures AtomsOf(changes[..0]) == {} && News([]) == [] && CopiesOf(w, changes[..0], []) && UnitsOf([], [])
  {
  }

  lemma {:induction false} OneMore(w: World, changes: seq<Change>, i: nat, copies: seq<SeqChange>, units: seq<SeqChange>, sc: SeqChange)
    requires i < |changes| && CopiesOf(w, changes[..i], copies) && UnitsOf(copies, units) && CopyOf(w, changes[i], sc)
    ensures AtomsOf(changes[..i + 1]) == AtomsOf(changes[..i]) + ChangeAtoms(changes[i])
    ensures News(copies + [sc]) == News(copies) + sc.news && CopiesOf(w, changes[..i + 1], copies + [sc])
    ensures UnitsOf(copies + [sc], if |sc.news| > 0 then units + [sc] else units)
  {
    hide CopyOf, ChangeAtoms, News;
    assert changes[..i + 1][..i] == changes[..i];
    NewsStep(copies, sc);
    NewsStep(units, sc);
    var t := copies + [sc];
    forall j | 0 <= j < |t| ensures CopyOf(w, changes[..i + 1][j], t[j]) {
      if j < i { assert changes[..i + 1][j] == changes[..i][j]; }
    }
    if |sc.news| == 0 { assert News(copies) + [] == News(copies); }
  }
}
