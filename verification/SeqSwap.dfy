/** Two ops neither of whose authors had seen the other can be merged in either order. */
module SeqSwap {
  import opened Common
  import opened SeqTypes
  import opened SeqOrder
  import opened SeqInsert
  import opened SeqReference
  import opened SeqEdits
  import opened SeqFits
  import opened SeqPlan
  import opened SeqEffect
  import opened SeqCommute
  import opened SeqApply
  import opened Ops

  /** The author of v has seen none of the op's atoms. */
  ghost predicate Unseen(v: View, op: Op) {
    forall x :: InAtoms(x, op.id, op.len) ==> !v.Has(x)
  }

  // ----- what another author's op leaves alone -----

  ghost predicate MarksFit(marks: Marks, op: Op) {
    match marks
    case NoMarks => true
    case ByRank(_, _, len) => Size(len) <= op.len
    case ByIds(span) => Size(span.len) <= op.len
  }

  lemma {:induction false} TargetIsAtom(marks: Marks, op: Op, x: Id)
    requires MarksFit(marks, op)
    ensures Target(marks, op.id, x).Some? ==> InAtoms(Target(marks, op.id, x).value, op.id, op.len)
  {
  }

  lemma {:induction false} MarksKeepSight(n: seq<Node>, marks: Marks, op: Op, m: seq<Node>, v: View)
    requires MarkedBy(n, marks, op.id, m) && MarksFit(marks, op) && Unseen(v, op)
    ensures Known(m, v) == Known(n, v)
  {
    hide Target, Known;
    forall i | 0 <= i < |n| ensures SameSight(n[i], m[i], v) {
      TargetIsAtom(marks, op, n[i].id);
      MarkSight(n[i], Target(marks, op.id, n[i].id), v);
    }
    KnownMarked(n, m, v);
  }

  lemma {:induction false} MarkSight(n: Node, t: Option<Id>, v: View)
    requires t.Some? ==> !v.Has(t.value)
    ensures SameSight(n, MarkNode(n, t), v)
  {
    if t.Some? {
      forall d | d in MarkNode(n, t).deleters && v.Has(d) ensures d in n.deleters { }
      forall d | d in n.deleters ensures d in MarkNode(n, t).deleters { }
    }
  }

  lemma {:induction false} InsertKeepsSight(n: seq<Node>, w: View, op: Op, pos: int, cells: seq<Cell>, strict: bool, v: View)
    requires Unseen(v, op) && |cells| <= op.len
    ensures var r := Insert(n, w, op.id, pos, cells, strict); r.Some? ==> Known(r.value, v) == Known(n, v)
  {
    hide Known, Locate, NextSeen, PlaceAfter;
    var left: Option<int> := if pos > 0 then Locate(n, w, pos, strict) else Some(-1);
    if cells != [] && left.Some? {
      var run := Run(op.id, OriginAt(n, left.value), OriginAt(n, NextSeen(n, w, left.value + 1)), cells);
      forall k | 0 <= k < |run| ensures !v.Has(run[k].id) { assert InAtoms(run[k].id, op.id, op.len); }
      KnownSplice(n, v, PlaceAfter(n, w, left.value, op.id.peer), run);
    }
  }

  lemma {:induction false} GoneKeepsSight(n: seq<Node>, w: View, op: Op, from: nat, v: View)
    requires Distinct(n) && from < |Seen(n, w)| && Unseen(v, op) && op.len >= 1
    ensures Known(Gone(n, w, op.id, from), v) == Known(n, v)
  {
    hide Known, Seen, Unseen, MarkedBy;
    OneMarks(n, w, op.id, from);
    MarksKeepSight(n, ByRank(Seen(n, w), from, 1), op, Gone(n, w, op.id, from), v);
  }

  lemma {:induction false} DeleteKeepsSight(s: SeqVal, op: Op, w: View, byPosition: bool, strict: bool, v: View)
    requires Distinct(s.nodes) && WellFormed(op, w) && Unseen(v, op) && op.body.DeleteSeq?
    ensures var r := ApplyDelete(s, op, w, byPosition, strict); r.Some? ==> Known(r.value.nodes, v) == Known(s.nodes, v)
  {
    hide Known, Seen, Unseen, MarkedBy, RemoveAt, RemoveIds;
    var span := op.body.span;
    if byPosition && op.cont.kind != MovableList && CanRemoveAt(s.nodes, w, op.pos, span.len) {
      var low := Low(op.pos, span.len);
      RemoveAtMarks(s.nodes, w, op.id, low, span.len);
      MarksKeepSight(s.nodes, ByRank(Seen(s.nodes, w), low, span.len), op, RemoveAt(s.nodes, w, op.id, low, span.len), v);
    } else {
      RemoveIdsMarks(s.nodes, op.id, span);
      MarksKeepSight(s.nodes, ByIds(span), op, RemoveIds(s.nodes, op.id, span), v);
    }
  }

  /** An op its author had not seen changes nothing an author knows. */
  lemma {:induction false} ApplyKeepsSight(s: SeqVal, op: Op, w: View, byPosition: bool, strict: bool, v: View)
    requires Distinct(s.nodes) && WellFormed(op, w) && Unseen(v, op)
    ensures var r := Apply(s, op, w, byPosition, strict); r.Some? ==> Known(r.value.nodes, v) == Known(s.nodes, v)
  {
    hide Known, Seen, Unseen, Insert, ApplyDelete, Distinct, Visible;
    match op.body
    case Items(items) => InsertKeepsSight(s.nodes, w, op, op.pos, Cells(op), strict, v);
    case MarkStart(info) =>
      InsertKeepsSight(s.nodes, w, op, op.pos, [StartAnchor(info, Writer(op.lamport, op.id.peer))], strict, v);
    case MarkEnd =>
      if op.id in s.pendingEnd { InsertKeepsSight(s.nodes, w, op, s.pendingEnd[op.id], [EndAnchor], strict, v); }
    case DeleteSeq(span) => DeleteKeepsSight(s, op, w, byPosition, strict, v);
    case ListMove(elem, from) =>
      if Moves(s, op, w) {
        GoneKeepsSight(s.nodes, w, op, from, v);
        InsertKeepsSight(Gone(s.nodes, w, op.id, from), Later(w, 1), op, op.pos, [Position(elem)], strict, v);
      }
    case ListSet(_, _) =>
    case Other(_) =>
  }

  /** Executing another author's effect keeps a view causal and its own atoms fresh. */
  lemma {:induction false} ExecutedKeeps(n: seq<Node>, key: Keys, e: Effect, op: Op, m: seq<Node>, v: View, id: Id, k: nat)
    requires Executed(n, key, e, op.id, m) && MarksFit(e.marks, op) && |RunOf(e.place, op.id)| <= op.len
    requires Causal(n, v) && FreshAtoms(n, id, k) && Unseen(v, op) && v.peer == id.peer != op.id.peer
    ensures Causal(m, v) && FreshAtoms(m, id, k)
  {
    hide Ordered, Target, KeysAfter, Unseen, CausalAt, FreshFor;
    ExecutedDistinct(n, key, e, op.id, m);
    forall i | 0 <= i < |m| ensures CausalAt(m[i], v) && FreshFor(m[i], id, k) {
      IndexOfIs(m, i);
      NodeKept(n, key, e, op, m, v, id, k, m[i].id);
    }
  }

  lemma {:induction false} ExecutedDistinct(n: seq<Node>, key: Keys, e: Effect, id: Id, m: seq<Node>)
    requires Executed(n, key, e, id, m)
    ensures Distinct(m)
  {
  }

  lemma {:induction false} NodeKept(n: seq<Node>, key: Keys, e: Effect, op: Op, m: seq<Node>, v: View, id: Id, k: nat, x: Id)
    requires Executed(n, key, e, op.id, m) && MarksFit(e.marks, op) && |RunOf(e.place, op.id)| <= op.len && x in Ids(m)
    requires Causal(n, v) && FreshAtoms(n, id, k) && Unseen(v, op) && v.peer == id.peer != op.id.peer
    ensures CausalAt(NodeAt(m, x), v) && FreshFor(NodeAt(m, x), id, k)
  {
    hide Ordered, Target, KeysAfter;
    if x in Ids(n) {
      assert CausalAt(NodeAt(n, x), v) && FreshFor(NodeAt(n, x), id, k);
      TargetIsAtom(e.marks, op, x);
    } else {
      var run := RunOf(e.place, op.id);
      var j :| 0 <= j < |run| && run[j].id == x;
      assert InAtoms(x, op.id, op.len);
    }
  }

  lemma {:induction false} EffectFits(s: SeqVal, op: Op, v: View, byPosition: bool, strict: bool)
    requires WellFormed(op, v)
    ensures var e := EffectOf(s, op, v, byPosition, strict);
      e.Some? ==> MarksFit(e.value.marks, op) && |RunOf(e.value.place, op.id)| <= op.len
  {
    hide Seen, Locate, NextSeen, CanRemoveAt;
  }

  // ----- what an op does to the rest of the state -----

  /** Whether the op acts on the elements: a move that finds nothing to move does not. */
  ghost predicate Acts(s: SeqVal, op: Op, v: View) {
    op.body.ListMove? ==> Moves(s, op, v)
  }

  ghost function ElemsAfter(elems: map<ElemKey, Elem>, op: Op, acts: bool): map<ElemKey, Elem> {
    match op.body
    case Items(items) => if op.cont.kind == MovableList then NewElems(elems, op, |items|) else elems
    case ListMove(elem, _) =>
      var w := Writer(op.lamport, op.id.peer);
      if acts && elem in elems && w.After(elems[elem].posWriter)
      then elems[elem := elems[elem].(pos := op.id, posWriter := w)] else elems
    case ListSet(elem, value) =>
      var w := Writer(op.lamport, op.id.peer);
      if elem in elems && w.After(elems[elem].valueWriter)
      then elems[elem := elems[elem].(value := value, valueWriter := w, valueId := op.id, valueSet := true)] else elems
    case _ => elems
  }

  ghost function EndsAfter(ends: map<Id, int>, op: Op): map<Id, int> {
    match op.body
    case MarkStart(info) => ends[Id(op.id.peer, op.id.counter + 1) := info.start + info.len + 1]
    case MarkEnd => ends - {op.id}
    case _ => ends
  }

  lemma {:induction false} ApplyRest(s: SeqVal, op: Op, v: View, byPosition: bool, strict: bool)
    ensures var r := Apply(s, op, v, byPosition, strict);
      r.Some? ==> r.value.elems == ElemsAfter(s.elems, op, Acts(s, op, v)) && r.value.pendingEnd == EndsAfter(s.pendingEnd, op)
  {
    hide Insert, Seen;
    match op.body
    case MarkEnd => if op.id !in s.pendingEnd { assert s.pendingEnd - {op.id} == s.pendingEnd; }
    case ListMove(elem, from) =>
      if elem in s.elems { assert s.elems[elem := s.elems[elem]] == s.elems; }
    case _ =>
  }

  lemma {:induction false} EndsCommute(ends: map<Id, int>, a: Op, b: Op)
    requires a.id.peer != b.id.peer
    ensures EndsAfter(EndsAfter(ends, a), b) == EndsAfter(EndsAfter(ends, b), a)
  {
  }

  /** The elements an op creates. */
  ghost predicate Creates(op: Op, k: ElemKey) {
    op.body.Items? && op.cont.kind == MovableList
    && op.id.peer == k.peer && op.lamport <= k.lamport < op.lamport + |op.body.items|
  }

  ghost function NewElem(op: Op, k: ElemKey): Elem
    requires Creates(op, k)
  {
    var i := k.lamport - op.lamport;
    Elem(op.body.items[i], Writer(k.lamport, op.id.peer), Id(op.id.peer, op.id.counter + i), false,
         Id(op.id.peer, op.id.counter + i), Writer(k.lamport, op.id.peer))
  }

  lemma {:induction false} NewElemsGet(elems: map<ElemKey, Elem>, op: Op, n: nat)
    requires op.body.Items? && op.cont.kind == MovableList && n <= |op.body.items|
    ensures var r := NewElems(elems, op, n);
      && (forall k :: k in r <==> k in elems || (Creates(op, k) && k.lamport < op.lamport + n))
      && (forall k :: k in r ==>
           r[k] == if Creates(op, k) && k.lamport < op.lamport + n then NewElem(op, k) else elems[k])
  {
    if n > 0 { NewElemsGet(elems, op, n - 1); }
  }

  /** One element after an op. */
  ghost function ElemAfter(e: Option<Elem>, k: ElemKey, op: Op, acts: bool): Option<Elem> {
    match op.body
    case Items(_) => if Creates(op, k) then Some(NewElem(op, k)) else e
    case ListMove(elem, _) =>
      var w := Writer(op.lamport, op.id.peer);
      if acts && k == elem && e.Some? && w.After(e.value.posWriter)
      then Some(e.value.(pos := op.id, posWriter := w)) else e
    case ListSet(elem, value) =>
      var w := Writer(op.lamport, op.id.peer);
      if k == elem && e.Some? && w.After(e.value.valueWriter)
      then Some(e.value.(value := value, valueWriter := w, valueId := op.id, valueSet := true)) else e
    case _ => e
  }

  ghost function Get(elems: map<ElemKey, Elem>, k: ElemKey): Option<Elem> {
    if k in elems then Some(elems[k]) else None
  }

  lemma {:induction false} ElemsPointwise(elems: map<ElemKey, Elem>, op: Op, acts: bool, k: ElemKey)
    ensures Get(ElemsAfter(elems, op, acts), k) == ElemAfter(Get(elems, k), k, op, acts)
  {
    if op.body.Items? && op.cont.kind == MovableList { NewElemsGet(elems, op, |op.body.items|); }
  }

  /** What an op names it had seen: the element it moves or sets was created by no op it had not. */
  ghost predicate NamesNot(a: Op, b: Op) {
    && (a.body.ListMove? ==> !Creates(b, a.body.elem))
    && (a.body.ListSet? ==> !Creates(b, a.body.elem))
  }

  lemma {:induction false} ElemCommutes(e: Option<Elem>, k: ElemKey, a: Op, actsA: bool, b: Op, actsB: bool)
    requires a.id.peer != b.id.peer && NamesNot(a, b) && NamesNot(b, a)
    ensures ElemAfter(ElemAfter(e, k, a, actsA), k, b, actsB) == ElemAfter(ElemAfter(e, k, b, actsB), k, a, actsA)
  {
  }

  lemma {:induction false} ElemsCommute(elems: map<ElemKey, Elem>, a: Op, actsA: bool, b: Op, actsB: bool)
    requires a.id.peer != b.id.peer && NamesNot(a, b) && NamesNot(b, a)
    ensures ElemsAfter(ElemsAfter(elems, a, actsA), b, actsB) == ElemsAfter(ElemsAfter(elems, b, actsB), a, actsA)
  {
    hide ElemsAfter, ElemAfter;
    var x := ElemsAfter(ElemsAfter(elems, a, actsA), b, actsB);
    var y := ElemsAfter(ElemsAfter(elems, b, actsB), a, actsA);
    forall k ensures Get(x, k) == Get(y, k) {
      ElemsPointwise(elems, a, actsA, k);
      ElemsPointwise(ElemsAfter(elems, a, actsA), b, actsB, k);
      ElemsPointwise(elems, b, actsB, k);
      ElemsPointwise(ElemsAfter(elems, b, actsB), a, actsA, k);
      ElemCommutes(Get(elems, k), k, a, actsA, b, actsB);
    }
    GetsEqual(x, y);
  }

  lemma {:induction false} GetsEqual(x: map<ElemKey, Elem>, y: map<ElemKey, Elem>)
    requires forall k :: Get(x, k) == Get(y, k)
    ensures x == y
  {
    forall k | k in x ensures k in y && x[k] == y[k] { assert Get(x, k) == Get(y, k); }
    forall k | k in y ensures k in x { assert Get(x, k) == Get(y, k); }
  }

  // ----- either order -----

  /** What a state must offer an op: a causal view, and none of its atoms. */
  ghost predicate Mergeable(s: SeqVal, op: Op, v: View) {
    Causal(s.nodes, v) && WellFormed(op, v) && FreshAtoms(s.nodes, op.id, op.len)
  }

  /** A delete read by ids takes only elements its author had seen. */
  ghost predicate ReadsSeen(op: Op, v: View, byPosition: bool, strict: bool) {
    op.body.DeleteSeq? && !(byPosition && strict && op.cont.kind != MovableList) ==>
      forall x :: op.body.span.Covers(x) ==> v.Has(x)
  }

  ghost predicate Concurrent(a: Op, va: View, b: Op, vb: View) {
    && a.id.peer != b.id.peer && Unseen(va, b) && Unseen(vb, a) && NamesNot(a, b) && NamesNot(b, a)
  }

  lemma {:induction false} StillAgree(s: SeqVal, a: Op, va: View, b: Op, vb: View, byPosition: bool, strict: bool)
    requires Distinct(s.nodes) && WellFormed(a, va) && Concurrent(a, va, b, vb)
    ensures var r := Apply(s, a, va, byPosition, strict); r.Some? ==> Agree(s, r.value, b, vb)
  {
    hide Distinct, Apply, Known, Unseen, ElemsAfter;
    var r := Apply(s, a, va, byPosition, strict);
    if r.Some? {
      ApplyKeepsSight(s, a, va, byPosition, strict, vb);
      ApplyRest(s, a, va, byPosition, strict);
      if b.body.ListMove? { ElemsPointwise(s.elems, a, Acts(s, a, va), b.body.elem); }
    }
  }

  lemma {:induction false} StillMergeable(s: SeqVal, key: Keys, a: Op, va: View, b: Op, vb: View, byPosition: bool, strict: bool)
    requires Ordered(s.nodes, key) && Mergeable(s, a, va) && Mergeable(s, b, vb) && Concurrent(a, va, b, vb)
    ensures var r := Apply(s, a, va, byPosition, strict); r.Some? ==> Mergeable(r.value, b, vb)
  {
    hide Ordered, Apply, Causal, FreshAtoms, Executed, EffectOf, Unseen, MarksFit, RunOf;
    ApplyExecutes(s, key, a, va, byPosition, strict);
    EffectFits(s, a, va, byPosition, strict);
    var r, e := Apply(s, a, va, byPosition, strict), EffectOf(s, a, va, byPosition, strict);
    if r.Some? { ExecutedKeeps(s.nodes, key, e.value, a, r.value.nodes, vb, b.id, b.len); }
  }

  lemma {:induction false} MarksMiss(s: SeqVal, a: Op, va: View, byPosition: bool, strict: bool, b: Op, run: seq<Node>)
    requires Distinct(s.nodes) && WellFormed(a, va) && ReadsSeen(a, va, byPosition, strict) && Unseen(va, b)
    requires forall k :: 0 <= k < |run| ==> InAtoms(run[k].id, b.id, b.len)
    ensures var e := EffectOf(s, a, va, byPosition, strict); e.Some? ==> Misses(e.value.marks, a.id, run)
  {
    hide InsertPlace, CanRemoveAt, Seen, Visible, Distinct, Gone;
    var e := EffectOf(s, a, va, byPosition, strict);
    if e.Some? {
      forall k | 0 <= k < |run| ensures Target(e.value.marks, a.id, run[k].id).None? {
        assert !va.Has(run[k].id);
        if e.value.marks.ByRank? { RankMisses(s.nodes, va, e.value.marks.low, e.value.marks.len, a.id, run[k].id); }
      }
    }
  }

  lemma {:induction false} RankMisses(nodes: seq<Node>, v: View, low: int, len: int, id: Id, x: Id)
    requires Distinct(nodes) && !v.Has(x)
    ensures Target(ByRank(Seen(nodes, v), low, len), id, x).None?
  {
    forall k | 0 <= k < |Seen(nodes, v)| ensures Seen(nodes, v)[k] != x { SeenHas(nodes, v, k); }
  }

  lemma {:induction false} RunAtoms(s: SeqVal, b: Op, vb: View, byPosition: bool, strict: bool)
    requires WellFormed(b, vb)
    ensures var e := EffectOf(s, b, vb, byPosition, strict);
      e.Some? ==> forall k :: 0 <= k < |RunOf(e.value.place, b.id)| ==> InAtoms(RunOf(e.value.place, b.id)[k].id, b.id, b.len)
  {
    hide EffectOf, MarksFit;
    EffectFits(s, b, vb, byPosition, strict);
  }

  ghost function Then(s: Option<SeqVal>, op: Op, v: View, byPosition: bool, strict: bool): Option<SeqVal> {
    if s.None? then None else Apply(s.value, op, v, byPosition, strict)
  }

  /** The second op has the same effect with or without the first. */
  lemma {:induction false} SecondSame(s: SeqVal, key: Keys, a: Op, va: View, b: Op, vb: View, byPosition: bool, strict: bool)
    requires Ordered(s.nodes, key) && Mergeable(s, a, va) && Mergeable(s, b, vb) && Concurrent(a, va, b, vb)
    ensures var r := Apply(s, a, va, byPosition, strict);
      r.Some? ==>
        var ea := EffectOf(s, a, va, byPosition, strict);
        var eb := EffectOf(s, b, vb, byPosition, strict);
        var x := Apply(r.value, b, vb, byPosition, strict);
        && ea.Some? && Executed(s.nodes, key, ea.value, a.id, r.value.nodes)
        && (x.None? <==> eb.None?)
        && (x.Some? ==> Executed(r.value.nodes, KeysAfter(s.nodes, key, ea.value.place, a.id), eb.value, b.id, x.value.nodes))
        && Acts(s, b, vb) == Acts(r.value, b, vb)
  {
    hide Ordered, Apply, Causal, FreshAtoms, Executed, EffectOf, Unseen, Concurrent, Agree, Distinct, KeysAfter;
    OrderedParts(s.nodes, key);
    ApplyExecutes(s, key, a, va, byPosition, strict);
    var r, e := Apply(s, a, va, byPosition, strict), EffectOf(s, a, va, byPosition, strict);
    if r.Some? {
      StillAgree(s, a, va, b, vb, byPosition, strict);
      StillMergeable(s, key, a, va, b, vb, byPosition, strict);
      ExecutedOrdered(s.nodes, key, e.value, a.id, r.value.nodes);
      SameEffect(s, r.value, b, vb, byPosition, strict);
      ApplyExecutes(r.value, KeysAfter(s.nodes, key, e.value.place, a.id), b, vb, byPosition, strict);
    }
  }

  lemma {:induction false} ExecutedOrdered(n: seq<Node>, key: Keys, e: Effect, id: Id, m: seq<Node>)
    requires Executed(n, key, e, id, m)
    ensures Ordered(m, KeysAfter(n, key, e.place, id)) && Distinct(m)
  {
  }

  lemma {:induction false} RestsCommute(s: SeqVal, a: Op, va: View, b: Op, vb: View, byPosition: bool, strict: bool)
    requires Apply(s, a, va, byPosition, strict).Some? && Apply(s, b, vb, byPosition, strict).Some?
    requires var r := Apply(s, a, va, byPosition, strict).value;
      Apply(r, b, vb, byPosition, strict).Some? && Acts(s, b, vb) == Acts(r, b, vb)
    requires var t := Apply(s, b, vb, byPosition, strict).value;
      Apply(t, a, va, byPosition, strict).Some? && Acts(s, a, va) == Acts(t, a, va)
    requires a.id.peer != b.id.peer && NamesNot(a, b) && NamesNot(b, a)
    ensures var x := Then(Apply(s, a, va, byPosition, strict), b, vb, byPosition, strict);
      var y := Then(Apply(s, b, vb, byPosition, strict), a, va, byPosition, strict);
      x.Some? && y.Some? && x.value.elems == y.value.elems && x.value.pendingEnd == y.value.pendingEnd
  {
    hide Apply, ElemsAfter, EndsAfter, Acts, NamesNot;
    var r, t := Apply(s, a, va, byPosition, strict).value, Apply(s, b, vb, byPosition, strict).value;
    ApplyRest(s, a, va, byPosition, strict);
    ApplyRest(s, b, vb, byPosition, strict);
    ApplyRest(r, b, vb, byPosition, strict);
    ApplyRest(t, a, va, byPosition, strict);
    EndsCommute(s.pendingEnd, a, b);
    ElemsCommute(s.elems, a, Acts(s, a, va), b, Acts(s, b, vb));
  }

  /** Two concurrent ops can be merged in either order, refusals included. */
  lemma {:induction false} Swap(s: SeqVal, key: Keys, a: Op, va: View, b: Op, vb: View, byPosition: bool, strict: bool)
    requires Ordered(s.nodes, key) && Mergeable(s, a, va) && Mergeable(s, b, vb) && Concurrent(a, va, b, vb)
    requires ReadsSeen(a, va, byPosition, strict) && ReadsSeen(b, vb, byPosition, strict)
    ensures Then(Apply(s, a, va, byPosition, strict), b, vb, byPosition, strict) ==
            Then(Apply(s, b, vb, byPosition, strict), a, va, byPosition, strict)
  {
    hide Ordered, Apply, Causal, FreshAtoms, Executed, EffectOf, Unseen, Misses, RunOf, Acts, NamesNot, KeysAfter, Distinct, ReadsSeen;
    OrderedParts(s.nodes, key);
    var ra, rb := Apply(s, a, va, byPosition, strict), Apply(s, b, vb, byPosition, strict);
    var ea, eb := EffectOf(s, a, va, byPosition, strict), EffectOf(s, b, vb, byPosition, strict);
    ApplyExecutes(s, key, a, va, byPosition, strict);
    ApplyExecutes(s, key, b, vb, byPosition, strict);
    SecondSame(s, key, a, va, b, vb, byPosition, strict);
    SecondSame(s, key, b, vb, a, va, byPosition, strict);
    if ra.Some? && rb.Some? {
      var x, y := Apply(ra.value, b, vb, byPosition, strict), Apply(rb.value, a, va, byPosition, strict);
      RunAtoms(s, a, va, byPosition, strict);
      RunAtoms(s, b, vb, byPosition, strict);
      MarksMiss(s, a, va, byPosition, strict, b, RunOf(eb.value.place, b.id));
      MarksMiss(s, b, vb, byPosition, strict, a, RunOf(ea.value.place, a.id));
      EffectsCommute(s.nodes, key, ea.value, a.id, ra.value.nodes, x.value.nodes,
                     eb.value, b.id, rb.value.nodes, y.value.nodes);
      RestsCommute(s, a, va, b, vb, byPosition, strict);
    }
  }
}
