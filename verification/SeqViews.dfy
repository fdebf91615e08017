/** An author's view, read off the history: exactly the causal past of its op. */
module SeqViews {
  import opened Common
  import opened SeqTypes
  import opened SeqOrder
  import opened SeqInsert
  import opened SeqReference
  import opened SeqEdits
  import opened CausalHistory
  import opened IdLists
  import opened CausalIndices
  import opened Ops

  /** The version vector just past every atom of s. */
  ghost function Tops(s: set<Id>): map<nat, int>
    requires forall x :: x in s ==> x.counter >= 0
  {
    if s == {} then map[]
    else
      var x :| x in s;
      Raise(Tops(s - {x}), x)
  }

  ghost function PastOf(h: History, y: Id): set<Id>
    requires Complete(h)
  {
    set x | x in h && Past(h, x, y)
  }

  /** What the author of atom y had seen when it wrote it. */
  ghost function ViewOf(h: History, y: Id): View
    requires Complete(h)
  {
    View(Tops(PastOf(h, y)), y.peer, y.counter)
  }

  lemma {:induction false} RaiseCovers(v: map<nat, int>, x: Id, y: Id)
    ensures Covers(Raise(v, x), y) <==> Covers(v, y) || (x.peer == y.peer && y.counter <= x.counter)
  {
  }

  lemma {:induction false} RaiseAt(v: map<nat, int>, x: Id, p: nat)
    requires p in Raise(v, x)
    ensures (p in v && Raise(v, x)[p] == v[p]) || (p == x.peer && Raise(v, x)[p] == x.counter + 1)
  {
  }

  lemma {:induction false} TopsCover(s: set<Id>, y: Id)
    requires forall x :: x in s ==> x.counter >= 0
    ensures Covers(Tops(s), y) <==> exists x :: x in s && x.peer == y.peer && y.counter <= x.counter
    decreases s
  {
    if s != {} {
      var x :| x in s && Tops(s) == Raise(Tops(s - {x}), x);
      var rest := s - {x};
      TopsCover(rest, y);
      RaiseCovers(Tops(rest), x, y);
      assert forall z :: z in s <==> z in rest || z == x;
    }
  }

  lemma {:induction false} TopsReached(s: set<Id>, p: nat)
    requires (forall x :: x in s ==> x.counter >= 0) && p in Tops(s)
    ensures Tops(s)[p] > 0 && Id(p, Tops(s)[p] - 1) in s
    decreases s
  {
    var x :| x in s && Tops(s) == Raise(Tops(s - {x}), x);
    var rest := s - {x};
    var t := Tops(rest);
    RaiseAt(t, x, p);
    if p in t { TopsReached(rest, p); }
  }

  lemma {:induction false} TopsVersion(h: History, y: Id)
    requires Complete(h) && y in h
    ensures IsVersion(h, Tops(PastOf(h, y)), y)
  {
    hide Past, Covers;
    var s := PastOf(h, y);
    forall x | x in h ensures Covers(Tops(s), x) <==> Past(h, x, y) {
      TopsCover(s, x);
      if Covers(Tops(s), x) {
        var z :| z in s && z.peer == x.peer && x.counter <= z.counter;
        PastDown(h, z, x, y);
      }
      if Past(h, x, y) { assert x in s; }
    }
    forall p | p in Tops(s) ensures Tops(s)[p] > 0 && Id(p, Tops(s)[p] - 1) in h { TopsReached(s, p); }
  }

  /** A view has exactly the causal past. */
  lemma {:induction false} ViewIsPast(h: History, x: Id, y: Id)
    requires Complete(h) && x in h && y in h
    ensures ViewOf(h, y).Has(x) <==> Past(h, x, y)
  {
    hide Past;
    TopsVersion(h, y);
    assert Covers(Tops(PastOf(h, y)), x) <==> Past(h, x, y);
    if x.peer == y.peer && x.counter < y.counter { OwnPast(h, x, y); }
  }

  lemma {:induction false} OwnTop(h: History, y: Id)
    requires Complete(h) && y in h
    ensures var v := ViewOf(h, y); v.peer in v.vv ==> v.vv[v.peer] <= v.own
  {
    hide Past;
    TopsVersion(h, y);
    var v := ViewOf(h, y);
    if v.peer in v.vv {
      var x := Id(v.peer, v.vv[v.peer] - 1);
      assert x in h && Covers(v.vv, x);
      PastIn(h, x, y);
      if x.counter >= y.counter {
        if x != y { OwnPast(h, y, x); PastIn(h, y, x); }
      }
    }
  }

  ghost predicate SameHas(v: View, w: View) {
    v.peer == w.peer && v.own == w.own && forall x :: v.Has(x) <==> w.Has(x)
  }

  /** The version of a change's first atom and the author's own atoms since make the view of each
      atom of the change. */
  lemma {:induction false} ChangeView(h: History, c: SeqChange, vv: map<nat, int>, y: Id)
    requires Complete(h) && Tells(h, c) && Holds(c, y) && y in h && IsVersion(h, vv, First(c))
    ensures SameHas(View(vv, y.peer, y.counter), ViewOf(h, y))
  {
    hide Past, IsVersion, Tells;
    TopsVersion(h, y);
    OwnTop(h, y);
    var v, w := View(vv, y.peer, y.counter), ViewOf(h, y);
    forall x ensures v.Has(x) <==> w.Has(x) {
      if x.peer == y.peer {
        if v.Has(x) { ChangeHas(h, c, vv, y, x); }
      } else {
        if v.Has(x) { VersionTop(h, vv, First(c), x.peer); ChangeOne(h, c, vv, y, Id(x.peer, vv[x.peer] - 1)); }
        if w.Has(x) { VersionTop(h, w.vv, y, x.peer); ChangeOne(h, c, vv, y, Id(x.peer, w.vv[x.peer] - 1)); }
      }
    }
  }

  lemma {:induction false} ChangeHas(h: History, c: SeqChange, vv: map<nat, int>, y: Id, x: Id)
    requires Complete(h) && Tells(h, c) && Holds(c, y) && y in h && IsVersion(h, vv, First(c))
    requires x.peer == y.peer && View(vv, y.peer, y.counter).Has(x)
    ensures x.counter < y.counter
  {
    hide Past, IsVersion, Tells;
    if x.counter >= y.counter {
      var t := Id(x.peer, vv[x.peer] - 1);
      VersionTop(h, vv, First(c), x.peer);
      PastIn(h, t, First(c));
      StartIn(h, c, y);
      if t != First(c) { OwnPast(h, First(c), t); PastIn(h, First(c), t); }
    }
  }

  lemma {:induction false} StartIn(h: History, c: SeqChange, y: Id)
    requires Tells(h, c) && Holds(c, y)
    ensures First(c) in h && 0 <= c.start <= y.counter
  {
    assert TellsAtom(h, c, c.start);
  }

  lemma {:induction false} ChangeOne(h: History, c: SeqChange, vv: map<nat, int>, y: Id, x: Id)
    requires Complete(h) && Tells(h, c) && Holds(c, y) && y in h && IsVersion(h, vv, First(c)) && x.peer != y.peer
    requires Past(h, x, First(c)) || Past(h, x, y)
    ensures Covers(vv, x) && Covers(ViewOf(h, y).vv, x)
  {
    hide Past, Tells;
    BeforeInside(h, c, x, y);
    PastIn(h, x, y);
    TopsVersion(h, y);
  }

  // ----- views that have the same atoms -----

  lemma {:induction false} SeenSame(nodes: seq<Node>, v: View, w: View)
    requires SameHas(v, w)
    ensures Seen(nodes, v) == Seen(nodes, w)
  {
    if nodes != [] { SeenSame(nodes[..|nodes| - 1], v, w); }
  }

  lemma {:induction false} NthSame(nodes: seq<Node>, v: View, w: View, k: nat)
    requires SameHas(v, w) && k < |Seen(nodes, v)|
    ensures Seen(nodes, v) == Seen(nodes, w) && Nth(nodes, v, k) == Nth(nodes, w, k)
  {
    hide Visible;
    SeenSame(nodes, v, w);
    var m := |nodes| - 1;
    SeenSame(nodes[..m], v, w);
    if |Seen(nodes[..m], v)| != k { NthSame(nodes[..m], v, w, k); }
  }

  lemma {:induction false} NextSame(nodes: seq<Node>, v: View, w: View, from: nat)
    requires SameHas(v, w) && from <= |nodes|
    ensures NextSeen(nodes, v, from) == NextSeen(nodes, w, from)
    decreases |nodes| - from
  {
    if from < |nodes| { NextSame(nodes, v, w, from + 1); }
  }

  lemma {:induction false} InsertSame(nodes: seq<Node>, v: View, w: View, id: Id, pos: int, cells: seq<Cell>, strict: bool)
    requires SameHas(v, w)
    ensures Insert(nodes, v, id, pos, cells, strict) == Insert(nodes, w, id, pos, cells, strict)
  {
    hide SameHas, Seen, Nth, NextSeen;
    SeenSame(nodes, v, w);
    var c := |Seen(nodes, v)|;
    if pos > 0 && c > 0 { NthSame(nodes, v, w, Min(pos, c) - 1); }
    var left: Option<int> := if pos > 0 then Locate(nodes, v, pos, strict) else Some(-1);
    assert pos > 0 ==> left == Locate(nodes, w, pos, strict);
    if left.Some? { NextSame(nodes, v, w, left.value + 1); }
  }

  lemma {:induction false} RemoveSame(nodes: seq<Node>, v: View, w: View, id: Id, low: nat, len: int)
    requires SameHas(v, w)
    ensures RemoveAt(nodes, v, id, low, len) == RemoveAt(nodes, w, id, low, len)
  {
    hide Seen;
    var a, b := RemoveAt(nodes, v, id, low, len), RemoveAt(nodes, w, id, low, len);
    forall i | 0 <= i < |nodes| ensures a[i] == b[i] { SeenSame(nodes[..i], v, w); }
  }

  lemma {:induction false} MoveSame(s: SeqVal, op: Op, v: View, w: View, strict: bool)
    requires SameHas(v, w) && v.own == op.id.counter && op.body.ListMove?
    ensures ApplyMove(s, op, v, strict) == ApplyMove(s, op, w, strict)
  {
    hide SameHas, Seen, Nth, Insert;
    SeenSame(s.nodes, v, w);
    var from := op.body.from;
    if 0 <= from < |Seen(s.nodes, v)| {
      NthSame(s.nodes, v, w, from);
      var src := Nth(s.nodes, v, from);
      OwnSame(v, w);
      InsertSame(s.nodes[src := AddDeleter(s.nodes[src], op.id)], v.(own := op.id.counter + 1), w.(own := op.id.counter + 1),
                 op.id, op.pos, [Position(op.body.elem)], strict);
    }
  }

  lemma {:induction false} OwnSame(v: View, w: View)
    requires SameHas(v, w)
    ensures SameHas(v.(own := v.own + 1), w.(own := v.own + 1))
  {
    var a, b := v.(own := v.own + 1), w.(own := v.own + 1);
    forall x ensures a.Has(x) <==> b.Has(x) {
      assert v.Has(x) <==> w.Has(x);
    }
  }

  /** Merging an op depends on which atoms its author had, not on how its version is written. */
  lemma {:induction false} ApplySame(s: SeqVal, op: Op, v: View, w: View, byPosition: bool, strict: bool)
    requires SameHas(v, w) && v.own == op.id.counter
    ensures Apply(s, op, v, byPosition, strict) == Apply(s, op, w, byPosition, strict)
  {
    hide SameHas, Seen, Insert, RemoveAt, ApplyMove;
    match op.body
    case Items(_) => InsertSame(s.nodes, v, w, op.id, op.pos, Cells(op), strict);
    case MarkStart(info) => InsertSame(s.nodes, v, w, op.id, op.pos, [StartAnchor(info, Writer(op.lamport, op.id.peer))], strict);
    case MarkEnd =>
      if op.id in s.pendingEnd { InsertSame(s.nodes, v, w, op.id, s.pendingEnd[op.id], [EndAnchor], strict); }
    case DeleteSeq(span) =>
      SeenSame(s.nodes, v, w);
      if Low(op.pos, span.len) >= 0 { RemoveSame(s.nodes, v, w, op.id, Low(op.pos, span.len), span.len); }
    case ListMove(_, _) => MoveSame(s, op, v, w, strict);
    case _ =>
  }
}
