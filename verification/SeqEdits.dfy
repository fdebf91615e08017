/** In its author's view an op is a plain list edit. */
module SeqEdits {
  import opened Common
  import opened SeqTypes
  import opened SeqOrder
  import opened SeqInsert
  import opened SeqReference

  /** None of the n atoms from `id` on has been merged. */
  ghost predicate FreshAtoms(nodes: seq<Node>, id: Id, n: nat) {
    forall i :: 0 <= i < |nodes| ==> FreshFor(nodes[i], id, n)
  }

  ghost predicate FreshFor(node: Node, id: Id, n: nat) {
    && !InAtoms(node.id, id, n)
    && forall d :: d in node.deleters ==> !InAtoms(d, id, n)
  }

  /** The author's view once its op has taken n atoms. */
  ghost function Later(v: View, n: nat): View { v.(own := v.own + n) }

  lemma {:induction false} SameView(node: Node, v: View, n: nat)
    requires FreshFor(node, Id(v.peer, v.own), n)
    ensures Visible(node, v) == Visible(node, Later(v, n))
  {
  }

  lemma {:induction false} SameSeen(nodes: seq<Node>, v: View, n: nat)
    requires FreshAtoms(nodes, Id(v.peer, v.own), n)
    ensures Seen(nodes, v) == Seen(nodes, Later(v, n))
  {
    if nodes != [] {
      SameSeen(nodes[..|nodes| - 1], v, n);
      SameView(nodes[|nodes| - 1], v, n);
    }
  }

  lemma {:induction false} NoneSeen(nodes: seq<Node>, v: View)
    requires forall i :: 0 <= i < |nodes| ==> !v.Has(nodes[i].id)
    ensures Seen(nodes, v) == []
  {
    if nodes != [] { NoneSeen(nodes[..|nodes| - 1], v); }
  }

  lemma {:induction false} AllSeen(nodes: seq<Node>, v: View)
    requires forall i :: 0 <= i < |nodes| ==> v.Has(nodes[i].id) && nodes[i].deleters == {}
    ensures Seen(nodes, v) == seq(|nodes|, i requires 0 <= i < |nodes| => nodes[i].id)
  {
    if nodes != [] { AllSeen(nodes[..|nodes| - 1], v); }
  }

  lemma {:induction false} UnseenStretch(nodes: seq<Node>, v: View, a: nat, b: nat)
    requires a <= b <= |nodes| && forall i :: a <= i < b ==> !v.Has(nodes[i].id)
    ensures Seen(nodes[..a], v) == Seen(nodes[..b], v)
  {
    assert nodes[..b] == nodes[..a] + nodes[a..b];
    SeenConcat(nodes[..a], nodes[a..b], v);
    NoneSeen(nodes[a..b], v);
  }

  lemma {:induction false} SeenThrough(nodes: seq<Node>, v: View, i: nat)
    requires i < |nodes| && Visible(nodes[i], v)
    ensures Seen(nodes[..i + 1], v) == Seen(nodes[..i], v) + [nodes[i].id]
  {
    assert nodes[..i + 1][..i] == nodes[..i];
  }

  /** How many elements the author sees up to the place an insert at `pos` goes. */
  lemma {:induction false} RankAtPlace(nodes: seq<Node>, v: View, left: int, at: nat)
    requires -1 <= left < |nodes| && left < at <= NextSeen(nodes, v, left + 1)
    requires left >= 0 ==> Visible(nodes[left], v)
    ensures |Seen(nodes[..at], v)| == if left < 0 then 0 else |Seen(nodes[..left], v)| + 1
  {
    hide Visible;
    UnseenStretch(nodes, v, left + 1, at);
    if left >= 0 { SeenThrough(nodes, v, left); } else { assert nodes[..0] == []; }
  }

  ghost function RunIds(id: Id, n: nat): seq<Id> { seq(n, k => Id(id.peer, id.counter + k)) }

  /** The position an insert really takes: a negative one is the front, one past the end the end. */
  ghost function Clamp(pos: int, n: nat): nat { if pos <= 0 then 0 else Min(pos, n) }

  lemma {:induction false} LocateRank(nodes: seq<Node>, v: View, pos: int, strict: bool)
    requires pos > 0
    ensures var l := Locate(nodes, v, pos, strict);
      var c := |Seen(nodes, v)|;
      if pos > c && strict then l.None?
      else if c == 0 then l == Some(-1)
      else l.Some? && 0 <= l.value < |nodes| && Visible(nodes[l.value], v)
           && |Seen(nodes[..l.value], v)| + 1 == Clamp(pos, c)
  {
  }

  /** An insert puts its run at its position of the author's view and changes nothing else there. */
  lemma {:induction false} InsertEdits(nodes: seq<Node>, v: View, pos: int, cells: seq<Cell>, strict: bool)
    requires FreshAtoms(nodes, Id(v.peer, v.own), |cells|)
    ensures var r := Insert(nodes, v, Id(v.peer, v.own), pos, cells, strict);
      && (r.None? <==> cells != [] && strict && pos > |Seen(nodes, v)|)
      && (r.Some? ==>
            (Seen(r.value, Later(v, |cells|)) ==
             Splice(Seen(nodes, v), Clamp(pos, |Seen(nodes, v)|), RunIds(Id(v.peer, v.own), |cells|))))
  {
    hide Seen, Locate, InsertAfter, FreshAtoms, Visible, RunIds;
    if cells == [] {
      SameSeen(nodes, v, 0);
      NothingSpliced(Seen(nodes, v), Clamp(pos, |Seen(nodes, v)|), Id(v.peer, v.own));
    } else {
      if pos > 0 { LocateRank(nodes, v, pos, strict); }
      var l: Option<int> := if pos > 0 then Locate(nodes, v, pos, strict) else Some(-1);
      if l.Some? { InsertAfterEdits(nodes, v, l.value, cells); }
    }
  }

  lemma {:induction false} NothingSpliced(s: seq<Id>, at: nat, id: Id)
    requires at <= |s|
    ensures Splice(s, at, RunIds(id, 0)) == s
  {
  }

  lemma {:induction false} InsertAfterEdits(nodes: seq<Node>, v: View, left: int, cells: seq<Cell>)
    requires FreshAtoms(nodes, Id(v.peer, v.own), |cells|) && -1 <= left < |nodes|
    requires left >= 0 ==> Visible(nodes[left], v)
    ensures var rank := if left < 0 then 0 else |Seen(nodes[..left], v)| + 1;
      && rank <= |Seen(nodes, v)|
      && Seen(InsertAfter(nodes, v, left, Id(v.peer, v.own), cells), Later(v, |cells|)) ==
           Splice(Seen(nodes, v), rank, RunIds(Id(v.peer, v.own), |cells|))
  {
    hide FreshAtoms, Visible, RunIds, Seen, PlaceAfter, NextSeen;
    var id := Id(v.peer, v.own);
    var at := PlaceAfter(nodes, v, left, id.peer);
    RankAtPlace(nodes, v, left, at);
    SplicedView(nodes, v, at, Run(id, OriginAt(nodes, left), OriginAt(nodes, NextSeen(nodes, v, left + 1)), cells));
  }

  /** A run all in view goes in at the rank of its place. */
  lemma {:induction false} RunSpliced(nodes: seq<Node>, w: View, at: nat, run: seq<Node>)
    requires at <= |nodes|
    requires forall k :: 0 <= k < |run| ==> w.Has(run[k].id) && run[k].deleters == {}
    ensures |Seen(nodes[..at], w)| <= |Seen(nodes, w)|
    ensures Seen(Splice(nodes, at, run), w) ==
      Splice(Seen(nodes, w), |Seen(nodes[..at], w)|, seq(|run|, i requires 0 <= i < |run| => run[i].id))
  {
    hide Seen, Visible;
    AllSeen(run, w);
    SeenConcat(nodes[..at] + run, nodes[at..], w);
    SeenConcat(nodes[..at], run, w);
    assert nodes == nodes[..at] + nodes[at..];
    SeenConcat(nodes[..at], nodes[at..], w);
  }

  lemma {:induction false} SplicedView(nodes: seq<Node>, v: View, at: nat, run: seq<Node>)
    requires at <= |nodes| && FreshAtoms(nodes, Id(v.peer, v.own), |run|)
    requires forall k :: 0 <= k < |run| ==> run[k].id == Id(v.peer, v.own + k) && run[k].deleters == {}
    ensures |Seen(nodes[..at], v)| <= |Seen(nodes, v)|
    ensures Seen(Splice(nodes, at, run), Later(v, |run|)) ==
      Splice(Seen(nodes, v), |Seen(nodes[..at], v)|, RunIds(Id(v.peer, v.own), |run|))
  {
    hide Seen, FreshFor;
    SameSeen(nodes, v, |run|);
    SameSeen(nodes[..at], v, |run|);
    RunSpliced(nodes, Later(v, |run|), at, run);
    assert RunIds(Id(v.peer, v.own), |run|) == seq(|run|, i requires 0 <= i < |run| => run[i].id);
  }

  /** A list without its elements [low, low + n). */
  ghost function Without(s: seq<Id>, low: nat, n: nat): seq<Id> {
    if |s| <= low then s else s[..low] + if low + n < |s| then s[low + n..] else []
  }

  /** What a positional delete does to one element: the one of rank low + k is taken by atom k
      from the lowest, or from the highest when the delete ran backwards. */
  lemma {:induction false} RemovedOne(nodes: seq<Node>, v: View, id: Id, low: nat, len: int, i: nat)
    requires i < |nodes|
    ensures var m := RemoveAt(nodes, v, id, low, len);
      var n := if len < 0 then -len else len;
      var k := |Seen(nodes[..i], v)| - low;
      if Visible(nodes[i], v) && 0 <= k < n
      then m[i] == AddDeleter(nodes[i], Id(id.peer, id.counter + if len < 0 then n - 1 - k else k))
      else m[i] == nodes[i]
  {
  }

  ghost function Size(len: int): nat { if len < 0 then -len else len }

  lemma {:induction false} WithoutStep(s: seq<Id>, low: nat, n: nat, x: Id)
    ensures Without(s + [x], low, n) == Without(s, low, n) + if low <= |s| < low + n then [] else [x]
  {
    if low + n <= |s| { assert (s + [x])[low + n..] == s[low + n..] + [x]; }
    if low <= |s| { assert (s + [x])[..low] == s[..low]; }
  }

  lemma {:induction false} RemoveAtPrefix(nodes: seq<Node>, v: View, low: nat, len: int, i: nat)
    requires i <= |nodes| && FreshAtoms(nodes, Id(v.peer, v.own), Size(len))
    ensures Seen(RemoveAt(nodes, v, Id(v.peer, v.own), low, len)[..i], Later(v, Size(len))) ==
      Without(Seen(nodes[..i], v), low, Size(len))
  {
    if i > 0 {
      RemoveAtPrefix(nodes, v, low, len, i - 1);
      RemoveAtStep(nodes, v, low, len, i - 1);
    }
  }

  lemma {:induction false} RemoveAtStep(nodes: seq<Node>, v: View, low: nat, len: int, i: nat)
    requires i < |nodes| && FreshAtoms(nodes, Id(v.peer, v.own), Size(len))
    requires Seen(RemoveAt(nodes, v, Id(v.peer, v.own), low, len)[..i], Later(v, Size(len))) ==
      Without(Seen(nodes[..i], v), low, Size(len))
    ensures Seen(RemoveAt(nodes, v, Id(v.peer, v.own), low, len)[..i + 1], Later(v, Size(len))) ==
      Without(Seen(nodes[..i + 1], v), low, Size(len))
  {
    hide RemoveAt, Without, FreshFor;
    var m, w := RemoveAt(nodes, v, Id(v.peer, v.own), low, len), Later(v, Size(len));
    RemovedOne(nodes, v, Id(v.peer, v.own), low, len, i);
    assert m[..i + 1][..i] == m[..i] && nodes[..i + 1][..i] == nodes[..i];
    WithoutStep(Seen(nodes[..i], v), low, Size(len), nodes[i].id);
    SameView(nodes[i], v, Size(len));
    if Visible(nodes[i], v) && low <= |Seen(nodes[..i], v)| < low + Size(len) {
      var k := |Seen(nodes[..i], v)| - low;
      var d := Id(v.peer, v.own + if len < 0 then Size(len) - 1 - k else k);
      assert d in m[i].deleters && w.Has(d);
    } else if !Visible(nodes[i], v) {
      assert Seen(nodes[..i], v) + [] == Seen(nodes[..i], v);
    }
  }

  /** A positional delete removes exactly the elements [low, low + n) of the author's view. */
  lemma {:induction false} RemoveAtEdits(nodes: seq<Node>, v: View, pos: int, len: int)
    requires CanRemoveAt(nodes, v, pos, len)
    requires FreshAtoms(nodes, Id(v.peer, v.own), Size(len))
    ensures var low := Low(pos, len);
      Seen(RemoveAt(nodes, v, Id(v.peer, v.own), low, len), Later(v, Size(len))) ==
      Seen(nodes, v)[..low] + Seen(nodes, v)[low + Size(len)..]
  {
    hide RemoveAt, Seen, FreshAtoms;
    RemoveAtPrefix(nodes, v, Low(pos, len), len, |nodes|);
    var m := RemoveAt(nodes, v, Id(v.peer, v.own), Low(pos, len), len);
    assert nodes[..|nodes|] == nodes && m[..|nodes|] == m;
  }

  /** Which deleter each of them gets: rising with rank for a forward delete, falling for a backward one. */
  lemma {:induction false} RemoveAtAtom(nodes: seq<Node>, v: View, id: Id, pos: int, len: int, k: nat)
    requires CanRemoveAt(nodes, v, pos, len) && k < Size(len)
    ensures var low := Low(pos, len);
      var i := Nth(nodes, v, if len < 0 then low + Size(len) - 1 - k else low + k);
      RemoveAt(nodes, v, id, low, len)[i] == AddDeleter(nodes[i], Id(id.peer, id.counter + k))
  {
  }

  lemma {:induction false} OneRemoved(nodes: seq<Node>, v: View, src: nat, d: Id, w: View)
    requires src < |nodes| && Visible(nodes[src], v) && w.Has(d)
    requires forall i :: 0 <= i < |nodes| ==> Visible(nodes[i], v) == Visible(nodes[i], w)
    ensures |Seen(nodes[..src], v)| < |Seen(nodes, v)|
    ensures Seen(nodes[src := AddDeleter(nodes[src], d)], w) == Without(Seen(nodes, v), |Seen(nodes[..src], v)|, 1)
  {
    var m := nodes[src := AddDeleter(nodes[src], d)];
    NthIs(nodes, v, src);
    SeenAt(m, w, src);
    SeenAt(nodes, v, src);
    assert m[..src] == nodes[..src] && m[src + 1..] == nodes[src + 1..];
    SeenSame(nodes[..src], v, w);
    SeenSame(nodes[src + 1..], v, w);
    assert d in m[src].deleters;
  }

  lemma {:induction false} SeenSame(nodes: seq<Node>, v: View, w: View)
    requires forall i :: 0 <= i < |nodes| ==> Visible(nodes[i], v) == Visible(nodes[i], w)
    ensures Seen(nodes, v) == Seen(nodes, w)
  {
    if nodes != [] { SeenSame(nodes[..|nodes| - 1], v, w); }
  }

  /** A MovableList move takes the element at `from` out of its author's view, then puts the new
      position in at `pos` of what is left. */
  lemma {:induction false} MoveEdits(nodes: seq<Node>, v: View, from: nat, pos: int, cell: Cell, strict: bool)
    requires from < |Seen(nodes, v)| && FreshAtoms(nodes, Id(v.peer, v.own), 1)
    ensures var id := Id(v.peer, v.own);
      var src := Nth(nodes, v, from);
      var r := Insert(nodes[src := AddDeleter(nodes[src], id)], Later(v, 1), id, pos, [cell], strict);
      var rest := Without(Seen(nodes, v), from, 1);
      && (r.None? <==> strict && pos > |rest|)
      && (r.Some? ==> Seen(r.value, Later(v, 1)) == Splice(rest, Clamp(pos, |rest|), [id]))
  {
    hide Seen, Visible, Without;
    var id, w := Id(v.peer, v.own), Later(v, 1);
    var src := Nth(nodes, v, from);
    var gone := nodes[src := AddDeleter(nodes[src], id)];
    SameViews(nodes, v, 1);
    OneRemoved(nodes, v, src, id, w);
    var l: Option<int> := if pos > 0 then Locate(gone, w, pos, strict) else Some(-1);
    if pos > 0 { LocateRank(gone, w, pos, strict); }
    if l.Some? { MoveInserts(gone, w, l.value, id, cell); }
  }

  lemma {:induction false} SameViews(nodes: seq<Node>, v: View, n: nat)
    requires FreshAtoms(nodes, Id(v.peer, v.own), n)
    ensures forall i :: 0 <= i < |nodes| ==> Visible(nodes[i], v) == Visible(nodes[i], Later(v, n))
  {
    forall i | 0 <= i < |nodes| ensures Visible(nodes[i], v) == Visible(nodes[i], Later(v, n)) {
      assert FreshFor(nodes[i], Id(v.peer, v.own), n);
      SameView(nodes[i], v, n);
    }
  }

  lemma {:induction false} MoveInserts(nodes: seq<Node>, w: View, left: int, id: Id, cell: Cell)
    requires -1 <= left < |nodes| && w.Has(id)
    requires left >= 0 ==> Visible(nodes[left], w)
    ensures var rank := if left < 0 then 0 else |Seen(nodes[..left], w)| + 1;
      rank <= |Seen(nodes, w)| && Seen(InsertAfter(nodes, w, left, id, [cell]), w) == Splice(Seen(nodes, w), rank, [id])
  {
    hide Visible, PlaceAfter, NextSeen, Seen;
    var at := PlaceAfter(nodes, w, left, id.peer);
    RankAtPlace(nodes, w, left, at);
    var run := Run(id, OriginAt(nodes, left), OriginAt(nodes, NextSeen(nodes, w, left + 1)), [cell]);
    RunSpliced(nodes, w, at, run);
    assert seq(|run|, i requires 0 <= i < |run| => run[i].id) == [id];
  }
}
