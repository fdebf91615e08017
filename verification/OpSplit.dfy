/** Cutting an op in two, or joining two in one, changes nothing of what merging gives. */
module OpSplits {
  import opened Common
  import opened SeqTypes
  import opened SeqOrder
  import opened SeqInsert
  import opened SeqReference
  import opened SeqEdits
  import opened SeqFits
  import opened SeqPlan
  import opened SeqEffect
  import opened SeqApply
  import opened SeqSwap
  import opened SeqConverge
  import opened SeqViews
  import opened Ops
  import opened Folding
  import opened MovStates
  import opened SeqContents
  import opened SeqHistory
  import opened CausalHistory

  // ----- inserts -----

  /** A run in two parts, the second right behind the first. */
  lemma {:induction false} RunParts(nodes: seq<Node>, at: nat, id: Id, l: Option<Id>, r: Option<Id>, cells: seq<Cell>, n: nat)
    requires at <= |nodes| && 0 < n < |cells|
    ensures var last := Some(Id(id.peer, id.counter + n - 1));
      Splice(Splice(nodes, at, Run(id, l, r, cells[..n])), at + n, Run(Id(id.peer, id.counter + n), last, r, cells[n..])) ==
      Splice(nodes, at, Run(id, l, r, cells))
  {
    var run, a := Run(id, l, r, cells), Run(id, l, r, cells[..n]);
    var b := Run(Id(id.peer, id.counter + n), Some(Id(id.peer, id.counter + n - 1)), r, cells[n..]);
    assert a + b == run;
    SliceConcat(nodes[..at] + a, nodes[at..]);
    assert (nodes[..at] + a) + b + nodes[at..] == nodes[..at] + (a + b) + nodes[at..];
  }

  /** Right behind a new run nothing is in its author's view until what was next before. */
  lemma {:induction false} NextAfterRun(nodes: seq<Node>, v: View, at: nat, run: seq<Node>, end: nat)
    requires at <= end <= |nodes| && FreshAtoms(nodes, Id(v.peer, v.own), |run|)
    requires (forall j :: at <= j < end ==> !v.Has(nodes[j].id)) && (end < |nodes| ==> v.Has(nodes[end].id))
    ensures NextSeen(Splice(nodes, at, run), Later(v, |run|), at + |run|) == end + |run|
  {
    hide Splice;
    var m, w := Splice(nodes, at, run), Later(v, |run|);
    forall j | at + |run| <= j < |m| ensures m[j] == nodes[j - |run|] && (w.Has(m[j].id) <==> v.Has(m[j].id)) {
      AfterSplice(nodes, at, run, j);
      assert FreshFor(nodes[j - |run|], Id(v.peer, v.own), |run|);
    }
    NextIs(m, w, at + |run|, end + |run|);
  }

  lemma {:induction false} NextIs(nodes: seq<Node>, v: View, from: nat, end: nat)
    requires from <= end <= |nodes| && (forall j :: from <= j < end ==> !v.Has(nodes[j].id)) && (end < |nodes| ==> v.Has(nodes[end].id))
    ensures NextSeen(nodes, v, from) == end
  {
    var e := NextSeen(nodes, v, from);
    assert e == |nodes| || v.Has(nodes[e].id);
    assert end == |nodes| || v.Has(nodes[end].id);
  }

  /** Nothing there has a new element for its left origin, so whatever follows it goes right behind it. */
  lemma {:induction false} PlaceBehind(nodes: seq<Node>, m: seq<Node>, v: View, w: View, at: nat, run: seq<Node>, peer: nat)
    requires Distinct(nodes) && BetweenOrigins(nodes) && at <= |nodes| && m == Splice(nodes, at, run) && run != []
    requires FreshAtoms(nodes, Id(v.peer, v.own), |run|) && forall k :: 0 <= k < |run| ==> run[k].id == Id(v.peer, v.own + k)
    ensures PlaceAfter(m, w, at + |run| - 1, peer) == at + |run|
  {
    hide Splice, Distinct, BetweenOrigins;
    var start := at + |run|;
    var end := NextSeen(m, w, start);
    var left := OriginAt(m, start - 1);
    AfterSplice(nodes, at, run, start - 1);
    assert left == Some(Id(v.peer, v.own + |run| - 1));
    if start < end {
      AfterSplice(nodes, at, run, start);
      OriginOld(nodes, v, |run|, at);
      assert m[start..start] == [];
      assert Ids(m[start..start]) == {};
    }
  }

  lemma {:induction false} OriginOld(nodes: seq<Node>, v: View, n: nat, i: nat)
    requires BetweenOrigins(nodes) && i < |nodes| && FreshAtoms(nodes, Id(v.peer, v.own), n) && n > 0
    ensures nodes[i].left != Some(Id(v.peer, v.own + n - 1))
  {
    var x := Id(v.peer, v.own + n - 1);
    assert Present(nodes, nodes[i].left);
    if nodes[i].left == Some(x) {
      var j :| 0 <= j < |nodes| && nodes[j].id == x;
      assert FreshFor(nodes[j], Id(v.peer, v.own), n) && InAtoms(x, Id(v.peer, v.own), n);
    }
  }

  /** Where an insert finds its place. */
  ghost function LeftFor(nodes: seq<Node>, v: View, pos: int, strict: bool): Option<int> {
    if pos > 0 then Locate(nodes, v, pos, strict) else Some(-1)
  }

  lemma {:induction false} LeftIn(nodes: seq<Node>, v: View, pos: int, strict: bool)
    ensures var l := LeftFor(nodes, v, pos, strict); l.Some? ==> -1 <= l.value < |nodes| && (l.value >= 0 ==> Visible(nodes[l.value], v))
    ensures LeftFor(nodes, v, pos, strict).None? <==> strict && pos > |Seen(nodes, v)|
    ensures var l := LeftFor(nodes, v, pos, strict);
      l.Some? ==> Clamp(pos, |Seen(nodes, v)|) == if l.value < 0 then 0 else |Seen(nodes[..l.value], v)| + 1
  {
    hide Locate, Visible, Seen;
    if pos > 0 { LocateRank(nodes, v, pos, strict); }
  }

  /** The second part of an insert finds the last element of the first part on its left. */
  lemma {:induction false} SecondLeft(m: seq<Node>, w: View, pos: int, strict: bool, i: nat)
    requires i < |m| && Visible(m[i], w) && pos > 0 && Clamp(pos, |Seen(m, w)|) == |Seen(m[..i], w)| + 1
    requires strict ==> pos <= |Seen(m, w)|
    ensures LeftFor(m, w, pos, strict) == Some(i)
  {
    hide Visible, Seen, Locate, Nth;
    LeftIn(m, w, pos, strict);
    var l := LeftFor(m, w, pos, strict).value;
    NthIs(m, w, i);
    if l >= 0 { NthIs(m, w, l); }
  }

  /** Inserting cells in two parts, one after the other. */
  lemma {:induction false} InsertParts(nodes: seq<Node>, v: View, pos: nat, cells: seq<Cell>, strict: bool, n: nat)
    requires Distinct(nodes) && BetweenOrigins(nodes) && FreshAtoms(nodes, Id(v.peer, v.own), |cells|) && 0 < n < |cells|
    ensures var a := Insert(nodes, v, Id(v.peer, v.own), pos, cells[..n], strict);
      Insert(nodes, v, Id(v.peer, v.own), pos, cells, strict) ==
      if a.None? then None else Insert(a.value, Later(v, n), Id(v.peer, v.own + n), pos + n, cells[n..], strict)
  {
    hide Distinct, BetweenOrigins, FreshAtoms, Seen, Visible, LeftFor, InsertAfter;
    LeftIn(nodes, v, pos, strict);
    InsertFrom(nodes, v, Id(v.peer, v.own), pos, cells, strict);
    InsertFrom(nodes, v, Id(v.peer, v.own), pos, cells[..n], strict);
    var left := LeftFor(nodes, v, pos, strict);
    if left.Some? {
      FewerAtoms(nodes, Id(v.peer, v.own), n, |cells|);
      PartsAfter(nodes, v, pos, left.value, cells, strict, n);
    }
  }

  lemma {:induction false} InsertFrom(nodes: seq<Node>, v: View, id: Id, pos: int, cells: seq<Cell>, strict: bool)
    requires cells != []
    ensures LeftFor(nodes, v, pos, strict).Some? ==> -1 <= LeftFor(nodes, v, pos, strict).value < |nodes|
    ensures Insert(nodes, v, id, pos, cells, strict) ==
      if LeftFor(nodes, v, pos, strict).None? then None else Some(InsertAfter(nodes, v, LeftFor(nodes, v, pos, strict).value, id, cells))
  {
    hide Locate, InsertAfter;
    AnyLocate(nodes, v, pos, strict);
  }

  lemma {:induction false} FewerAtoms(nodes: seq<Node>, id: Id, n: nat, all: nat)
    requires FreshAtoms(nodes, id, all) && n <= all
    ensures FreshAtoms(nodes, id, n)
  {
    forall i | 0 <= i < |nodes| ensures FreshFor(nodes[i], id, n) { assert FreshFor(nodes[i], id, all); }
  }

  lemma {:induction false} PartsAfter(nodes: seq<Node>, v: View, pos: nat, left: int, cells: seq<Cell>, strict: bool, n: nat)
    requires Distinct(nodes) && BetweenOrigins(nodes) && FreshAtoms(nodes, Id(v.peer, v.own), n) && 0 < n < |cells|
    requires -1 <= left < |nodes| && (left >= 0 ==> Visible(nodes[left], v)) && (strict ==> pos <= |Seen(nodes, v)|)
    requires Clamp(pos, |Seen(nodes, v)|) == if left < 0 then 0 else |Seen(nodes[..left], v)| + 1
    ensures var m := InsertAfter(nodes, v, left, Id(v.peer, v.own), cells[..n]);
      Insert(m, Later(v, n), Id(v.peer, v.own + n), pos + n, cells[n..], strict) == Some(InsertAfter(nodes, v, left, Id(v.peer, v.own), cells))
  {
    hide Distinct, BetweenOrigins, FreshAtoms, Seen, Visible, LeftFor, PlaceAfter, NextSeen, Splice, Run, Insert, Locate;
    var id, w := Id(v.peer, v.own), Later(v, n);
    var at, end := PlaceAfter(nodes, v, left, id.peer), NextSeen(nodes, v, left + 1);
    var l, r := OriginAt(nodes, left), OriginAt(nodes, end);
    var run := Run(id, l, r, cells[..n]);
    var m := Splice(nodes, at, run);
    RunIs(id, l, r, cells[..n]);
    SecondFinds(nodes, v, pos, left, run, strict);
    InsertFrom(m, w, Id(v.peer, v.own + n), pos + n, cells[n..], strict);
    SecondAfter(nodes, v, left, run, Id(v.peer, v.own + n), cells[n..]);
    RunParts(nodes, at, id, l, r, cells, n);
  }

  lemma {:induction false} SecondAfter(nodes: seq<Node>, v: View, left: int, run: seq<Node>, id: Id, cells: seq<Cell>)
    requires Distinct(nodes) && BetweenOrigins(nodes) && FreshAtoms(nodes, Id(v.peer, v.own), |run|) && run != [] && -1 <= left < |nodes|
    requires (forall k :: 0 <= k < |run| ==> run[k].id == Id(v.peer, v.own + k)) && id.peer == v.peer
    ensures var at, end := PlaceAfter(nodes, v, left, v.peer), NextSeen(nodes, v, left + 1);
      var m := Splice(nodes, at, run);
      InsertAfter(m, Later(v, |run|), at + |run| - 1, id, cells) ==
      Splice(m, at + |run|, Run(id, Some(Id(v.peer, v.own + |run| - 1)), OriginAt(nodes, end), cells))
  {
    hide Distinct, BetweenOrigins, FreshAtoms, PlaceAfter, NextSeen, Splice, Run;
    SecondPlace(nodes, v, left, run);
  }

  lemma {:induction false} SecondFinds(nodes: seq<Node>, v: View, pos: nat, left: int, run: seq<Node>, strict: bool)
    requires FreshAtoms(nodes, Id(v.peer, v.own), |run|) && run != [] && -1 <= left < |nodes| && (left >= 0 ==> Visible(nodes[left], v))
    requires forall k :: 0 <= k < |run| ==> run[k].id == Id(v.peer, v.own + k) && run[k].deleters == {}
    requires strict ==> pos <= |Seen(nodes, v)|
    requires Clamp(pos, |Seen(nodes, v)|) == if left < 0 then 0 else |Seen(nodes[..left], v)| + 1
    ensures var at := PlaceAfter(nodes, v, left, v.peer);
      LeftFor(Splice(nodes, at, run), Later(v, |run|), pos + |run|, strict) == Some(at + |run| - 1)
  {
    hide FreshAtoms, Seen, Visible, LeftFor, PlaceAfter, NextSeen, Splice;
    var at := PlaceAfter(nodes, v, left, v.peer);
    FirstPart(nodes, v, left, at, run);
    SecondLeft(Splice(nodes, at, run), Later(v, |run|), pos + |run|, strict, at + |run| - 1);
  }

  lemma {:induction false} RunIs(id: Id, l: Option<Id>, r: Option<Id>, cells: seq<Cell>)
    ensures |Run(id, l, r, cells)| == |cells|
    ensures forall k :: 0 <= k < |cells| ==> Run(id, l, r, cells)[k].id == Id(id.peer, id.counter + k) && Run(id, l, r, cells)[k].deleters == {}
  {
  }

  /** After the first part: its last element is visible, at the rank the second part asks for. */
  lemma {:induction false} FirstPart(nodes: seq<Node>, v: View, left: int, at: nat, run: seq<Node>)
    requires FreshAtoms(nodes, Id(v.peer, v.own), |run|) && run != [] && -1 <= left < |nodes| && (left >= 0 ==> Visible(nodes[left], v))
    requires at == PlaceAfter(nodes, v, left, v.peer)
    requires forall k :: 0 <= k < |run| ==> run[k].id == Id(v.peer, v.own + k) && run[k].deleters == {}
    ensures var m, w, last := Splice(nodes, at, run), Later(v, |run|), at + |run| - 1;
      && Visible(m[last], w) && |Seen(m, w)| == |Seen(nodes, v)| + |run|
      && |Seen(m[..last], w)| + 1 == |run| + if left < 0 then 0 else |Seen(nodes[..left], v)| + 1
  {
    hide FreshAtoms, Seen, PlaceAfter, NextSeen, Splice;
    var m, w, last := Splice(nodes, at, run), Later(v, |run|), at + |run| - 1;
    var part := run[..|run| - 1];
    RankAtPlace(nodes, v, left, at);
    SplicedView(nodes, v, at, run);
    FewerNodes(nodes, at, Id(v.peer, v.own), |run|);
    SpliceTo(nodes, at, run);
    SameSeen(nodes[..at], v, |run|);
    AllSeen(part, w);
    SeenConcat(nodes[..at], part, w);
    AfterSplice(nodes, at, run, last);
    LastVisible(run, v);
  }

  lemma {:induction false} LastVisible(run: seq<Node>, v: View)
    requires run != [] && forall k :: 0 <= k < |run| ==> run[k].id == Id(v.peer, v.own + k) && run[k].deleters == {}
    ensures Visible(run[|run| - 1], Later(v, |run|))
  {
  }

  lemma {:induction false} SpliceTo(nodes: seq<Node>, at: nat, run: seq<Node>)
    requires at <= |nodes| && run != []
    ensures Splice(nodes, at, run)[..at + |run| - 1] == nodes[..at] + run[..|run| - 1]
  {
  }

  lemma {:induction false} FewerNodes(nodes: seq<Node>, at: nat, id: Id, n: nat)
    requires FreshAtoms(nodes, id, n) && at <= |nodes|
    ensures FreshAtoms(nodes[..at], id, n)
  {
    forall i | 0 <= i < at ensures FreshFor(nodes[..at][i], id, n) { assert FreshFor(nodes[i], id, n); }
  }

  /** The second part goes right behind the first, with the same right origin. */
  lemma {:induction false} SecondPlace(nodes: seq<Node>, v: View, left: int, run: seq<Node>)
    requires Distinct(nodes) && BetweenOrigins(nodes) && FreshAtoms(nodes, Id(v.peer, v.own), |run|) && run != [] && -1 <= left < |nodes|
    requires forall k :: 0 <= k < |run| ==> run[k].id == Id(v.peer, v.own + k)
    ensures var at, end := PlaceAfter(nodes, v, left, v.peer), NextSeen(nodes, v, left + 1);
      var m, w := Splice(nodes, at, run), Later(v, |run|);
      && PlaceAfter(m, w, at + |run| - 1, v.peer) == at + |run|
      && OriginAt(m, at + |run| - 1) == Some(Id(v.peer, v.own + |run| - 1))
      && OriginAt(m, NextSeen(m, w, at + |run|)) == OriginAt(nodes, end)
  {
    hide Distinct, BetweenOrigins, FreshAtoms, PlaceAfter, NextSeen, Splice;
    var at, end := PlaceAfter(nodes, v, left, v.peer), NextSeen(nodes, v, left + 1);
    var m := Splice(nodes, at, run);
    PlaceBehind(nodes, m, v, Later(v, |run|), at, run, v.peer);
    AfterSplice(nodes, at, run, at + |run| - 1);
    NextAfterRun(nodes, v, at, run, end);
    if end < |nodes| { AfterSplice(nodes, at, run, end + |run|); }
  }

  // ----- deletes -----

  ghost function AtomOf(id: Id, k: int): Id { Id(id.peer, id.counter + k) }

  /** Which deleter a positional delete that starts at pos and runs over len gives the element of rank r. */
  ghost function DeleterAt(id: Id, pos: int, len: int, r: int): Option<Id> {
    var k := if len < 0 then pos - r else r - pos;
    if 0 <= k < Size(len) then Some(AtomOf(id, k)) else None
  }

  /** The signed lengths of a delete's first n atoms and of the others, and the position those start from. */
  function FirstLen(len: int, n: int): int { if len < 0 then -n else n }

  function RestLen(len: int, n: int): int { if len < 0 then len + n else len - n }

  function RestPos(pos: int, len: int, n: int): int { if len < 0 then pos - n else pos }

  lemma {:induction false} RemovedIs(nodes: seq<Node>, v: View, id: Id, pos: int, len: int, i: nat)
    requires i < |nodes| && len != 0 && Low(pos, len) >= 0
    ensures RemoveAt(nodes, v, id, Low(pos, len), len)[i] ==
      MarkNode(nodes[i], if Visible(nodes[i], v) then DeleterAt(id, pos, len, |Seen(nodes[..i], v)|) else None)
  {
    hide Visible, Seen;
    RemovedOne(nodes, v, id, Low(pos, len), len, i);
  }

  /** The elements a delete's first part leaves in view, and their ranks after it. */
  lemma {:induction false} LeftInView(nodes: seq<Node>, v: View, pos: int, len: int, i: nat)
    requires i < |nodes| && len != 0 && Low(pos, len) >= 0 && FreshAtoms(nodes, Id(v.peer, v.own), Size(len))
    ensures var m, w := RemoveAt(nodes, v, Id(v.peer, v.own), Low(pos, len), len), Later(v, Size(len));
      var r := |Seen(nodes[..i], v)|;
      && (Visible(m[i], w) <==> Visible(nodes[i], v) && DeleterAt(Id(v.peer, v.own), pos, len, r).None?)
      && (Visible(m[i], w) ==> |Seen(m[..i], w)| == if r < Low(pos, len) then r else r - Size(len))
  {
    hide Seen, RemoveAt, FreshAtoms;
    var id, low := Id(v.peer, v.own), Low(pos, len);
    var m, w := RemoveAt(nodes, v, id, low, len), Later(v, Size(len));
    RemovedIs(nodes, v, id, pos, len, i);
    FreshHere(nodes, id, Size(len), i);
    SameView(nodes[i], v, Size(len));
    var d := DeleterAt(id, pos, len, |Seen(nodes[..i], v)|);
    if Visible(nodes[i], v) && d.Some? { assert d.value in m[i].deleters && w.Has(d.value); }
    RemoveAtPrefix(nodes, v, low, len, i);
  }

  lemma {:induction false} FreshHere(nodes: seq<Node>, id: Id, n: nat, i: nat)
    requires FreshAtoms(nodes, id, n) && i < |nodes|
    ensures FreshFor(nodes[i], id, n)
  {
  }

  /** A positional delete in two parts, the second at the position a clipped delete has. */
  lemma {:induction false} RemoveParts(nodes: seq<Node>, v: View, pos: int, len: int, n: nat)
    requires CanRemoveAt(nodes, v, pos, len) && 0 < n < Size(len) && FreshAtoms(nodes, Id(v.peer, v.own), Size(len))
    ensures var la, lb, to := FirstLen(len, n), RestLen(len, n), RestPos(pos, len, n);
      var id := Id(v.peer, v.own);
      && Low(pos, la) >= 0 && Low(to, lb) >= 0
      && RemoveAt(RemoveAt(nodes, v, id, Low(pos, la), la), Later(v, n), Id(v.peer, v.own + n), Low(to, lb), lb) ==
         RemoveAt(nodes, v, id, Low(pos, len), len)
  {
    hide Seen, RemoveAt, FreshAtoms, Visible, MarkNode;
    var la, lb, to := FirstLen(len, n), RestLen(len, n), RestPos(pos, len, n);
    var id := Id(v.peer, v.own);
    var m := RemoveAt(nodes, v, id, Low(pos, la), la);
    var x, y := RemoveAt(m, Later(v, n), Id(v.peer, v.own + n), Low(to, lb), lb), RemoveAt(nodes, v, id, Low(pos, len), len);
    FewerAtoms(nodes, id, n, Size(len));
    forall i | 0 <= i < |nodes| ensures x[i] == y[i] { PartsAt(nodes, v, pos, len, n, i); }
  }

  lemma {:induction false} PartsAt(nodes: seq<Node>, v: View, pos: int, len: int, n: nat, i: nat)
    requires Low(pos, len) >= 0 && 0 < n < Size(len) && FreshAtoms(nodes, Id(v.peer, v.own), n) && i < |nodes|
    ensures var la, lb, to := FirstLen(len, n), RestLen(len, n), RestPos(pos, len, n);
      var id := Id(v.peer, v.own);
      RemoveAt(RemoveAt(nodes, v, id, Low(pos, la), la), Later(v, n), Id(v.peer, v.own + n), Low(to, lb), lb)[i] ==
      RemoveAt(nodes, v, id, Low(pos, len), len)[i]
  {
    hide Seen, RemoveAt, FreshAtoms, Visible;
    var la, lb, to := FirstLen(len, n), RestLen(len, n), RestPos(pos, len, n);
    var id := Id(v.peer, v.own);
    var m := RemoveAt(nodes, v, id, Low(pos, la), la);
    LeftInView(nodes, v, pos, la, i);
    RemovedIs(nodes, v, id, pos, len, i);
    RemovedIs(nodes, v, id, pos, la, i);
    RemovedIs(m, Later(v, n), Id(v.peer, v.own + n), to, lb, i);
  }

  /** The second part is possible when the whole is. */
  lemma {:induction false} BothReach(nodes: seq<Node>, v: View, pos: int, len: int, n: nat)
    requires 0 < n < Size(len) && FreshAtoms(nodes, Id(v.peer, v.own), n)
    ensures var la, lb, to := FirstLen(len, n), RestLen(len, n), RestPos(pos, len, n);
      CanRemoveAt(nodes, v, pos, len) <==>
        CanRemoveAt(nodes, v, pos, la)
        && CanRemoveAt(RemoveAt(nodes, v, Id(v.peer, v.own), Low(pos, la), la), Later(v, n), to, lb)
  {
    hide Seen, RemoveAt, FreshAtoms;
    var la := FirstLen(len, n);
    if CanRemoveAt(nodes, v, pos, la) { RemoveAtEdits(nodes, v, pos, la); }
  }

  /** A delete by recorded ids in two parts. */
  lemma {:induction false} IdsParts(nodes: seq<Node>, id: Id, span: DeleteSpan, n: nat)
    requires 0 < n < span.Size()
    ensures var a := DeleteSpan(span.peer, if span.len < 0 then span.counter + span.Size() - n else span.counter, FirstLen(span.len, n));
      var b := DeleteSpan(span.peer, if span.len < 0 then span.counter else span.counter + n, RestLen(span.len, n));
      RemoveIds(RemoveIds(nodes, id, a), Id(id.peer, id.counter + n), b) == RemoveIds(nodes, id, span)
  {
  }

  // ----- ops -----

  /** The op with its first n atoms alone, and with the others. */
  ghost function First(op: Op, n: nat): Op
    requires (op.body.Items? && n <= |op.body.items|) || op.body.DeleteSeq?
  {
    if op.body.Items? then op.(len := n, body := Items(op.body.items[..n]))
    else
      var span := op.body.span;
      op.(len := n, body := DeleteSeq(DeleteSpan(span.peer, if span.len < 0 then span.counter + span.Size() - n else span.counter, FirstLen(span.len, n))))
  }

  ghost function Second(op: Op, n: nat): Op
    requires (op.body.Items? && n <= |op.body.items|) || op.body.DeleteSeq?
  {
    var next := op.(id := Id(op.id.peer, op.id.counter + n), lamport := op.lamport + n, len := op.len - n);
    if op.body.Items? then next.(pos := op.pos + n, body := Items(op.body.items[n..]))
    else
      var span := op.body.span;
      next.(pos := RestPos(op.pos, span.len, n),
            body := DeleteSeq(DeleteSpan(span.peer, if span.len < 0 then span.counter else span.counter + n, RestLen(span.len, n))))
  }

  /** Clipping gives just these. */
  lemma {:induction false} ClipHalves(op: Op, n: nat)
    requires (op.body.Items? || op.body.DeleteSeq?) && RightLen(op) && 0 < n < op.len
    ensures Clip(op, 0, n) == Some(First(op, n)) && Clip(op, n, op.len - n) == Some(Second(op, n))
  {
    if op.body.Items? {
      assert op.body.items[0..0 + n] == op.body.items[..n] && op.body.items[n..n + (op.len - n)] == op.body.items[n..];
      assert Id(op.id.peer, op.id.counter + 0) == op.id;
    }
  }

  lemma {:induction false} ElemsParts(elems: Elems, op: Op, n: nat, j: nat)
    requires op.body.Items? && n + j <= |op.body.items|
    ensures NewElems(elems, op, n + j) == NewElems(NewElems(elems, First(op, n), n), Second(op, n), j)
  {
    if j > 0 {
      ElemsParts(elems, op, n, j - 1);
    } else {
      ElemsFirst(elems, op, n, n);
    }
  }

  lemma {:induction false} ElemsFirst(elems: Elems, op: Op, n: nat, j: nat)
    requires op.body.Items? && j <= n <= |op.body.items|
    ensures NewElems(elems, op, j) == NewElems(elems, First(op, n), j)
  {
    if j > 0 { ElemsFirst(elems, op, n, j - 1); }
  }

  lemma {:induction false} CellsParts(op: Op, n: nat)
    requires op.body.Items? && n <= |op.body.items|
    ensures |Cells(op)| == |op.body.items|
    ensures Cells(First(op, n)) == Cells(op)[..n] && Cells(Second(op, n)) == Cells(op)[n..]
  {
  }

  lemma {:induction false} ItemsSplit(s: SeqVal, op: Op, v: View, byPosition: bool, strict: bool, n: nat)
    requires op.body.Items? && op.pos >= 0 && op.len == |op.body.items| && 0 < n < op.len && op.id == Id(v.peer, v.own)
    requires Distinct(s.nodes) && BetweenOrigins(s.nodes) && FreshAtoms(s.nodes, op.id, op.len)
    ensures Apply(s, op, v, byPosition, strict) ==
      Then(Apply(s, First(op, n), v, byPosition, strict), Second(op, n), Later(v, n), byPosition, strict)
  {
    hide Insert, NewElems, Distinct, BetweenOrigins, FreshAtoms, Cells;
    CellsParts(op, n);
    InsertParts(s.nodes, v, op.pos, Cells(op), strict, n);
    ElemsParts(s.elems, op, n, op.len - n);
  }

  lemma {:induction false} DeleteSplit(s: SeqVal, op: Op, v: View, byPosition: bool, strict: bool, n: nat)
    requires op.body.DeleteSeq? && op.len == Size(op.body.span.len) && 0 < n < op.len && op.id == Id(v.peer, v.own)
    requires FreshAtoms(s.nodes, op.id, op.len)
    requires byPosition && !strict && op.cont.kind != MovableList ==> CanRemoveAt(s.nodes, v, op.pos, op.body.span.len)
    ensures Apply(s, op, v, byPosition, strict) ==
      Then(Apply(s, First(op, n), v, byPosition, strict), Second(op, n), Later(v, n), byPosition, strict)
  {
    hide CanRemoveAt, RemoveAt, RemoveIds, FreshAtoms, Low;
    var span := op.body.span;
    FewerAtoms(s.nodes, op.id, n, op.len);
    BothReach(s.nodes, v, op.pos, span.len, n);
    if byPosition && op.cont.kind != MovableList {
      if CanRemoveAt(s.nodes, v, op.pos, span.len) { RemoveParts(s.nodes, v, op.pos, span.len, n); }
    } else {
      IdsParts(s.nodes, op.id, span, n);
    }
  }

  /** Merging an op cut in two, the parts in turn, is merging the op. Its position is not below 0, which no op read is; a
      delete read by position in a merge that is not strict is one that finds its positions. */
  lemma {:induction false} SplitApplies(s: SeqVal, op: Op, v: View, byPosition: bool, strict: bool, n: nat)
    requires Distinct(s.nodes) && BetweenOrigins(s.nodes) && WellFormed(op, v) && FreshAtoms(s.nodes, op.id, op.len)
    requires (op.body.Items? && op.pos >= 0) || op.body.DeleteSeq?
    requires op.body.DeleteSeq? && byPosition && !strict && op.cont.kind != MovableList ==> CanRemoveAt(s.nodes, v, op.pos, op.body.span.len)
    requires 0 < n < op.len
    ensures var a, b := Clip(op, 0, n), Clip(op, n, op.len - n);
      && a.Some? && b.Some?
      && Apply(s, op, v, byPosition, strict) == Then(Apply(s, a.value, v, byPosition, strict), b.value, Later(v, n), byPosition, strict)
  {
    hide Apply, Distinct, BetweenOrigins, FreshAtoms, CanRemoveAt, Clip;
    ClipHalves(op, n);
    if op.body.Items? { ItemsSplit(s, op, v, byPosition, strict, n); } else { DeleteSplit(s, op, v, byPosition, strict, n); }
  }

  // ----- folding -----

  /** A delete of one element is the same run either way. */
  lemma {:induction false} EitherWay(s: SeqVal, p: Op, q: Op, v: View, byPosition: bool, strict: bool)
    requires p.body.DeleteSeq? && Size(p.body.span.len) == 1 && q == p.(body := DeleteSeq(p.body.span.(len := -p.body.span.len)))
    ensures Apply(s, p, v, byPosition, strict) == Apply(s, q, v, byPosition, strict)
  {
    hide Seen, Visible;
    var a, b := RemoveIds(s.nodes, p.id, p.body.span), RemoveIds(s.nodes, q.id, q.body.span);
    forall i | 0 <= i < |s.nodes| ensures a[i] == b[i] {}
    if p.pos >= 0 {
      var x, y := RemoveAt(s.nodes, v, p.id, p.pos, p.body.span.len), RemoveAt(s.nodes, v, q.id, q.pos, q.body.span.len);
      forall i | 0 <= i < |s.nodes| ensures x[i] == y[i] {}
      assert x == y;
    }
    assert a == b;
  }

  /** A delete up to the direction one of a single element runs. */
  ghost predicate SameDelete(p: Op, q: Op) {
    q == p || (p.body.DeleteSeq? && Size(p.body.span.len) == 1 && q == p.(body := DeleteSeq(p.body.span.(len := -p.body.span.len))))
  }

  lemma {:induction false} SameApplies(s: SeqVal, p: Op, q: Op, v: View, byPosition: bool, strict: bool)
    requires SameDelete(p, q)
    ensures Apply(s, p, v, byPosition, strict) == Apply(s, q, v, byPosition, strict)
  {
    hide Apply;
    if q != p { EitherWay(s, p, q, v, byPosition, strict); }
  }

  /** Cutting a folded op where the two met gives them back. */
  lemma {:induction false} FoldHalves(a: Op, b: Op)
    requires MayFold(a, b) && RightLen(a) && RightLen(b) && b.lamport == a.lamport + a.len
    ensures var f := Fold(a, b);
      && (f.body.Items? || f.body.DeleteSeq?) && f.len == a.len + b.len && RightLen(f)
      && SameDelete(First(f, a.len), a) && SameDelete(Second(f, a.len), b)
  {
    var f := Fold(a, b);
    FoldJoins(a, b);
    if a.body.Items? {
      assert f.body.items[..a.len] == a.body.items && f.body.items[a.len..] == b.body.items;
    } else {
      MergedSpan(SpanOf(a), SpanOf(b));
    }
  }

  /** Merging two ops folded into one is merging them in turn. */
  lemma {:induction false} FoldApplies(s: SeqVal, a: Op, b: Op, v: View, byPosition: bool, strict: bool)
    requires MayFold(a, b) && RightLen(a) && RightLen(b) && b.lamport == a.lamport + a.len && WellFormed(Fold(a, b), v)
    requires Distinct(s.nodes) && BetweenOrigins(s.nodes) && FreshAtoms(s.nodes, a.id, a.len + b.len)
    requires a.body.Items? ==> a.pos >= 0
    requires a.body.DeleteSeq? && byPosition && !strict && a.cont.kind != MovableList ==>
      CanRemoveAt(s.nodes, v, Fold(a, b).pos, SpanOf(Fold(a, b)).len)
    ensures Apply(s, Fold(a, b), v, byPosition, strict) ==
      Then(Apply(s, a, v, byPosition, strict), b, Later(v, a.len), byPosition, strict)
  {
    hide Apply, Distinct, BetweenOrigins, FreshAtoms, CanRemoveAt, MayFold, Fold, SameDelete, First, Second;
    var f := Fold(a, b);
    FoldHalves(a, b);
    FoldShape(a, b);
    if f.body.Items? { ItemsSplit(s, f, v, byPosition, strict, a.len); } else { DeleteSplit(s, f, v, byPosition, strict, a.len); }
    SameApplies(s, First(f, a.len), a, v, byPosition, strict);
    var t := Apply(s, a, v, byPosition, strict);
    if t.Some? { SameApplies(t.value, Second(f, a.len), b, Later(v, a.len), byPosition, strict); }
  }

  lemma {:induction false} FoldShape(a: Op, b: Op)
    requires MayFold(a, b) && RightLen(a) && RightLen(b)
    ensures var f := Fold(a, b);
      f.id == a.id && f.cont == a.cont && (f.body.Items? ==> a.body.Items? && f.pos == a.pos && f.len == |f.body.items|)
      && (f.body.DeleteSeq? ==> a.body.DeleteSeq? && f.len == Size(f.body.span.len))
      && 0 < a.len < f.len
  {
    FoldJoins(a, b);
  }

  // ----- whole merges -----

  /** An op in a history may be cut in two: every container merges to the same. */
  lemma {:induction false} SplitMerge(h: History, pre: seq<Op>, op: Op, rest: seq<Op>, n: nat, key: ContKey, strict: bool)
    requires Complete(h) && HonestOps(h, pre + [op], Mode(true, strict)) && InOrder(h, pre + [op]) && op.IsSeq()
    requires (op.body.Items? && op.pos >= 0) || (op.body.DeleteSeq? && (strict || op.cont.kind == MovableList))
    requires 0 < n < op.len
    ensures var a, b := Clip(op, 0, n), Clip(op, n, op.len - n);
      && a.Some? && b.Some?
      && Replay(EventsOf(h, pre + [op] + rest, key), Mode(true, strict)) ==
         Replay(EventsOf(h, pre + [a.value, b.value] + rest, key), Mode(true, strict))
  {
    hide Replay, EventsOf, HonestOps, InOrder, ViewOf, Closed, CausalHistory.OwnSeen, Clip, First, Second, Past;
    var mode := Mode(true, strict);
    InOps(h, pre, op, mode);
    ClipHalves(op, n);
    var a, b := First(op, n), Second(op, n);
    EventsConcat(h, pre + [op], rest, key);
    EventsConcat(h, pre + [a, b], rest, key);
    if op.cont == key {
      SplitStep(h, pre, op, n, mode);
      ReplayRest(EventsOf(h, pre + [op], key), EventsOf(h, pre + [a, b], key), EventsOf(h, rest, key), mode);
    } else {
      OtherParts(h, pre, op, n, key);
    }
  }

  lemma {:induction false} InOps(h: History, pre: seq<Op>, op: Op, mode: Mode)
    requires Complete(h) && HonestOps(h, pre + [op], mode) && op.IsSeq() && (op.body.Items? || op.body.DeleteSeq?)
    ensures TellsOp(h, op) && RightLength(op) && RightLen(op) && op.id in h
  {
    hide HonestTwo, NamesSeen;
    assert op in pre + [op] && HonestOp(h, op, mode);
    assert InAtoms(op.id, op.id, op.len);
  }

  lemma {:induction false} EventsConcat(h: History, xs: seq<Op>, ys: seq<Op>, key: ContKey)
    requires Complete(h)
    ensures EventsOf(h, xs + ys, key) == EventsOf(h, xs, key) + EventsOf(h, ys, key)
  {
    hide ViewOf, Closed, CausalHistory.OwnSeen;
    if ys == [] {
      assert xs + ys == xs;
    } else {
      var m := |ys| - 1;
      assert (xs + ys)[..|xs| + m] == xs + ys[..m];
      EventsConcat(h, xs, ys[..m], key);
    }
  }

  lemma {:induction false} PartsOf(op: Op, n: nat)
    requires (op.body.Items? && n <= |op.body.items|) || op.body.DeleteSeq?
    ensures First(op, n).cont == op.cont && Second(op, n).cont == op.cont && First(op, n).IsSeq() == op.IsSeq() == Second(op, n).IsSeq()
    ensures First(op, n).id == op.id && Second(op, n).id == Id(op.id.peer, op.id.counter + n)
  {
  }

  lemma {:induction false} OtherParts(h: History, pre: seq<Op>, op: Op, n: nat, key: ContKey)
    requires Complete(h) && op.cont != key && ((op.body.Items? && n <= |op.body.items|) || op.body.DeleteSeq?)
    ensures EventsOf(h, pre + [op], key) == EventsOf(h, pre + [First(op, n), Second(op, n)], key)
  {
    hide EventsOf, ViewOf, Closed, CausalHistory.OwnSeen;
    PartsOf(op, n);
    assert pre + [First(op, n), Second(op, n)] == (pre + [First(op, n)]) + [Second(op, n)];
    EventsStep(h, pre, op, key);
    EventsStep(h, pre, First(op, n), key);
    EventsStep(h, pre + [First(op, n)], Second(op, n), key);
  }

  lemma {:induction false} SplitStep(h: History, pre: seq<Op>, op: Op, n: nat, mode: Mode)
    requires Complete(h) && HonestOps(h, pre + [op], mode) && InOrder(h, pre + [op]) && op.IsSeq()
    requires (op.body.Items? && op.pos >= 0) || (op.body.DeleteSeq? && (mode.strict || op.cont.kind == MovableList))
    requires TellsOp(h, op) && RightLength(op) && 0 < n < op.len
    ensures Replay(EventsOf(h, pre + [op], op.cont), mode) == Replay(EventsOf(h, pre + [First(op, n), Second(op, n)], op.cont), mode)
  {
    hide Replay, EventsOf, HonestOps, InOrder, ViewOf, Closed, CausalHistory.OwnSeen, TellsOp, Apply, First, Second, Past, SameHas;
    var a, b, key := First(op, n), Second(op, n), op.cont;
    PartsOf(op, n);
    assert pre + [a, b] == (pre + [a]) + [b];
    EventsStep(h, pre, op, key);
    EventsStep(h, pre, a, key);
    EventsStep(h, pre + [a], b, key);
    var es := EventsOf(h, pre, key);
    ReplayStep(es, EventOf(h, op), mode);
    ReplayStep(es, EventOf(h, a), mode);
    ReplayStep(es + [EventOf(h, a)], EventOf(h, b), mode);
    if Replay(es, mode).Some? { SplitHere(h, pre, op, n, mode, Replay(es, mode).value); }
  }

  lemma {:induction false} SplitHere(h: History, pre: seq<Op>, op: Op, n: nat, mode: Mode, s: SeqVal)
    requires Complete(h) && HonestOps(h, pre + [op], mode) && InOrder(h, pre + [op]) && op.IsSeq()
    requires (op.body.Items? && op.pos >= 0) || (op.body.DeleteSeq? && (mode.strict || op.cont.kind == MovableList))
    requires TellsOp(h, op) && RightLength(op) && 0 < n < op.len && Replay(EventsOf(h, pre, op.cont), mode) == Some(s)
    ensures Second(op, n).id == Id(op.id.peer, op.id.counter + n)
    ensures Apply(s, op, ViewOf(h, op.id), mode.byPosition, mode.strict) ==
      Then(Apply(s, First(op, n), ViewOf(h, op.id), mode.byPosition, mode.strict), Second(op, n), ViewOf(h, Second(op, n).id),
           mode.byPosition, mode.strict)
  {
    hide Replay, EventsOf, HonestOps, InOrder, ViewOf, Closed, CausalHistory.OwnSeen, Apply, First, Second, Past, SameHas, Distinct, BetweenOrigins,
      FreshAtoms, Causal;
    PartsOf(op, n);
    SplitReady(h, pre, op, mode, s);
    var v := ViewOf(h, op.id);
    if op.body.Items? { ItemsSplit(s, op, v, mode.byPosition, mode.strict, n); } else { DeleteSplit(s, op, v, mode.byPosition, mode.strict, n); }
    var x := Second(op, n).id;
    assert InAtoms(x, op.id, op.len);
    OpView(h, op, x);
    var t := Apply(s, First(op, n), v, mode.byPosition, mode.strict);
    if t.Some? { ApplySame(t.value, Second(op, n), Later(v, n), ViewOf(h, x), mode.byPosition, mode.strict); }
  }

  lemma {:induction false} SplitReady(h: History, pre: seq<Op>, op: Op, mode: Mode, s: SeqVal)
    requires Complete(h) && HonestOps(h, pre + [op], mode) && InOrder(h, pre + [op]) && op.IsSeq()
    requires Replay(EventsOf(h, pre, op.cont), mode) == Some(s) && op.len >= 1
    ensures Distinct(s.nodes) && BetweenOrigins(s.nodes) && FreshAtoms(s.nodes, op.id, op.len) && WellFormed(op, ViewOf(h, op.id))
  {
    hide Replay, EventsOf, HonestOp, HonestTwo, NotBefore, ViewOf, Closed, CausalHistory.OwnSeen, Past, Distinct, BetweenOrigins, FreshAtoms, Causal,
      Honest, Causally, AllAccounted, WellFormed, TellsOp;
    var all := pre + [op];
    forall o | o in all ensures TellsOp(h, o) { HonestTells(h, o, mode); }
    EventsHonest(h, all, op.cont, mode);
    EventsCausal(h, all, op.cont);
    EventsStep(h, pre, op, op.cont);
    HonestPrefix(EventsOf(h, pre, op.cont), EventOf(h, op), mode);
    var key := ReplayHolds(EventsOf(h, pre, op.cont), mode);
    SeqInsert.OrderedParts(s.nodes, key);
    NextMergeable(s, EventsOf(h, pre, op.cont), EventOf(h, op), mode);
  }
}
