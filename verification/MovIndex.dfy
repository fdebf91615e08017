/** A MovableList's kept index: after every local op what building it anew would give. */
module MovIndices {
  import opened Common
  import opened SeqTypes
  import opened SeqInsert
  import opened SeqReference
  import opened SeqEdits
  import opened SeqEffect
  import opened SeqLive
  import opened SeqApply
  import opened SeqSwap
  import opened Ops
  import opened MovRanks
  import opened MovStates
  import opened MovValues

  /** The node is in the sequence, holds the element and is deleted. */
  predicate Left(nodes: seq<Node>, elem: ElemKey, x: Id) {
    exists i :: 0 <= i < |nodes| && nodes[i].id == x && nodes[i].cell == Position(elem) && nodes[i].deleters != {}
  }

  predicate Known(nodes: seq<Node>, x: Id) {
    exists i :: 0 <= i < |nodes| && nodes[i].id == x
  }

  class MovIndex {
    var slots: seq<Id>
    var lost: seq<int>

    /** The index is the one built from this state. */
    ghost predicate Mirrors(s: SeqVal)
      reads this
    {
      slots == BuiltSlots(s.nodes, s.elems) && lost == BuiltLost(s.nodes, s.elems)
    }

    /** The index is that of a list of positions, some of which hold their element. */
    ghost predicate Ranks(ids: seq<Id>, homes: set<Id>)
      reads this
    {
      slots == Slots(ids, homes) && lost == LostRanks(ids, homes)
    }

    constructor (nodes: seq<Node>, elems: Elems)
      ensures slots == BuiltSlots(nodes, elems) && lost == BuiltLost(nodes, elems)
    {
      slots, lost := [], [];
      new;
      for i := 0 to |nodes|
        invariant slots == BuiltSlots(nodes[..i], elems) && lost == BuiltLost(nodes[..i], elems)
      {
        assert nodes[..i + 1][..i] == nodes[..i];
        var n := nodes[i];
        if n.deleters == {} {
          if IsHome(n, elems) { slots := slots + [n.id]; } else { lost := lost + [|slots|]; }
        }
      }
      assert nodes[..|nodes|] == nodes;
    }

    /** The number of ids ahead of index o that are nobody's home. */
    method LostBefore(o: int, ghost ids: seq<Id>, ghost homes: set<Id>) returns (t: nat)
      requires Ranks(ids, homes)
      ensures t <= |lost|
      ensures 0 <= o <= |ids| ==> t == |LostRanks(ids[..o], homes)|
      ensures o > |ids| ==> t == |lost|
      ensures o < 0 ==> t == 0
    {
      hide Slots, LostRanks;
      RanksRise(ids, homes);
      t := 0;
      var j := |lost|;
      while t < j
        invariant 0 <= t <= j <= |lost|
        invariant forall u :: 0 <= u < t ==> lost[u] + u < o
        invariant forall u :: j <= u < |lost| ==> lost[u] + u >= o
      {
        var h := (t + j) / 2;
        if lost[h] + h >= o { j := h; } else { t := h + 1; }
      }
      LostIndex(ids, homes);
      if 0 <= o <= |ids| {
        LostBelow(ids, homes, o);
        OneBelow(lost, t, |LostRanks(ids[..o], homes)|, o);
      } else {
        OneBelow(lost, t, if o < 0 then 0 else |lost|, o);
      }
    }

    /** The index among all live positions of the i-th one that is a home; their number when there is none. */
    method OpIndex(i: nat, ghost ids: seq<Id>, ghost homes: set<Id>) returns (o: nat)
      requires Ranks(ids, homes)
      ensures o == OpAt(ids, homes, i)
    {
      hide Slots, LostRanks, OpAt;
      BothCount(ids, homes);
      AtEnd(ids, homes, i);
      if i >= |slots| { return |slots| + |lost|; }
      RanksRise(ids, homes);
      var t, j := 0, |lost|;
      while t < j
        invariant 0 <= t <= j <= |lost|
        invariant forall u :: 0 <= u < t ==> lost[u] <= i
        invariant forall u :: j <= u < |lost| ==> lost[u] > i
      {
        var h := (t + j) / 2;
        if lost[h] > i { j := h; } else { t := h + 1; }
      }
      ghost var at := OpAt(ids, homes, i);
      SlotHere(ids, homes, at);
      BothCount(ids[..at], homes);
      OneUpTo(lost, t, |LostRanks(ids[..at], homes)|, i);
      o := i + t;
    }

    /** Puts new slots in at op index o. */
    method InsertAt(o: nat, run: seq<Id>, ghost ids: seq<Id>, ghost homes: set<Id>)
      requires Ranks(ids, homes) && o <= |ids| && forall x :: x in run ==> x in homes
      modifies this
      ensures Ranks(Splice(ids, o, run), homes)
    {
      hide Slots, LostRanks, Splice;
      SlotsIn(ids, homes, o, run);
      var t := LostBefore(o, ids, homes);
      ghost var was, from := lost, t;
      slots := SpliceIn(slots, o - t, run);
      while t < |lost|
        invariant from <= t <= |lost| == |was| && slots == Slots(Splice(ids, o, run), homes)
        invariant forall u :: 0 <= u < |lost| ==> lost[u] == if from <= u < t then was[u] + |run| else was[u]
      {
        lost := lost[t := lost[t] + |run|];
        t := t + 1;
      }
      assert lost == LostRanks(Splice(ids, o, run), homes);
    }

    /** Turns the ranks of `ids` into those of `ids` without index o, when that is a home that fits; otherwise
        changes nothing. */
    method RemoveAt(o: int, fits: Id -> bool, ghost ids: seq<Id>, ghost homes: set<Id>) returns (done: bool)
      requires Ranks(ids, homes)
      modifies this
      ensures done <==> 0 <= o < |ids| && ids[o] in homes && fits(ids[o])
      ensures done ==> Ranks(Without(ids, o, 1), homes)
      ensures !done ==> Ranks(ids, homes)
    {
      hide Slots, LostRanks, Without;
      var t := LostBefore(o, ids, homes);
      var j := o - t;
      BothCount(ids, homes);
      if 0 <= o < |ids| { HereIs(ids, homes, o); }
      if (t < |lost| && lost[t] + t == o) || j < 0 || j >= |slots| || !fits(slots[j]) { return false; }
      SlotOut(ids, homes, o);
      ghost var was, from := lost, t;
      slots := CutOut(slots, j);
      while t < |lost|
        invariant from <= t <= |lost| == |was| && slots == Slots(Without(ids, o, 1), homes)
        invariant forall u :: 0 <= u < |lost| ==> lost[u] == if from <= u < t then was[u] - 1 else was[u]
      {
        lost := lost[t := lost[t] - 1];
        t := t + 1;
      }
      assert lost == LostRanks(Without(ids, o, 1), homes);
      done := true;
    }

    /** Follows a local op just applied; false is a change the index does not follow, and then it is
        dropped. Ops made by index are all followed. */
    method NoteLocal(op: Op, now: SeqVal, ghost s: SeqVal, ghost v: View, ghost byPosition: bool) returns (ok: bool)
      requires Local(s, op, v) && op.pos >= 0 && Mirrors(s) && Apply(s, op, v, byPosition, true) == Some(now)
      modifies this
      ensures ok ==> Mirrors(now)
      ensures Made(s, op, v) ==> ok
    {
      hide Local, Apply, Whole, Seen, Splice, Without, Homes, BuiltSlots, BuiltLost, Slots, LostRanks, FreshAtoms;
      LocalParts(s, op, v);
      WholeIndex(s, v);
      match op.body {
        case Items(items) => ok := NoteInsert(op, |items|, now, s, v, byPosition);
        case DeleteSeq(span) => ok := NoteDelete(op, span, now, s, v, byPosition);
        case ListMove(elem, from) => ok := NoteMove(op, elem, from, now, s, v, byPosition);
        case _ =>
          NoChange(s, op, v, now, byPosition);
          ok := true;
      }
    }

    /** Follows an insert. */
    method NoteInsert(op: Op, n: nat, now: SeqVal, ghost s: SeqVal, ghost v: View, ghost byPosition: bool) returns (ok: bool)
      requires Local(s, op, v) && op.pos >= 0 && Apply(s, op, v, byPosition, true) == Some(now) && op.body.Items? && n == |op.body.items| == op.len
      requires Ranks(Seen(s.nodes, v), Homes(s.elems)) && op.id == Id(v.peer, v.own) && FreshAtoms(s.nodes, op.id, op.len)
      modifies this
      ensures ok && Mirrors(now)
    {
      hide Local, Apply, Whole, Seen, Splice, Homes, BuiltSlots, BuiltLost, Slots, LostRanks, FreshAtoms, Known;
      ghost var ids := Seen(s.nodes, v);
      InsertLocal(s, op, v, now, byPosition);
      WholeIndex(now, Later(v, n));
      NotNew(s.nodes, v, op.id, n);
      SameHomes(ids, Homes(s.elems), Homes(now.elems));
      var run := seq(n, k => Id(op.id.peer, op.id.counter + k));
      assert run == RunIds(op.id, n);
      NewKnown(now, Later(v, n), run);
      if exists k :: 0 <= k < n && !Known(now.nodes, run[k]) { return false; }
      InsertAt(op.pos, run, ids, Homes(now.elems));
      ok := true;
    }

    /** Follows a delete of one item. */
    method NoteDelete(op: Op, span: DeleteSpan, now: SeqVal, ghost s: SeqVal, ghost v: View, ghost byPosition: bool) returns (ok: bool)
      requires Local(s, op, v) && Apply(s, op, v, byPosition, true) == Some(now) && op.body == DeleteSeq(span)
      requires Ranks(Seen(s.nodes, v), Homes(s.elems))
      modifies this
      ensures ok ==> Mirrors(now)
      ensures MadeDelete(s, op, v) ==> ok
    {
      hide Local, Apply, Whole, Seen, Without, Homes, BuiltSlots, BuiltLost, Slots, LostRanks;
      if span.len != 1 { return false; }
      ghost var ids := Seen(s.nodes, v);
      var want := Id(span.peer, span.counter);
      ok := RemoveAt(op.pos, x => x == want, ids, Homes(s.elems));
      if ok {
        DeleteLocal(s, op, v, now, byPosition, op.pos);
        WholeIndex(now, Later(v, 1));
      }
    }

    /** Follows a move: the element's old slot goes, its new position comes. */
    method NoteMove(op: Op, elem: ElemKey, from: int, now: SeqVal, ghost s: SeqVal, ghost v: View, ghost byPosition: bool) returns (ok: bool)
      requires Local(s, op, v) && op.pos >= 0 && Apply(s, op, v, byPosition, true) == Some(now) && op.body == ListMove(elem, from)
      requires Ranks(Seen(s.nodes, v), Homes(s.elems)) && op.id == Id(v.peer, v.own) && FreshAtoms(s.nodes, op.id, 1)
      modifies this
      ensures ok ==> Mirrors(now)
      ensures MadeMove(s, op, v) ==> ok
    {
      hide Local, Apply, Whole, Seen, Splice, Without, Homes, BuiltSlots, BuiltLost, Slots, LostRanks, FreshAtoms, Left;
      Unmoved(s, op, v, now, byPosition);
      if elem !in now.elems { return false; }
      ghost var ids := Seen(s.nodes, v);
      LocalParts(s, op, v);
      MoveRange(s, op, v, now, byPosition);
      LeftWas(s, op, v, now, byPosition);
      ok := RemoveAt(from, x => Left(now.nodes, elem, x), ids, Homes(s.elems));
      if ok {
        MoveLocal(s, op, v, now, byPosition);
        WholeIndex(now, Later(v, 1));
        RestSame(s, op, v, now);
        SameHomes(Without(ids, from, 1), Homes(s.elems), Homes(now.elems));
        InsertAt(op.pos, [now.elems[elem].pos], Without(ids, from, 1), Homes(now.elems));
      }
    }
  }

  function SpliceIn(s: seq<Id>, at: nat, run: seq<Id>): seq<Id>
    requires at <= |s|
  {
    Splice(s, at, run)
  }

  function CutOut(s: seq<Id>, j: nat): (r: seq<Id>)
    requires j < |s|
    ensures r == Without(s, j, 1)
  {
    s[..j] + s[j + 1..]
  }

  ghost function AnyAt(lost: seq<int>, u: nat): int { if u < |lost| then lost[u] else 0 }

  /** A search has one answer. */
  lemma {:induction false} OneBelow(lost: seq<int>, t: nat, r: nat, o: int)
    requires t <= |lost| && r <= |lost|
    requires (forall u :: 0 <= u < t ==> lost[u] + u < o) && forall u :: t <= u < |lost| ==> lost[u] + u >= o
    requires (forall u :: 0 <= u < r ==> lost[u] + u < o) && forall u :: r <= u < |lost| ==> lost[u] + u >= o
    ensures t == r
  {
    assert r <= t || AnyAt(lost, t) + t < o;
    assert t <= r || AnyAt(lost, r) + r < o;
  }

  lemma {:induction false} OneUpTo(lost: seq<int>, t: nat, r: nat, i: int)
    requires t <= |lost| && r <= |lost|
    requires (forall u :: 0 <= u < t ==> lost[u] <= i) && forall u :: t <= u < |lost| ==> lost[u] > i
    requires (forall u :: 0 <= u < r ==> lost[u] <= i) && forall u :: r <= u < |lost| ==> lost[u] > i
    ensures t == r
  {
    assert r <= t || AnyAt(lost, t) <= i;
    assert t <= r || AnyAt(lost, r) <= i;
  }

  // ----- ops made by index -----

  /** The delete names the item at its position; the move names the element shown where it starts. */
  ghost predicate Made(s: SeqVal, op: Op, v: View) {
    && (op.body.DeleteSeq? ==> MadeDelete(s, op, v))
    && (op.body.ListMove? ==> MadeMove(s, op, v))
  }

  ghost predicate MadeDelete(s: SeqVal, op: Op, v: View)
    requires op.body.DeleteSeq?
  {
    var span, ids := op.body.span, Seen(s.nodes, v);
    span.len == 1 && 0 <= op.pos < |ids| && ids[op.pos] == Id(span.peer, span.counter) && ids[op.pos] in Homes(s.elems)
  }

  ghost predicate MadeMove(s: SeqVal, op: Op, v: View)
    requires op.body.ListMove?
  {
    var ids := Seen(s.nodes, v);
    0 <= op.body.from < |ids| && op.body.elem in s.elems && ids[op.body.from] == s.elems[op.body.elem].pos
  }

  lemma {:induction false} AtEnd(ids: seq<Id>, homes: set<Id>, i: nat)
    ensures i >= |Slots(ids, homes)| ==> OpAt(ids, homes, i) == |ids|
    ensures i < |Slots(ids, homes)| ==> OpAt(ids, homes, i) < |ids| && ids[OpAt(ids, homes, i)] in homes
    ensures i < |Slots(ids, homes)| ==> |Slots(ids[..OpAt(ids, homes, i)], homes)| == i
  {
  }

  /** What the index shows at op index o. */
  lemma {:induction false} HereIs(ids: seq<Id>, homes: set<Id>, o: nat)
    requires o < |ids|
    ensures var t, lost := |LostRanks(ids[..o], homes)|, LostRanks(ids, homes);
      if ids[o] in homes then (t < |lost| ==> lost[t] + t != o) && t <= o && o - t < |Slots(ids, homes)| && Slots(ids, homes)[o - t] == ids[o]
      else t < |lost| && lost[t] + t == o
  {
    hide Slots, LostRanks;
    if ids[o] in homes { SlotHere(ids, homes, o); } else { LostHere(ids, homes, o); }
  }

  lemma {:induction false} NoChange(s: SeqVal, op: Op, v: View, now: SeqVal, byPosition: bool)
    requires Local(s, op, v) && Apply(s, op, v, byPosition, true) == Some(now)
    requires !op.body.Items? && !op.body.DeleteSeq? && !op.body.ListMove? && !op.body.MarkStart? && !op.body.MarkEnd?
    ensures BuiltSlots(now.nodes, now.elems) == BuiltSlots(s.nodes, s.elems) && BuiltLost(now.nodes, now.elems) == BuiltLost(s.nodes, s.elems)
  {
    hide Local, Whole, Seen, Homes, BuiltSlots, BuiltLost, Slots, LostRanks;
    if op.body.ListSet? {
      LocalParts(s, op, v);
      WholeIndex(s, v);
      SetLocal(s, op, v, now, byPosition);
      WholeIndex(now, Later(v, 1));
    }
  }

  lemma {:induction false} NotNew(nodes: seq<Node>, v: View, id: Id, n: nat)
    requires FreshAtoms(nodes, id, n)
    ensures forall x :: x in Seen(nodes, v) ==> !InAtoms(x, id, n)
  {
    if nodes != [] { NotNew(nodes[..|nodes| - 1], v, id, n); }
  }

  lemma {:induction false} NewKnown(now: SeqVal, w: View, run: seq<Id>)
    requires Whole(now, w) && forall x :: x in run ==> x in Homes(now.elems)
    ensures forall k :: 0 <= k < |run| ==> Known(now.nodes, run[k])
  {
    hide AllInView, Distinct;
    forall k | 0 <= k < |run| ensures Known(now.nodes, run[k]) {
      assert run[k] in run;
      var e :| e in now.elems && now.elems[e].pos == run[k];
      assert HasNode(now.nodes, now.elems[e].pos, Position(e));
    }
  }

  /** A move of an element there is not changes nothing. */
  lemma {:induction false} Unmoved(s: SeqVal, op: Op, v: View, now: SeqVal, byPosition: bool)
    requires op.body.ListMove? && Apply(s, op, v, byPosition, true) == Some(now)
    ensures op.body.elem in now.elems <==> op.body.elem in s.elems
  {
    hide Insert, Seen, Nth;
  }

  lemma {:induction false} MoveRange(s: SeqVal, op: Op, v: View, now: SeqVal, byPosition: bool)
    requires op.body.ListMove? && op.body.elem in s.elems && Apply(s, op, v, byPosition, true) == Some(now)
    ensures 0 <= op.body.from < |Seen(s.nodes, v)|
  {
    hide Insert, Seen, Nth;
  }

  /** After the move, the position its author moved from is the one where a node that holds the element is
      deleted. */
  lemma {:induction false} LeftWas(s: SeqVal, op: Op, v: View, now: SeqVal, byPosition: bool)
    requires Local(s, op, v) && op.body.ListMove? && op.body.elem in s.elems && Apply(s, op, v, byPosition, true) == Some(now)
    requires 0 <= op.body.from < |Seen(s.nodes, v)|
    ensures var x := Seen(s.nodes, v)[op.body.from];
      x in Homes(s.elems) ==> (Left(now.nodes, op.body.elem, x) <==> s.elems[op.body.elem].pos == x)
    ensures MadeMove(s, op, v) ==> Seen(s.nodes, v)[op.body.from] in Homes(s.elems)
  {
    hide Local, Whole, Seen, Nth, Homes, Insert, Left, FreshAtoms;
    LocalParts(s, op, v);
    var src := SeenNode(s.nodes, v, op.body.from);
    var gone := s.nodes[src := AddDeleter(s.nodes[src], op.id)];
    var at, run := InsertIsSplice(gone, Later(v, 1), op.id, op.pos, [Position(op.body.elem)], true);
    WholeAt(s, v, src);
    LeftThere(s.nodes, gone, src, op.id, at, run, op.body.elem);
  }

  lemma {:induction false} WholeAt(s: SeqVal, v: View, src: nat)
    requires Whole(s, v) && src < |s.nodes|
    ensures IsHome(s.nodes[src], s.elems) <==> s.nodes[src].id in Homes(s.elems)
    ensures Distinct(s.nodes)
    ensures forall e :: e in s.elems && s.elems[e].pos == s.nodes[src].id ==> s.nodes[src].cell == Position(e) && s.nodes[src].id in Homes(s.elems)
  {
    hide AllInView;
    HousedHomed(s.nodes, s.elems);
    forall e | e in s.elems && s.elems[e].pos == s.nodes[src].id ensures s.nodes[src].cell == Position(e) {
      assert HasNode(s.nodes, s.elems[e].pos, Position(e));
      var i :| 0 <= i < |s.nodes| && s.nodes[i].id == s.elems[e].pos && s.nodes[i].cell == Position(e);
      SameIndex(s.nodes, i, src);
    }
  }

  lemma {:induction false} LeftThere(nodes: seq<Node>, gone: seq<Node>, src: nat, d: Id, at: nat, run: seq<Node>, elem: ElemKey)
    requires src < |nodes| && gone == nodes[src := AddDeleter(nodes[src], d)] && at <= |gone| && |run| == 1 && run[0].deleters == {}
    requires Distinct(nodes)
    ensures Left(Splice(gone, at, run), elem, nodes[src].id) <==> nodes[src].cell == Position(elem)
  {
    hide Splice;
    var now := Splice(gone, at, run);
    var x := nodes[src].id;
    var j := if src < at then src else src + 1;
    AfterSplice(gone, at, run, j);
    if i :| 0 <= i < |now| && now[i].id == x && now[i].cell == Position(elem) && now[i].deleters != {} {
      AfterSplice(gone, at, run, i);
      SameIndex(nodes, if i < at then i else i - 1, src);
    }
  }

  /** The positions that stay were no home of the moved element, before or after. */
  lemma {:induction false} RestSame(s: SeqVal, op: Op, v: View, now: SeqVal)
    requires op.body.ListMove? && 0 <= op.body.from < |Seen(s.nodes, v)| && FreshAtoms(s.nodes, op.id, 1) && Whole(s, v)
    requires op.body.elem in s.elems && Seen(s.nodes, v)[op.body.from] == s.elems[op.body.elem].pos
    requires forall x :: x != op.id && x != s.elems[op.body.elem].pos ==> (x in Homes(s.elems) <==> x in Homes(now.elems))
    ensures forall x :: x in Without(Seen(s.nodes, v), op.body.from, 1) ==> (x in Homes(s.elems) <==> x in Homes(now.elems))
  {
    hide Seen, Homes, FreshAtoms, AllInView, Housed, Distinct, Without;
    var ids := Seen(s.nodes, v);
    NotNew(s.nodes, v, op.id, 1);
    SeenDistinct(s.nodes, v);
    forall x | x in Without(ids, op.body.from, 1) ensures x in Homes(s.elems) <==> x in Homes(now.elems) {
      RestOf(ids, op.body.from, x);
      assert !InAtoms(x, op.id, 1);
    }
  }

  lemma {:induction false} RestOf(ids: seq<Id>, f: nat, x: Id)
    requires f < |ids| && (forall i, j :: 0 <= i < j < |ids| ==> ids[i] != ids[j]) && x in Without(ids, f, 1)
    ensures x in ids && x != ids[f]
  {
    hide Without;
    WithoutOne(ids, f);
    var rest := Without(ids, f, 1);
    var k :| 0 <= k < |rest| && rest[k] == x;
    var i := RestAt(ids, f, k);
    assert if i < f then ids[i] != ids[f] else ids[f] != ids[i];
  }

  lemma {:induction false} RestAt(ids: seq<Id>, f: nat, k: nat) returns (i: nat)
    requires f < |ids| && k < |ids| - 1
    ensures i < |ids| && i != f && (ids[..f] + ids[f + 1..])[k] == ids[i]
  {
    i := if k < f then k else k + 1;
  }

  // ----- what users see -----

  /** Inserting at user index i puts the new items there, each under its own id and showing its value. */
  lemma {:induction false} InsertShows(s: SeqVal, op: Op, v: View, now: SeqVal, byPosition: bool, i: nat)
    requires Local(s, op, v) && op.body.Items? && Apply(s, op, v, byPosition, true) == Some(now)
    requires i <= |BuiltSlots(s.nodes, s.elems)| && op.pos == OpAt(Seen(s.nodes, v), Homes(s.elems), i)
    ensures BuiltSlots(now.nodes, now.elems) == Splice(BuiltSlots(s.nodes, s.elems), i, RunIds(op.id, op.len))
    ensures i <= |ListValues(s.nodes, s.elems)|
    ensures var values := ListValues(s.nodes, s.elems); ListValues(now.nodes, now.elems) == values[..i] + op.body.items + values[i..]
  {
    hide Local, Apply, Whole, Seen, Splice, Homes, BuiltSlots, BuiltLost, Slots, LostRanks, FreshAtoms, OpAt, ListValues;
    var ids := Seen(s.nodes, v);
    LocalParts(s, op, v);
    WholeIndex(s, v);
    InsertLocal(s, op, v, now, byPosition);
    WholeIndex(now, Later(v, op.len));
    NotNew(s.nodes, v, op.id, op.len);
    SameHomes(ids, Homes(s.elems), Homes(now.elems));
    AtEnd(ids, Homes(s.elems), i);
    SlotsIn(ids, Homes(now.elems), op.pos, RunIds(op.id, op.len));
    RankAt(ids, Homes(s.elems), Homes(now.elems), i);
    WholeParts(now, Later(v, op.len));
    InsertValues(s, op, v, now, byPosition, i);
  }

  lemma {:induction false} WholeParts(s: SeqVal, v: View)
    requires Whole(s, v)
    ensures Distinct(s.nodes) && Housed(s.nodes, s.elems) && SlotsApart(BuiltSlots(s.nodes, s.elems))
  {
    SlotsDistinct(s.nodes, s.elems);
  }

  lemma {:induction false} RankAt(ids: seq<Id>, homes: set<Id>, now: set<Id>, i: nat)
    requires i <= |Slots(ids, homes)| && forall x :: x in ids ==> (x in homes <==> x in now)
    ensures var o := OpAt(ids, homes, i); o <= |ids| && o - |LostRanks(ids[..o], now)| == i
  {
    hide Slots, LostRanks, OpAt;
    AtEnd(ids, homes, i);
    var o := OpAt(ids, homes, i);
    BothCount(ids[..o], homes);
    SameHomes(ids[..o], homes, now);
    if o == |ids| { assert ids[..o] == ids; }
  }

  /** Deleting the item at user index i takes it out. */
  lemma {:induction false} DeleteShows(s: SeqVal, op: Op, v: View, now: SeqVal, byPosition: bool, i: nat)
    requires Local(s, op, v) && op.body.DeleteSeq? && op.body.span.len == 1 && Apply(s, op, v, byPosition, true) == Some(now)
    requires i < |BuiltSlots(s.nodes, s.elems)| && op.pos == OpAt(Seen(s.nodes, v), Homes(s.elems), i)
    requires BuiltSlots(s.nodes, s.elems)[i] == Id(op.body.span.peer, op.body.span.counter)
    ensures MadeDelete(s, op, v) && BuiltSlots(now.nodes, now.elems) == Without(BuiltSlots(s.nodes, s.elems), i, 1)
    ensures i < |ListValues(s.nodes, s.elems)|
    ensures var values := ListValues(s.nodes, s.elems); ListValues(now.nodes, now.elems) == values[..i] + values[i + 1..]
  {
    hide Local, Apply, Whole, Seen, Without, Homes, BuiltSlots, BuiltLost, Slots, LostRanks, OpAt, ListValues;
    var ids := Seen(s.nodes, v);
    LocalParts(s, op, v);
    WholeIndex(s, v);
    AtEnd(ids, Homes(s.elems), i);
    RankAt(ids, Homes(s.elems), Homes(s.elems), i);
    SlotOut(ids, Homes(s.elems), op.pos);
    SlotHere(ids, Homes(s.elems), op.pos);
    DeleteLocal(s, op, v, now, byPosition, op.pos);
    WholeIndex(now, Later(v, 1));
    WholeParts(now, Later(v, 1));
    ValuesCut(s, now, i);
  }

  /** Moving the item at user index `from` to user index `to` leaves it there, and the others in order. */
  lemma {:induction false} MoveShows(s: SeqVal, op: Op, v: View, now: SeqVal, byPosition: bool, from: nat, to: nat)
    requires Local(s, op, v) && op.body.ListMove? && op.body.elem in s.elems && Apply(s, op, v, byPosition, true) == Some(now)
    requires from < |BuiltSlots(s.nodes, s.elems)| && to < |BuiltSlots(s.nodes, s.elems)| && from != to
    requires op.body.from == OpAt(Seen(s.nodes, v), Homes(s.elems), from) && op.pos == OpAt(Seen(s.nodes, v), Homes(s.elems), to)
    requires s.elems[op.body.elem].pos == BuiltSlots(s.nodes, s.elems)[from]
    ensures MadeMove(s, op, v)
    ensures BuiltSlots(now.nodes, now.elems) == Splice(Without(BuiltSlots(s.nodes, s.elems), from, 1), to, [op.id])
    ensures |ListValues(s.nodes, s.elems)| == |BuiltSlots(s.nodes, s.elems)|
    ensures var values := ListValues(s.nodes, s.elems);
      var rest := values[..from] + values[from + 1..];
      ListValues(now.nodes, now.elems) == rest[..to] + [values[from]] + rest[to..]
  {
    hide Local, Apply, Whole, Seen, Splice, Without, Homes, BuiltSlots, BuiltLost, Slots, LostRanks, OpAt, FreshAtoms, ListValues;
    var ids, homes, after := Seen(s.nodes, v), Homes(s.elems), Homes(now.elems);
    LocalParts(s, op, v);
    WholeIndex(s, v);
    AtEnd(ids, homes, from);
    AtEnd(ids, homes, to);
    SlotHere(ids, homes, op.body.from);
    RankAt(ids, homes, homes, from);
    MoveLocal(s, op, v, now, byPosition);
    WholeIndex(now, Later(v, 1));
    RestSame(s, op, v, now);
    var rest := Without(ids, op.body.from, 1);
    SlotOut(ids, homes, op.body.from);
    SameHomes(rest, homes, after);
    RestRank(ids, homes, from, to);
    SlotsIn(rest, after, op.pos, [op.id]);
    SameHomes(rest[..op.pos], homes, after);
    WholeParts(s, v);
    WholeParts(now, Later(v, 1));
    ValuesMoved(s, now, op.body.elem, op.id, Writer(op.lamport, op.id.peer), from, to);
  }

  /** Setting the item at user index i shows its new value there, and every other as it was. */
  lemma {:induction false} SetShows(s: SeqVal, op: Op, v: View, now: SeqVal, byPosition: bool, i: nat)
    requires Local(s, op, v) && op.body.ListSet? && op.body.elem in s.elems && Apply(s, op, v, byPosition, true) == Some(now)
    requires i < |BuiltSlots(s.nodes, s.elems)| && s.elems[op.body.elem].pos == BuiltSlots(s.nodes, s.elems)[i]
    ensures BuiltSlots(now.nodes, now.elems) == BuiltSlots(s.nodes, s.elems)
    ensures i < |ListValues(s.nodes, s.elems)| && ListValues(now.nodes, now.elems) == ListValues(s.nodes, s.elems)[i := op.body.value]
  {
    hide Local, Whole, Apply, Seen, Homes, BuiltSlots, BuiltLost, Slots, LostRanks, ListValues;
    LocalParts(s, op, v);
    NoChange(s, op, v, now, byPosition);
    SetLocal(s, op, v, now, byPosition);
    SetElem(s, op, v, now, byPosition);
    WholeParts(s, v);
    WholeParts(now, Later(v, 1));
    ValuesSet(s, now, op.body.elem, op.body.value, i);
  }

  lemma {:induction false} SetElem(s: SeqVal, op: Op, v: View, now: SeqVal, byPosition: bool)
    requires Local(s, op, v) && op.body.ListSet? && op.body.elem in s.elems && Apply(s, op, v, byPosition, true) == Some(now)
    ensures op.body.elem in now.elems && now.elems == s.elems[op.body.elem := now.elems[op.body.elem]]
    ensures now.elems[op.body.elem].pos == s.elems[op.body.elem].pos
  {
    hide Whole, Mergeable, Housed;
  }

  /** Among the rest, the op index of user index `to` is that of slot `to` all the same. */
  lemma {:induction false} RestRank(ids: seq<Id>, homes: set<Id>, from: nat, to: nat)
    requires from < |Slots(ids, homes)| && to < |Slots(ids, homes)| && from != to
    ensures var f, o := OpAt(ids, homes, from), OpAt(ids, homes, to);
      var rest := Without(ids, f, 1);
      o <= |rest| && o - |LostRanks(rest[..o], homes)| == to
  {
    hide Slots, LostRanks, OpAt;
    AtEnd(ids, homes, from);
    AtEnd(ids, homes, to);
    var f, o := OpAt(ids, homes, from), OpAt(ids, homes, to);
    var rest := Without(ids, f, 1);
    WithoutOne(ids, f);
    BothCount(rest[..o], homes);
    SlotsBefore(ids, homes, f, o);
    if o < f {
      assert rest[..o] == ids[..o];
    } else {
      var a, b := ids[..f], ids[f + 1..o + 1];
      assert rest[..o] == a + b;
      assert ids[..o + 1] == a + ([ids[f]] + b);
      assert ids[..o + 1] == ids[..o] + [ids[o]];
      SlotsConcat(a, b, homes);
      SlotsConcat(a, [ids[f]] + b, homes);
      SlotsConcat([ids[f]], b, homes);
      SlotsConcat(ids[..o], [ids[o]], homes);
      AllSlots([ids[f]], homes);
      AllSlots([ids[o]], homes);
    }
  }

  /** Different slots are at different indexes. */
  lemma {:induction false} SlotsBefore(ids: seq<Id>, homes: set<Id>, f: nat, o: nat)
    requires f < |ids| && o < |ids| && |Slots(ids[..f], homes)| != |Slots(ids[..o], homes)|
    ensures f != o
  {
  }

  /** A deletion of several items records each op index with the items before it gone: with item i out, item
      j + 1 is item j, one op index lower. */
  lemma {:induction false} NextDelete(ids: seq<Id>, homes: set<Id>, i: nat, j: nat)
    requires i <= j && j + 1 < |Slots(ids, homes)|
    ensures var rest := Without(ids, OpAt(ids, homes, i), 1);
      j < |Slots(rest, homes)| && OpAt(rest, homes, j) == OpAt(ids, homes, j + 1) - 1
  {
    hide Slots, LostRanks, OpAt, Without;
    AtEnd(ids, homes, i);
    AtEnd(ids, homes, j + 1);
    var f, o := OpAt(ids, homes, i), OpAt(ids, homes, j + 1);
    var rest := Without(ids, f, 1);
    WithoutOne(ids, f);
    SlotsRise(ids, homes, o, f);
    var a, b, c := ids[..f], ids[f + 1..o], ids[o + 1..];
    assert ids[..o] == a + ([ids[f]] + b);
    assert ids == a + ([ids[f]] + (b + ([ids[o]] + c)));
    assert rest == a + (b + ([ids[o]] + c)) && rest[..o - 1] == a + b && rest[o - 1] == ids[o];
    AllSlots([ids[f]], homes);
    SlotsConcat(a, [ids[f]] + b, homes);
    SlotsConcat([ids[f]], b, homes);
    SlotsConcat(a, b, homes);
    OneOp(rest, homes, o - 1, j);
  }

  lemma {:induction false} SlotsRise(ids: seq<Id>, homes: set<Id>, o: nat, f: nat)
    requires f < |ids| && o < |ids| && |Slots(ids[..f], homes)| < |Slots(ids[..o], homes)|
    ensures f < o
  {
    hide Slots;
    if o <= f {
      assert ids[..f] == ids[..o] + ids[o..f];
      SlotsConcat(ids[..o], ids[o..f], homes);
    }
  }

  lemma {:induction false} OneOp(ids: seq<Id>, homes: set<Id>, o: nat, i: nat)
    requires o < |ids| && ids[o] in homes && |Slots(ids[..o], homes)| == i
    ensures i < |Slots(ids, homes)| && OpAt(ids, homes, i) == o
  {
    hide Slots, LostRanks, OpAt;
    SlotHere(ids, homes, o);
    BothCount(ids[..o], homes);
    AtEnd(ids, homes, i);
    var p := OpAt(ids, homes, i);
    if p < o { StrictRise(ids, homes, p, o); }
    if o < p { StrictRise(ids, homes, o, p); }
  }

  lemma {:induction false} StrictRise(ids: seq<Id>, homes: set<Id>, p: nat, o: nat)
    requires p < o <= |ids| && ids[p] in homes
    ensures |Slots(ids[..p], homes)| < |Slots(ids[..o], homes)|
  {
    hide Slots;
    var b := ids[p + 1..o];
    assert ids[..o] == ids[..p] + ([ids[p]] + b);
    AllSlots([ids[p]], homes);
    SlotsConcat(ids[..p], [ids[p]] + b, homes);
    SlotsConcat([ids[p]], b, homes);
  }
}
