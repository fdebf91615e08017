/** The values a MovableList shows. */
module MovValues {
  import opened Common
  import opened SeqTypes
  import opened SeqInsert
  import opened SeqReference
  import opened SeqEdits
  import opened SeqLive
  import opened SeqApply
  import opened SeqSwap
  import opened Ops
  import opened MovStates

  /** The value of the element at each slot, in node order. */
  ghost function ListValues(nodes: seq<Node>, elems: Elems): seq<Value> {
    if nodes == [] then []
    else
      var n := nodes[|nodes| - 1];
      ListValues(nodes[..|nodes| - 1], elems) + if n.deleters == {} && IsHome(n, elems) then [elems[n.cell.elem].value] else []
  }

  /** Some element is at position x and has this value. */
  ghost predicate Holds(elems: Elems, x: Id, value: Value) {
    exists e :: e in elems && elems[e].pos == x && elems[e].value == value
  }

  lemma {:induction false} ValuesHeld(nodes: seq<Node>, elems: Elems)
    ensures |ListValues(nodes, elems)| == |BuiltSlots(nodes, elems)|
    ensures forall k :: 0 <= k < |BuiltSlots(nodes, elems)| ==> Holds(elems, BuiltSlots(nodes, elems)[k], ListValues(nodes, elems)[k])
  {
    if nodes != [] {
      var n := nodes[|nodes| - 1];
      ValuesHeld(nodes[..|nodes| - 1], elems);
      if n.deleters == {} && IsHome(n, elems) { assert Holds(elems, n.id, elems[n.cell.elem].value); }
    }
  }

  /** No two elements are at one position. */
  lemma {:induction false} OneHeld(nodes: seq<Node>, elems: Elems, x: Id, a: Value, b: Value)
    requires Distinct(nodes) && Housed(nodes, elems) && Holds(elems, x, a) && Holds(elems, x, b)
    ensures a == b
  {
    var e :| e in elems && elems[e].pos == x && elems[e].value == a;
    var f :| f in elems && elems[f].pos == x && elems[f].value == b;
    assert HasNode(nodes, elems[e].pos, Position(e)) && HasNode(nodes, elems[f].pos, Position(f));
    var i :| 0 <= i < |nodes| && nodes[i].id == x && nodes[i].cell == Position(e);
    var j :| 0 <= j < |nodes| && nodes[j].id == x && nodes[j].cell == Position(f);
    SameIndex(nodes, i, j);
  }

  /** Old positions hold what they held. */
  ghost predicate StillHolds(elems: Elems, now: Elems, slots: seq<Id>) {
    forall k, value :: 0 <= k < |slots| && Holds(elems, slots[k], value) ==> Holds(now, slots[k], value)
  }

  lemma {:induction false} ValuesSpliced(s: SeqVal, now: SeqVal, slots: seq<Id>, values: seq<Value>, i: nat, run: seq<Id>, more: seq<Value>)
    requires Distinct(now.nodes) && Housed(now.nodes, now.elems)
    requires |values| == |slots| && i <= |slots| && BuiltSlots(now.nodes, now.elems) == Splice(slots, i, run)
    requires forall k :: 0 <= k < |slots| ==> Holds(now.elems, slots[k], values[k])
    requires |more| == |run| && forall k :: 0 <= k < |run| ==> Holds(now.elems, run[k], more[k])
    ensures ListValues(now.nodes, now.elems) == Splice(values, i, more)
  {
    hide Distinct, Housed, Holds, BuiltSlots, ListValues;
    ValuesHeld(now.nodes, now.elems);
    var vs := ListValues(now.nodes, now.elems);
    forall k | 0 <= k < |vs| ensures vs[k] == Splice(values, i, more)[k] {
      var x := BuiltSlots(now.nodes, now.elems)[k];
      OneHeld(now.nodes, now.elems, x, vs[k], Splice(values, i, more)[k]) by {
        if k < i { assert x == slots[k]; } else if k < i + |run| { assert x == run[k - i]; } else { assert x == slots[k - |run|]; }
      }
    }
  }

  lemma {:induction false} ValuesLeft(s: SeqVal, slots: seq<Id>)
    requires slots == BuiltSlots(s.nodes, s.elems)
    ensures |ListValues(s.nodes, s.elems)| == |slots|
    ensures forall now: Elems, k :: StillHolds(s.elems, now, slots) && 0 <= k < |slots| ==> Holds(now, slots[k], ListValues(s.nodes, s.elems)[k])
  {
    hide Holds, BuiltSlots, ListValues;
    ValuesHeld(s.nodes, s.elems);
  }

  lemma {:induction false} NewElemIs(elems: Elems, op: Op, n: nat, k: nat)
    requires op.body.Items? && n <= |op.body.items| && k < n
    ensures var r, e := NewElems(elems, op, n), ElemKey(op.id.peer, op.lamport + k);
      e in r && r[e].value == op.body.items[k] && r[e].pos == Id(op.id.peer, op.id.counter + k)
  {
    if k < n - 1 { NewElemIs(elems, op, n - 1, k); }
  }

  /** After a local insert its items are held under the op's ids, and old positions hold what they held. */
  lemma {:induction false} InsertHolds(elems: Elems, op: Op, slots: seq<Id>)
    requires op.body.Items? && NewKeys(elems, op, |op.body.items|)
    ensures var now := NewElems(elems, op, |op.body.items|);
      && StillHolds(elems, now, slots)
      && forall k :: 0 <= k < |op.body.items| ==> Holds(now, RunIds(op.id, |op.body.items|)[k], op.body.items[k])
  {
    hide NewElems;
    var n := |op.body.items|;
    var now := NewElems(elems, op, n);
    forall k, value | 0 <= k < |slots| && Holds(elems, slots[k], value) ensures Holds(now, slots[k], value) {
      var e :| e in elems && elems[e].pos == slots[k] && elems[e].value == value;
      NewElemsAt(elems, op, n, e);
      assert e in now && now[e] == elems[e];
    }
    forall k | 0 <= k < n ensures Holds(now, RunIds(op.id, n)[k], op.body.items[k]) { NewElemIs(elems, op, n, k); }
  }

  lemma {:induction false} Elements(s: SeqVal, op: Op, v: View, now: SeqVal, byPosition: bool)
    requires op.cont.kind == MovableList && Apply(s, op, v, byPosition, true) == Some(now)
    ensures op.body.Items? ==> now.elems == NewElems(s.elems, op, |op.body.items|)
    ensures op.body.DeleteSeq? ==> now.elems == s.elems
  {
    hide Insert, Seen, NewElems, RemoveIds;
  }

  /** The values after a local insert whose slots went in at i. */
  lemma {:induction false} InsertValues(s: SeqVal, op: Op, v: View, now: SeqVal, byPosition: bool, i: nat)
    requires Local(s, op, v) && op.body.Items? && Apply(s, op, v, byPosition, true) == Some(now) && op.len == |op.body.items|
    requires Distinct(now.nodes) && Housed(now.nodes, now.elems) && i <= |BuiltSlots(s.nodes, s.elems)|
    requires BuiltSlots(now.nodes, now.elems) == Splice(BuiltSlots(s.nodes, s.elems), i, RunIds(op.id, op.len))
    ensures i <= |ListValues(s.nodes, s.elems)|
    ensures var values := ListValues(s.nodes, s.elems);
      ListValues(now.nodes, now.elems) == values[..i] + op.body.items + values[i..]
  {
    hide Holds, BuiltSlots, ListValues, NewElems, Apply, Mergeable, Whole, Housed, Distinct, NewKeys;
    var slots, values := BuiltSlots(s.nodes, s.elems), ListValues(s.nodes, s.elems);
    Elements(s, op, v, now, byPosition);
    InsertHolds(s.elems, op, slots);
    ValuesLeft(s, slots);
    ValuesSpliced(s, now, slots, values, i, RunIds(op.id, op.len), op.body.items);
  }

  /** The values when slot i has gone and the elements are what they were. */
  lemma {:induction false} ValuesCut(s: SeqVal, now: SeqVal, i: nat)
    requires Distinct(now.nodes) && Housed(now.nodes, now.elems) && i < |BuiltSlots(s.nodes, s.elems)| && now.elems == s.elems
    requires BuiltSlots(now.nodes, now.elems) == Without(BuiltSlots(s.nodes, s.elems), i, 1)
    ensures i < |ListValues(s.nodes, s.elems)|
    ensures var values := ListValues(s.nodes, s.elems);
      ListValues(now.nodes, now.elems) == values[..i] + values[i + 1..]
  {
    hide Holds, BuiltSlots, ListValues, Housed, Distinct;
    var slots, values := BuiltSlots(s.nodes, s.elems), ListValues(s.nodes, s.elems);
    ValuesHeld(s.nodes, s.elems);
    ValuesHeld(now.nodes, now.elems);
    var vs := ListValues(now.nodes, now.elems);
    forall k | 0 <= k < |vs| ensures vs[k] == (values[..i] + values[i + 1..])[k] {
      var j := if k < i then k else k + 1;
      assert BuiltSlots(now.nodes, now.elems)[k] == slots[j];
      OneHeld(now.nodes, now.elems, slots[j], vs[k], values[j]);
    }
  }

  /** The values when the slot at `from` has gone and one for the same element has come at `to` of the rest. */
  lemma {:induction false} ValuesMoved(s: SeqVal, now: SeqVal, elem: ElemKey, id: Id, w: Writer, from: nat, to: nat)
    requires Distinct(s.nodes) && Housed(s.nodes, s.elems) && Distinct(now.nodes) && Housed(now.nodes, now.elems)
    requires from < |BuiltSlots(s.nodes, s.elems)| && to < |BuiltSlots(s.nodes, s.elems)| && elem in s.elems
    requires s.elems[elem].pos == BuiltSlots(s.nodes, s.elems)[from] && SlotsApart(BuiltSlots(s.nodes, s.elems))
    requires now.elems == s.elems[elem := s.elems[elem].(pos := id, posWriter := w)]
    requires BuiltSlots(now.nodes, now.elems) == Splice(Without(BuiltSlots(s.nodes, s.elems), from, 1), to, [id])
    ensures |ListValues(s.nodes, s.elems)| == |BuiltSlots(s.nodes, s.elems)|
    ensures var values := ListValues(s.nodes, s.elems);
      var rest := values[..from] + values[from + 1..];
      ListValues(now.nodes, now.elems) == rest[..to] + [values[from]] + rest[to..]
  {
    hide BuiltSlots, ListValues, Housed, Distinct, Holds;
    var slots, values := BuiltSlots(s.nodes, s.elems), ListValues(s.nodes, s.elems);
    ValuesHeld(s.nodes, s.elems);
    var rest, left := values[..from] + values[from + 1..], Without(slots, from, 1);
    assert left == slots[..from] + slots[from + 1..];
    forall k | 0 <= k < |left| ensures Holds(now.elems, left[k], rest[k]) {
      var j := if k < from then k else k + 1;
      OtherStays(s.elems, now.elems, elem, slots[j], values[j]);
    }
    MovedHolds(s, now.elems, elem, id, values[from]);
    ValuesSpliced(s, now, left, rest, to, [id], [values[from]]);
  }

  ghost predicate SlotsApart(slots: seq<Id>) { forall i, j :: 0 <= i < j < |slots| ==> slots[i] != slots[j] }

  lemma {:induction false} OtherStays(elems: Elems, now: Elems, elem: ElemKey, x: Id, value: Value)
    requires elem in elems && elem in now && now == elems[elem := now[elem]] && x != elems[elem].pos && Holds(elems, x, value)
    ensures Holds(now, x, value)
  {
    var e :| e in elems && elems[e].pos == x && elems[e].value == value;
    assert now[e] == elems[e];
  }

  lemma {:induction false} MovedHolds(s: SeqVal, now: Elems, elem: ElemKey, id: Id, value: Value)
    requires Distinct(s.nodes) && Housed(s.nodes, s.elems) && elem in s.elems && Holds(s.elems, s.elems[elem].pos, value)
    requires elem in now && now[elem].pos == id && now[elem].value == s.elems[elem].value
    ensures Holds(now, id, value)
  {
    assert Holds(s.elems, s.elems[elem].pos, s.elems[elem].value);
    OneHeld(s.nodes, s.elems, s.elems[elem].pos, value, s.elems[elem].value);
  }

  /** The values when the element at slot i has a new one. */
  lemma {:induction false} ValuesSet(s: SeqVal, now: SeqVal, elem: ElemKey, value: Value, i: nat)
    requires Distinct(now.nodes) && Housed(now.nodes, now.elems) && elem in s.elems && elem in now.elems
    requires now.elems == s.elems[elem := now.elems[elem]] && now.elems[elem].pos == s.elems[elem].pos && now.elems[elem].value == value
    requires BuiltSlots(now.nodes, now.elems) == BuiltSlots(s.nodes, s.elems) && SlotsApart(BuiltSlots(s.nodes, s.elems))
    requires i < |BuiltSlots(s.nodes, s.elems)| && BuiltSlots(s.nodes, s.elems)[i] == s.elems[elem].pos
    ensures i < |ListValues(s.nodes, s.elems)| && ListValues(now.nodes, now.elems) == ListValues(s.nodes, s.elems)[i := value]
  {
    hide BuiltSlots, ListValues, Housed, Distinct, Holds;
    var slots, values := BuiltSlots(s.nodes, s.elems), ListValues(s.nodes, s.elems);
    ValuesHeld(s.nodes, s.elems);
    ValuesHeld(now.nodes, now.elems);
    var vs := ListValues(now.nodes, now.elems);
    forall k | 0 <= k < |vs| ensures vs[k] == values[i := value][k] {
      if k != i { OtherStays(s.elems, now.elems, elem, slots[k], values[k]); }
      SetHolds(now.elems, elem);
      OneHeld(now.nodes, now.elems, slots[k], vs[k], values[i := value][k]);
    }
  }

  lemma {:induction false} SetHolds(elems: Elems, elem: ElemKey)
    requires elem in elems
    ensures Holds(elems, elems[elem].pos, elems[elem].value)
  {
  }

  lemma {:induction false} SlotAt(nodes: seq<Node>, elems: Elems, k: nat) returns (i: nat)
    requires k < |BuiltSlots(nodes, elems)|
    ensures i < |nodes| && nodes[i].id == BuiltSlots(nodes, elems)[k]
  {
    hide IsHome;
    var m := |nodes| - 1;
    if k < |BuiltSlots(nodes[..m], elems)| { i := SlotAt(nodes[..m], elems, k); } else { i := m; }
  }

  lemma {:induction false} SlotsDistinct(nodes: seq<Node>, elems: Elems)
    requires Distinct(nodes)
    ensures SlotsApart(BuiltSlots(nodes, elems))
  {
    hide IsHome;
    if nodes != [] {
      var m := |nodes| - 1;
      SlotsDistinct(nodes[..m], elems);
      forall k | 0 <= k < |BuiltSlots(nodes[..m], elems)| ensures BuiltSlots(nodes[..m], elems)[k] != nodes[m].id {
        var i := SlotAt(nodes[..m], elems, k);
      }
    }
  }
}
