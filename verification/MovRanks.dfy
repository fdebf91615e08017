/** Items shown and positions lost to moves elsewhere: how the two ranks of a list translate. */
module MovRanks {
  import opened Common
  import opened SeqInsert
  import opened SeqEdits

  /** The positions that hold their element. */
  ghost function Slots(ids: seq<Id>, homes: set<Id>): seq<Id> {
    if ids == [] then []
    else
      var n := |ids| - 1;
      Slots(ids[..n], homes) + if ids[n] in homes then [ids[n]] else []
  }

  /** For each of the others, how many slots come before it. */
  ghost function LostRanks(ids: seq<Id>, homes: set<Id>): seq<nat> {
    if ids == [] then []
    else
      var n := |ids| - 1;
      LostRanks(ids[..n], homes) + if ids[n] in homes then [] else [|Slots(ids[..n], homes)|]
  }

  lemma {:induction false} BothCount(ids: seq<Id>, homes: set<Id>)
    ensures |Slots(ids, homes)| + |LostRanks(ids, homes)| == |ids|
  {
    if ids != [] { BothCount(ids[..|ids| - 1], homes); }
  }

  ghost function Raised(s: seq<nat>, k: nat): (r: seq<nat>)
    ensures |r| == |s| && forall i :: 0 <= i < |s| ==> r[i] == s[i] + k
  {
    seq(|s|, i requires 0 <= i < |s| => s[i] + k)
  }

  lemma {:induction false} SlotsConcat(a: seq<Id>, b: seq<Id>, homes: set<Id>)
    ensures Slots(a + b, homes) == Slots(a, homes) + Slots(b, homes)
  {
    if b == [] {
      assert a + b == a;
    } else {
      var n := |b| - 1;
      assert (a + b)[..|a| + n] == a + b[..n];
      SlotsConcat(a, b[..n], homes);
    }
  }

  lemma {:induction false} LostConcat(a: seq<Id>, b: seq<Id>, homes: set<Id>)
    ensures LostRanks(a + b, homes) == LostRanks(a, homes) + Raised(LostRanks(b, homes), |Slots(a, homes)|)
  {
    if b == [] {
      assert a + b == a;
    } else {
      var n := |b| - 1;
      assert (a + b)[..|a| + n] == a + b[..n];
      LostConcat(a, b[..n], homes);
      SlotsConcat(a, b[..n], homes);
      RaisedMore(LostRanks(b[..n], homes), |Slots(b[..n], homes)|, |Slots(a, homes)|);
      assert (a + b)[|a| + n] == b[n];
    }
  }

  lemma {:induction false} RaisedMore(s: seq<nat>, x: nat, k: nat)
    ensures Raised(s + [x], k) == Raised(s, k) + [x + k]
  {
  }

  lemma {:induction false} AllSlots(ids: seq<Id>, homes: set<Id>)
    requires forall x :: x in ids ==> x in homes
    ensures Slots(ids, homes) == ids && LostRanks(ids, homes) == []
  {
    if ids != [] { AllSlots(ids[..|ids| - 1], homes); }
  }

  /** Only where the listed positions' elements are matters. */
  lemma {:induction false} SameHomes(ids: seq<Id>, homes: set<Id>, now: set<Id>)
    requires forall x :: x in ids ==> (x in homes <==> x in now)
    ensures Slots(ids, homes) == Slots(ids, now) && LostRanks(ids, homes) == LostRanks(ids, now)
  {
    if ids != [] { SameHomes(ids[..|ids| - 1], homes, now); }
  }

  lemma {:induction false} RanksBelow(ids: seq<Id>, homes: set<Id>)
    ensures forall t :: 0 <= t < |LostRanks(ids, homes)| ==> LostRanks(ids, homes)[t] <= |Slots(ids, homes)|
  {
    if ids != [] { RanksBelow(ids[..|ids| - 1], homes); }
  }

  /** The t-th lost position is at its rank plus t. */
  lemma {:induction false} LostIndex(ids: seq<Id>, homes: set<Id>)
    ensures forall t :: 0 <= t < |LostRanks(ids, homes)| ==> LostRanks(ids, homes)[t] + t < |ids|
  {
    RanksBelow(ids, homes);
    BothCount(ids, homes);
    if ids != [] { LostIndex(ids[..|ids| - 1], homes); BothCount(ids[..|ids| - 1], homes); }
  }

  /** The t lost positions before index o are those whose rank plus number lies below o. */
  lemma {:induction false} LostBelow(ids: seq<Id>, homes: set<Id>, o: nat)
    requires o <= |ids|
    ensures var t, lost := |LostRanks(ids[..o], homes)|, LostRanks(ids, homes);
      && t <= |lost| && t <= o && o - t == |Slots(ids[..o], homes)| <= |Slots(ids, homes)|
      && (forall u :: 0 <= u < t ==> lost[u] + u < o)
      && (forall u :: t <= u < |lost| ==> lost[u] + u >= o)
  {
    hide Slots, LostRanks;
    var a, b := ids[..o], ids[o..];
    assert ids == a + b;
    SlotsConcat(a, b, homes);
    LostConcat(a, b, homes);
    LostIndex(a, homes);
    BothCount(a, homes);
  }

  /** The index shows a slot: it is the one after those before it. */
  lemma {:induction false} SlotHere(ids: seq<Id>, homes: set<Id>, o: nat)
    requires o < |ids| && ids[o] in homes
    ensures var t, lost := |LostRanks(ids[..o], homes)|, LostRanks(ids, homes);
      && t <= |lost| && t <= o && o - t < |Slots(ids, homes)| && Slots(ids, homes)[o - t] == ids[o]
      && (forall u :: 0 <= u < t ==> lost[u] <= o - t)
      && (forall u :: t <= u < |lost| ==> lost[u] > o - t)
  {
    hide Slots, LostRanks;
    var a, x, c := ids[..o], [ids[o]], ids[o + 1..];
    assert ids == a + (x + c);
    SlotsConcat(a, x + c, homes);
    SlotsConcat(x, c, homes);
    LostConcat(a, x + c, homes);
    LostConcat(x, c, homes);
    AllSlots(x, homes);
    RanksBelow(a, homes);
    BothCount(a, homes);
  }

  /** A lost position shows as one whose rank plus number is its index. */
  lemma {:induction false} LostHere(ids: seq<Id>, homes: set<Id>, o: nat)
    requires o < |ids| && ids[o] !in homes
    ensures var t, lost := |LostRanks(ids[..o], homes)|, LostRanks(ids, homes); t < |lost| && lost[t] + t == o
  {
    var a, x, c := ids[..o], [ids[o]], ids[o + 1..];
    assert ids == a + (x + c);
    LostConcat(a, x + c, homes);
    LostConcat(x, c, homes);
    assert x[..0] == [];
    BothCount(a, homes);
  }

  /** The index of the i-th slot; past the last slot, the end of the list. */
  ghost function OpAt(ids: seq<Id>, homes: set<Id>, i: nat): (o: nat)
    ensures o <= |ids|
    ensures i < |Slots(ids, homes)| ==> o < |ids| && ids[o] in homes && |Slots(ids[..o], homes)| == i && Slots(ids, homes)[i] == ids[o]
    ensures i >= |Slots(ids, homes)| ==> o == |ids|
  {
    if i >= |Slots(ids, homes)| then |ids|
    else
      var n := |ids| - 1;
      if i < |Slots(ids[..n], homes)| then
        var o := OpAt(ids[..n], homes, i);
        assert ids[..n][..o] == ids[..o];
        o
      else n
  }

  lemma {:induction false} RanksRise(ids: seq<Id>, homes: set<Id>)
    ensures forall t, u :: 0 <= t < u < |LostRanks(ids, homes)| ==> LostRanks(ids, homes)[t] <= LostRanks(ids, homes)[u]
  {
    if ids != [] {
      RanksRise(ids[..|ids| - 1], homes);
      RanksBelow(ids[..|ids| - 1], homes);
    }
  }

  /** New slots at index o. */
  lemma {:induction false} SlotsIn(ids: seq<Id>, homes: set<Id>, o: nat, run: seq<Id>)
    requires o <= |ids| && forall x :: x in run ==> x in homes
    ensures var t := |LostRanks(ids[..o], homes)|;
      && t <= o && o - t <= |Slots(ids, homes)| && t <= |LostRanks(ids, homes)|
      && Slots(Splice(ids, o, run), homes) == Splice(Slots(ids, homes), o - t, run)
      && LostRanks(Splice(ids, o, run), homes) == LostRanks(ids, homes)[..t] + Raised(LostRanks(ids, homes)[t..], |run|)
  {
    hide Slots, LostRanks;
    var a, b := ids[..o], ids[o..];
    assert ids == a + b && Splice(ids, o, run) == a + (run + b);
    SlotsConcat(a, b, homes);
    SlotsConcat(a, run + b, homes);
    SlotsConcat(run, b, homes);
    LostConcat(a, b, homes);
    LostConcat(a, run + b, homes);
    LostConcat(run, b, homes);
    AllSlots(run, homes);
    BothCount(a, homes);
  }

  /** The slot at index o gone. */
  lemma {:induction false} SlotOut(ids: seq<Id>, homes: set<Id>, o: nat)
    requires o < |ids| && ids[o] in homes
    ensures var t, lost := |LostRanks(ids[..o], homes)|, LostRanks(ids, homes);
      && t <= o && o - t < |Slots(ids, homes)| && t <= |lost|
      && Slots(Without(ids, o, 1), homes) == Without(Slots(ids, homes), o - t, 1)
      && (forall u :: t <= u < |lost| ==> lost[u] > 0)
      && LostRanks(Without(ids, o, 1), homes) == lost[..t] + Lowered(lost[t..])
  {
    hide Slots, LostRanks;
    var a, x, c := ids[..o], [ids[o]], ids[o + 1..];
    WithoutOne(ids, o);
    SlotsConcat(a, x + c, homes);
    SlotsConcat(x, c, homes);
    SlotsConcat(a, c, homes);
    LostConcat(a, x + c, homes);
    LostConcat(x, c, homes);
    LostConcat(a, c, homes);
    AllSlots(x, homes);
    BothCount(a, homes);
    WithoutOne(Slots(ids, homes), |Slots(a, homes)|);
  }

  lemma {:induction false} WithoutOne(s: seq<Id>, o: nat)
    requires o < |s|
    ensures Without(s, o, 1) == s[..o] + s[o + 1..] && s == s[..o] + ([s[o]] + s[o + 1..])
  {
  }

  ghost function Lowered(s: seq<nat>): (r: seq<int>)
    ensures |r| == |s| && forall i :: 0 <= i < |s| ==> r[i] == s[i] as int - 1
  {
    seq(|s|, i requires 0 <= i < |s| => s[i] as int - 1)
  }
}
