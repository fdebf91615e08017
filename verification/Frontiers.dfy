/** The frontiers: exactly the atoms nothing applied comes after. */
module Frontiers {
  import opened Common
  import opened SeqTypes
  import opened CausalHistory
  import opened IdLists
  import opened Changes
  import opened LogHistory

  /** Peer to counter, one id a peer. */
  type Frontier = map<nat, int>

  predicate Has(fr: Frontier, x: Id) { x.peer in fr && fr[x.peer] == x.counter }

  ghost function IdsOf(fr: Frontier): set<Id> { set p | p in fr :: Id(p, fr[p]) }

  /** A frontier keeps one counter a peer: the larger of the old one and the new. */
  function PushId(fr: Frontier, x: Id): Frontier {
    if x.peer in fr && fr[x.peer] >= x.counter then fr else fr[x.peer := x.counter]
  }

  /** Drops the peer's entry when its counter equals the id's, and otherwise nothing. */
  function RemoveId(fr: Frontier, x: Id): Frontier {
    if Has(fr, x) then fr - {x.peer} else fr
  }

  /** The ids of a frontier as a list. */
  method FrontierIds(fr: Frontier) returns (ids: seq<Id>)
    ensures DistinctIds(ids) && forall x :: x in ids <==> Has(fr, x)
  {
    ids := [];
    var left := fr.Keys;
    while left != {}
      invariant left <= fr.Keys
      invariant DistinctIds(ids) && forall x :: x in ids <==> Has(fr, x) && x.peer !in left
      decreases left
    {
      var p :| p in left;
      left := left - {p};
      ids := ids + [Id(p, fr[p])];
    }
  }

  method Same(fr: Frontier, ids: seq<Id>) returns (same: bool)
    requires DistinctIds(ids)
    ensures same <==> forall x :: x in ids <==> Has(fr, x)
  {
    same := |fr| == |ids| && forall i :: 0 <= i < |ids| ==> Has(fr, ids[i]);
    SameCount(fr, ids);
  }

  lemma {:induction false} SameCount(fr: Frontier, ids: seq<Id>)
    requires DistinctIds(ids)
    ensures (|fr| == |ids| && forall i :: 0 <= i < |ids| ==> Has(fr, ids[i])) <==> forall x :: x in ids <==> Has(fr, x)
  {
    var s := IdSet(ids);
    DistinctCount(ids);
    FrontierCount(fr);
    forall x ensures x in s <==> x in ids { DepInSet(ids, x); }
    forall x ensures x in IdsOf(fr) <==> Has(fr, x) { }
    if forall i :: 0 <= i < |ids| ==> Has(fr, ids[i]) {
      forall x | x in s ensures x in IdsOf(fr) { }
      if |fr| == |ids| { SubsetAll(s, IdsOf(fr)); }
    }
    if forall x :: x in ids <==> Has(fr, x) { assert s == IdsOf(fr); }
  }

  lemma {:induction false} SubsetAll<T>(a: set<T>, b: set<T>)
    requires a <= b && |a| == |b|
    ensures a == b
  {
    assert b == a + (b - a) && |b| == |a| + |b - a|;
  }

  lemma {:induction false} DistinctCount(ids: seq<Id>)
    requires DistinctIds(ids)
    ensures |IdSet(ids)| == |ids|
  {
    if ids != [] {
      var m := |ids| - 1;
      DistinctCount(ids[..m]);
      assert ids == ids[..m] + [ids[m]];
      forall x ensures x in IdSet(ids) <==> x in IdSet(ids[..m]) + {ids[m]} { DepInSet(ids, x); DepInSet(ids[..m], x); }
      DepInSet(ids[..m], ids[m]);
      assert IdSet(ids) == IdSet(ids[..m]) + {ids[m]};
    }
  }

  lemma {:induction false} FrontierCount(fr: Frontier)
    ensures |IdsOf(fr)| == |fr|
    decreases |fr|
  {
    if fr != map[] {
      var p :| p in fr;
      var rest := fr - {p};
      assert fr == rest[p := fr[p]];
      assert IdsOf(fr) == IdsOf(rest) + {Id(p, fr[p])};
      FrontierCount(rest);
    }
  }

  /** What a change leaves of the frontiers: its deps go, its last atom comes. */
  ghost predicate Updated(fr: Frontier, last: Id, deps: seq<Id>, r: Frontier) {
    && (forall x: Id :: x.peer != last.peer ==> (Has(r, x) <==> Has(fr, x) && x !in deps))
    && last.peer in r
    && r[last.peer] == (if last.peer in fr && Id(last.peer, fr[last.peer]) !in deps then Max(last.counter, fr[last.peer]) else last.counter)
  }

  /** A change's deps leave the frontiers and its last atom comes. */
  method UpdateOnNewChange(fr: Frontier, last: Id, deps: seq<Id>) returns (r: Frontier)
    requires DistinctIds(deps)
    ensures Updated(fr, last, deps, r)
  {
    if |fr| <= 8 {
      var same := Same(fr, deps);
      if same { return map[last.peer := last.counter]; }
    }
    r := fr;
    for i := 0 to |deps|
      invariant forall x :: Has(r, x) <==> Has(fr, x) && x !in deps[..i]
    {
      r := RemoveId(r, deps[i]);
    }
    assert deps[..|deps|] == deps;
    RemovedAt(fr, deps, r, last.peer);
    r := PushId(r, last);
  }

  lemma {:induction false} RemovedAt(fr: Frontier, deps: seq<Id>, r: Frontier, p: nat)
    requires forall x :: Has(r, x) <==> Has(fr, x) && x !in deps
    ensures p in r <==> p in fr && Id(p, fr[p]) !in deps
    ensures p in r ==> r[p] == fr[p]
  {
    if p in r { assert Has(r, Id(p, r[p])); }
    if p in fr && Id(p, fr[p]) !in deps { assert Has(r, Id(p, fr[p])); }
  }

  // ----- what the frontiers are -----

  ghost predicate FrontierIs(h: History, s: set<Id>, fr: Frontier)
    requires Closed(h)
  {
    forall x :: Has(fr, x) <==> Maximal(h, s, x)
  }

  ghost function AtomsOf(c: Change): set<Id> {
    set k | c.id.counter <= k < ChangeEnd(c) :: Id(c.id.peer, k)
  }

  lemma {:induction false} AtomsAre(c: Change, x: Id)
    ensures x in AtomsOf(c) <==> Within(c, x)
  {
  }

  /** A change that can be applied next: its deps are applied, none of its atoms is. */
  ghost predicate Ready(w: World, s: set<Id>, c: Change) {
    && Honest(w) && Told(w, c) && DownClosed(w.h, s)
    && (forall d :: d in c.deps ==> d in s) && c.id !in s
  }

  lemma {:induction false} ReadyOwn(w: World, s: set<Id>, c: Change, x: Id)
    requires Ready(w, s, c) && x in s && x.peer == c.id.peer
    ensures x.counter < c.id.counter && Past(w.h, x, c.id)
  {
    hide Past, Told;
    ToldTells(w, c);
    if x.counter >= c.id.counter {
      if x != c.id { OwnPast(w.h, c.id, x); ClosedPast(w.h, s, c.id, x); }
    } else {
      OwnPast(w.h, x, c.id);
    }
  }

  lemma {:induction false} ReadyAtoms(w: World, s: set<Id>, c: Change, x: Id)
    requires Ready(w, s, c) && Within(c, x)
    ensures x !in s && x in w.h && AtOrPast(w.h, x, LastId(c))
  {
    hide Past, Told;
    ToldTells(w, c);
    if x in s { ReadyOwn(w, s, c, x); }
    LamportInside(w.h, AsSeq(c), x);
    LamportInside(w.h, AsSeq(c), LastId(c));
    if x != LastId(c) { OwnPast(w.h, x, LastId(c)); }
  }

  /** What the change's last atom comes after, among what is applied: deps, and what they come after. */
  lemma {:induction false} BeforeLast(w: World, s: set<Id>, c: Change, x: Id)
    requires Ready(w, s, c) && x in s
    ensures Past(w.h, x, LastId(c)) <==> x in c.deps || exists d :: d in c.deps && Past(w.h, x, d)
  {
    hide Told;
    ToldTells(w, c);
    if Within(c, x) { ReadyAtoms(w, s, c, x); }
    BeforeInside(w.h, AsSeq(c), x, LastId(c));
    forall d ensures d in w.h[c.id].deps <==> d in c.deps { DepInSet(c.deps, d); }
  }

  lemma {:induction false} StillMaximal(w: World, s: set<Id>, c: Change, x: Id)
    requires Ready(w, s, c) && x in s
    ensures Maximal(w.h, s + AtomsOf(c), x) <==> Maximal(w.h, s, x) && x !in c.deps
  {
    hide Past, Told;
    BeforeLast(w, s, c, x);
    var t := s + AtomsOf(c);
    ToldTells(w, c);
    assert LastId(c) in t by { AtomsAre(c, LastId(c)); }
    if Maximal(w.h, s, x) && x !in c.deps {
      forall y | y in t ensures !Past(w.h, x, y) {
        if y !in s {
          AtomsAre(c, y);
          ReadyAtoms(w, s, c, y);
          if Past(w.h, x, y) && y != LastId(c) { PastTrans(w.h, x, y, LastId(c)); }
        }
      }
    }
    if Maximal(w.h, t, x) { forall y | y in s ensures !Past(w.h, x, y) { assert y in t; } }
  }

  lemma {:induction false} OnlyLast(w: World, s: set<Id>, c: Change, x: Id)
    requires Ready(w, s, c) && Within(c, x)
    ensures Maximal(w.h, s + AtomsOf(c), x) <==> x == LastId(c)
  {
    hide Past, Told;
    var t := s + AtomsOf(c);
    ToldTells(w, c);
    AtomsAre(c, x);
    AtomsAre(c, LastId(c));
    ReadyAtoms(w, s, c, x);
    if x == LastId(c) {
      forall y | y in t ensures !Past(w.h, x, y) {
        if Past(w.h, x, y) {
          if y in s {
            ClosedPast(w.h, s, x, y);
          } else {
            AtomsAre(c, y);
            ReadyAtoms(w, s, c, y);
            PastIn(w.h, x, y);
            if y != x { PastIn(w.h, y, x); }
          }
        }
      }
    }
  }

  /** Applying a change keeps the frontiers exactly the maximal applied atoms. */
  lemma {:induction false} FrontierKept(w: World, s: set<Id>, c: Change, fr: Frontier, r: Frontier)
    requires Ready(w, s, c) && FrontierIs(w.h, s, fr) && Updated(fr, LastId(c), c.deps, r)
    ensures FrontierIs(w.h, s + AtomsOf(c), r)
  {
    hide Past, Told, Maximal, DownClosed, Updated;
    forall x ensures Has(r, x) <==> Maximal(w.h, s + AtomsOf(c), x) { FrontierAt(w, s, c, fr, r, x); }
  }

  lemma {:induction false} MaximalIn(h: History, s: set<Id>, x: Id)
    requires Closed(h) && Maximal(h, s, x)
    ensures x in s
  {
  }

  lemma {:induction false} FrontierAt(w: World, s: set<Id>, c: Change, fr: Frontier, r: Frontier, x: Id)
    requires Ready(w, s, c) && FrontierIs(w.h, s, fr) && Updated(fr, LastId(c), c.deps, r)
    ensures Has(r, x) <==> Maximal(w.h, s + AtomsOf(c), x)
  {
    hide Past, Told, Maximal, DownClosed;
    AtomsAre(c, x);
    ToldTells(w, c);
    if Within(c, x) {
      OnlyLast(w, s, c, x);
    } else if x in s {
      StillMaximal(w, s, c, x);
    } else if Maximal(w.h, s + AtomsOf(c), x) {
      MaximalIn(w.h, s + AtomsOf(c), x);
    }
    if x.peer == c.id.peer {
      LastTop(w, s, c, fr, r);
      if x in s {
        ReadyOwn(w, s, c, x);
        if Maximal(w.h, s + AtomsOf(c), x) { OwnNotMaximal(w, s, c, x); }
      }
    } else if Has(fr, x) {
      MaximalIn(w.h, s, x);
    }
  }

  lemma {:induction false} OwnNotMaximal(w: World, s: set<Id>, c: Change, x: Id)
    requires Ready(w, s, c) && Past(w.h, x, c.id)
    ensures !Maximal(w.h, s + AtomsOf(c), x)
  {
    hide Past;
    ToldTells(w, c);
    AtomsAre(c, c.id);
    assert c.id in s + AtomsOf(c);
  }

  lemma {:induction false} LastTop(w: World, s: set<Id>, c: Change, fr: Frontier, r: Frontier)
    requires Ready(w, s, c) && FrontierIs(w.h, s, fr) && Updated(fr, LastId(c), c.deps, r)
    ensures r[c.id.peer] == LastId(c).counter
  {
    hide Past, Told, Maximal, DownClosed;
    var p := c.id.peer;
    ToldTells(w, c);
    if p in fr {
      assert Has(fr, Id(p, fr[p]));
      MaximalIn(w.h, s, Id(p, fr[p]));
      ReadyOwn(w, s, c, Id(p, fr[p]));
    }
  }
}
