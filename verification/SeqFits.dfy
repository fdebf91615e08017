/** What causality gives an insert: its origins fit, so its run goes where its key belongs. */
module SeqFits {
  import opened Common
  import opened KeyOrder
  import opened SeqTypes
  import opened SeqOrder
  import opened SeqScan
  import opened SeqInsert
  import opened SeqReference

  /** A view closed under causality: with an element it has that element's origins, and it has
      every element of its own author. */
  ghost predicate Causal(nodes: seq<Node>, v: View) {
    forall i :: 0 <= i < |nodes| ==> CausalAt(nodes[i], v)
  }

  ghost predicate CausalAt(n: Node, v: View) {
    && (v.Has(n.id) ==> (n.left.Some? ==> v.Has(n.left.value)) && (n.right.Some? ==> v.Has(n.right.value)))
    && (n.id.peer == v.peer ==> v.Has(n.id))
  }

  /** None of the n atoms from `id` on is in the sequence. */
  ghost predicate NewAtoms(nodes: seq<Node>, id: Id, n: nat) {
    forall i :: 0 <= i < |nodes| ==> !InAtoms(nodes[i].id, id, n)
  }

  lemma {:induction false} IndexAt(nodes: seq<Node>, i: int)
    requires Distinct(nodes) && -1 <= i <= |nodes|
    ensures Present(nodes, OriginAt(nodes, i))
    ensures i < |nodes| ==> LeftIndex(nodes, OriginAt(nodes, i)) == i
    ensures i >= 0 ==> RightIndex(nodes, OriginAt(nodes, i)) == i
  {
    if 0 <= i < |nodes| { IndexOfIs(nodes, i); }
  }

  /** Every descendant of `left` that the author has leads to a child of `left` it has. */
  lemma {:induction false} SeenChild(nodes: seq<Node>, key: Keys, v: View, left: Option<Id>, d: nat) returns (c: nat)
    requires Ordered(nodes, key) && Causal(nodes, v) && Present(nodes, left) && d < |nodes| && v.Has(nodes[d].id)
    requires IsPrefix(Base(key, left), K(nodes, key, d)) && K(nodes, key, d) != Base(key, left)
    ensures c <= d && nodes[c].left == left && v.Has(nodes[c].id)
    decreases d
  {
    hide Ordered, IsPrefix, Base, K;
    if nodes[d].left == left {
      c := d;
    } else {
      assert CausalAt(nodes[d], v);
      var e := LeftStep(nodes, key, left, d);
      c := SeenChild(nodes, key, v, left, e);
    }
  }

  /** The next element the author has after `left` is a child of `left` or none of its descendants. */
  lemma {:induction false} NextSeenFits(nodes: seq<Node>, key: Keys, v: View, left: int)
    requires Ordered(nodes, key) && Causal(nodes, v) && -1 <= left < |nodes|
    ensures var l := OriginAt(nodes, left);
      var end := NextSeen(nodes, v, left + 1);
      end < |nodes| ==> nodes[end].left == l || !IsPrefix(Base(key, l), K(nodes, key, end))
  {
    hide Causal, IsPrefix, Ordered, Base, K, NextSeen, Distinct, BetweenOrigins, KeysMatch, Sorted;
    var l := OriginAt(nodes, left);
    var end := NextSeen(nodes, v, left + 1);
    OrderedParts(nodes, key);
    IndexAt(nodes, left);
    if end < |nodes| && IsPrefix(Base(key, l), K(nodes, key, end)) {
      NotBase(nodes, key, l, end);
      var c := SeenChild(nodes, key, v, l, end);
      ChildAfter(nodes, key, c);
    }
  }

  lemma {:induction false} ChildAfter(nodes: seq<Node>, key: Keys, c: nat)
    requires Ordered(nodes, key) && c < |nodes|
    ensures Present(nodes, nodes[c].left) && Present(nodes, nodes[c].right)
    ensures LeftIndex(nodes, nodes[c].left) < c < RightIndex(nodes, nodes[c].right)
  {
  }

  /** No sibling under the same right parent is by the same author. */
  lemma {:induction false} NoTwin(nodes: seq<Node>, key: Keys, v: View, left: int, i: nat)
    requires Ordered(nodes, key) && Causal(nodes, v) && -1 <= left < |nodes| && i < |nodes|
    requires var l := OriginAt(nodes, left);
      && nodes[i].left == l
      && RightParent(nodes, l, nodes[i].right) ==
         RightParent(nodes, l, OriginAt(nodes, NextSeen(nodes, v, left + 1)))
    ensures nodes[i].id.peer != v.peer
  {
    hide Ordered, IsPrefix, K, Base, Causal, KeysMatch, Sorted;
    var l := OriginAt(nodes, left);
    var end := NextSeen(nodes, v, left + 1);
    OrderedParts(nodes, key);
    IndexAt(nodes, left);
    IndexAt(nodes, end);
    ChildAfter(nodes, key, i);
    CausalHere(nodes, v, i);
    if nodes[i].id.peer == v.peer {
      TwinParent(nodes, key, v, left, i);
      NodeFacts(nodes, key, i);
    }
  }

  lemma {:induction false} CausalHere(nodes: seq<Node>, v: View, i: nat)
    requires Causal(nodes, v) && i < |nodes|
    ensures CausalAt(nodes[i], v)
  {
  }

  lemma {:induction false} TwinParent(nodes: seq<Node>, key: Keys, v: View, left: int, i: nat)
    requires Ordered(nodes, key) && Causal(nodes, v) && -1 <= left < i < |nodes|
    requires nodes[i].left == OriginAt(nodes, left) && v.Has(nodes[i].id)
    ensures var end := NextSeen(nodes, v, left + 1);
      end <= i && RightParent(nodes, OriginAt(nodes, left), OriginAt(nodes, end)) == end
  {
    hide Ordered, IsPrefix, K, Base, Causal, KeysMatch, Sorted, BetweenOrigins;
    var l := OriginAt(nodes, left);
    var end := NextSeen(nodes, v, left + 1);
    OrderedParts(nodes, key);
    IndexAt(nodes, left);
    IndexAt(nodes, end);
    ChildPrefix(nodes, key, i);
    SubtreeContiguous(nodes, key, l, end, i);
    NextSeenFits(nodes, key, v, left);
  }

  /** The origins an insert finds in its author's view fit. */
  lemma {:induction false} OriginsFit(nodes: seq<Node>, key: Keys, v: View, left: int)
    requires Ordered(nodes, key) && Causal(nodes, v) && -1 <= left < |nodes|
    ensures var end := NextSeen(nodes, v, left + 1);
      && LeftIndex(nodes, OriginAt(nodes, left)) == left
      && RightIndex(nodes, OriginAt(nodes, end)) == end
      && Fits(nodes, key, OriginAt(nodes, left), OriginAt(nodes, end), v.peer)
  {
    hide Ordered, IsPrefix, K, Base, Causal, KeysMatch, Sorted, BetweenOrigins;
    var l := OriginAt(nodes, left);
    var end := NextSeen(nodes, v, left + 1);
    OrderedParts(nodes, key);
    IndexAt(nodes, left);
    IndexAt(nodes, end);
    NextSeenFits(nodes, key, v, left);
    forall i | 0 <= i < |nodes| && nodes[i].left == l
               && RightParent(nodes, l, nodes[i].right) == RightParent(nodes, l, OriginAt(nodes, end))
      ensures nodes[i].id.peer != v.peer
    {
      NoTwin(nodes, key, v, left, i);
    }
  }

  /** An insert of an author with a causal view leaves the sequence ordered, each of its elements
      having the key its origins give it. */
  lemma {:induction false} InsertAfterOrdered(nodes: seq<Node>, key: Keys, v: View, left: int, id: Id, cells: seq<Cell>)
    requires Ordered(nodes, key) && Causal(nodes, v) && -1 <= left < |nodes| && id.peer == v.peer && cells != []
    requires NewAtoms(nodes, id, |cells|)
    ensures var l, r := OriginAt(nodes, left), OriginAt(nodes, NextSeen(nodes, v, left + 1));
      Ordered(InsertAfter(nodes, v, left, id, cells),
              WithRun(key, KeyFor(nodes, key, l, r, id.peer), Run(id, l, r, cells)))
  {
    hide Ordered, IsPrefix, K, Base, Causal, KeysMatch, Sorted, BetweenOrigins, KeyFor, Fits, Less, Scan, AllBefore, AllAfter, Distinct;
    var end := NextSeen(nodes, v, left + 1);
    var l, r := OriginAt(nodes, left), OriginAt(nodes, end);
    OriginsFit(nodes, key, v, left);
    FitsPresent(nodes, key, l, r, id.peer);
    Placed(nodes, key, v, left);
    RunIsRun(nodes, id, l, r, cells);
    RunOrdered(nodes, key, PlaceAfter(nodes, v, left, id.peer), Run(id, l, r, cells), KeyFor(nodes, key, l, r, id.peer));
  }

  lemma {:induction false} Placed(nodes: seq<Node>, key: Keys, v: View, left: int)
    requires Ordered(nodes, key) && Causal(nodes, v) && -1 <= left < |nodes|
    ensures var l, r := OriginAt(nodes, left), OriginAt(nodes, NextSeen(nodes, v, left + 1));
      var kx := KeyFor(nodes, key, l, r, v.peer);
      var at := PlaceAfter(nodes, v, left, v.peer);
      AllBefore(nodes, key, kx, at) && AllAfter(nodes, key, kx, at)
  {
    hide Ordered, Causal, Fits, KeyFor, Less, Scan, AllAfter;
    var end := NextSeen(nodes, v, left + 1);
    var l, r := OriginAt(nodes, left), OriginAt(nodes, end);
    OriginsFit(nodes, key, v, left);
    BeforeNew(nodes, key, left, l, r, v.peer);
    ScanPlacesFrom(nodes, key, l, r, v.peer, left + 1, left + 1, false);
  }

  /** The left origin and all before it come before a child of it. */
  lemma {:induction false} BeforeNew(nodes: seq<Node>, key: Keys, left: int, l: Option<Id>, r: Option<Id>, peer: nat)
    requires Ordered(nodes, key) && -1 <= left < |nodes| && l == OriginAt(nodes, left)
    ensures AllBefore(nodes, key, KeyFor(nodes, key, l, r, peer), left + 1)
  {
    hide Ordered, KeyFor, Less;
    OrderedParts(nodes, key);
    if left >= 0 {
      BaseIs(nodes, key, left);
      ParentStemShape(nodes, key, l, r, peer);
      PrefixLess(Base(key, l), KeyFor(nodes, key, l, r, peer));
      BeforeAll(nodes, key, KeyFor(nodes, key, l, r, peer), left);
    }
  }

  lemma {:induction false} RunIsRun(nodes: seq<Node>, id: Id, l: Option<Id>, r: Option<Id>, cells: seq<Cell>)
    requires NewAtoms(nodes, id, |cells|)
    ensures IsRun(Run(id, l, r, cells)) && FreshRun(nodes, Run(id, l, r, cells))
  {
  }
}
