/** The scan puts a run exactly where its key belongs. */
module SeqScan {
  import opened Common
  import opened KeyOrder
  import opened SeqTypes
  import opened SeqOrder

  /** A child of the shared left origin at which the scan settles: its right parent is not
      nearer than the run's own. */
  ghost predicate Decider(nodes: seq<Node>, left: Option<Id>, right: Option<Id>, o: Node) {
    o.left == left && RightParent(nodes, left, o.right) >= RightParent(nodes, left, right)
  }

  /** From a child that does not settle the scan a later one on the same side does. */
  lemma {:induction false} DeciderFor(nodes: seq<Node>, key: Keys, left: Option<Id>, right: Option<Id>, peer: nat, c: nat)
    returns (e: nat)
    requires Ordered(nodes, key) && Fits(nodes, key, left, right, peer)
    requires c < RightIndex(nodes, right) && nodes[c].left == left
    ensures c <= e < RightIndex(nodes, right) && Decider(nodes, left, right, nodes[e])
    ensures var kx := KeyFor(nodes, key, left, right, peer);
      Less(K(nodes, key, c), kx) <==> Less(K(nodes, key, e), kx)
    decreases |nodes| - c
  {
    if Decider(nodes, left, right, nodes[c]) {
      e := c;
    } else {
      SameSide(nodes, key, left, right, peer, c);
      var q := RightParent(nodes, left, nodes[c].right);
      ChildInside(nodes, key, left, right, peer, q);
      e := DeciderFor(nodes, key, left, right, peer, q);
    }
  }

  /** A child nearer than the run's right parent lies before the run's right origin. */
  lemma {:induction false} ChildInside(nodes: seq<Node>, key: Keys, left: Option<Id>, right: Option<Id>, peer: nat, q: nat)
    requires Ordered(nodes, key) && Fits(nodes, key, left, right, peer)
    requires q < |nodes| && nodes[q].left == left && q < RightParent(nodes, left, right)
    ensures q < RightIndex(nodes, right)
  {
    var end := RightIndex(nodes, right);
    if end <= q {
      assert RightParent(nodes, left, right) == |nodes|;
      assert end < q by { if end == q { assert false; } }
      ChildPrefix(nodes, key, q);
      if left.Some? {
        SubtreeContiguous(nodes, key, left, end, q);
      }
      assert false;
    }
  }

  lemma {:induction false} BaseBefore(nodes: seq<Node>, key: Keys, left: Option<Id>, m: nat)
    requires Ordered(nodes, key) && left.Some? && Present(nodes, left) && LeftIndex(nodes, left) < m < |nodes|
    ensures Less(Base(key, left), K(nodes, key, m))
  {
    assert K(nodes, key, IndexOf(nodes, left.value)) == Base(key, left);
  }

  /** Everything between an element and one of its descendants descends from it too. */
  lemma {:induction false} SubtreeContiguous(nodes: seq<Node>, key: Keys, left: Option<Id>, m: nat, d: nat)
    requires Ordered(nodes, key) && Present(nodes, left) && LeftIndex(nodes, left) < m <= d < |nodes|
    requires IsPrefix(Base(key, left), K(nodes, key, d))
    ensures IsPrefix(Base(key, left), K(nodes, key, m))
  {
    hide Ordered;
    if left.Some? {
      var b := Base(key, left);
      BaseBefore(nodes, key, left, m);
      if m != d { SortedIndex(nodes, key, m, d); }
      BetweenPrefix(b, b, K(nodes, key, m), K(nodes, key, d));
    }
  }

  /** A child under the run's own right parent is ordered against it by author. */
  lemma {:induction false} LevelSide(nodes: seq<Node>, key: Keys, left: Option<Id>, right: Option<Id>, peer: nat, o: nat)
    requires Ordered(nodes, key) && Fits(nodes, key, left, right, peer) && o < |nodes| && nodes[o].left == left
    requires RightParent(nodes, left, nodes[o].right) == RightParent(nodes, left, right)
    ensures nodes[o].id.peer != peer
    ensures var kx := KeyFor(nodes, key, left, right, peer);
      if nodes[o].id.peer < peer then Less(K(nodes, key, o), kx) else Less(kx, K(nodes, key, o))
  {
    NodeFacts(nodes, key, o);
    var p := ParentStem(nodes, key, left, right);
    if nodes[o].id.peer < peer { UnderStem(p, nodes[o].id.peer, peer); }
    else { UnderStem(p, peer, nodes[o].id.peer); }
  }

  lemma {:induction false} UnderStem(p: Key, a: nat, b: nat)
    requires a < b
    ensures Less(p + [At(a), End], p + [At(b), End])
  {
    LessCancel(p, [At(a), End], [At(b), End]);
  }

  /** A child before the run's right parent whose own right parent lies beyond comes first. */
  lemma {:induction false} BeyondSide(nodes: seq<Node>, key: Keys, left: Option<Id>, right: Option<Id>, peer: nat, o: nat)
    requires Ordered(nodes, key) && Fits(nodes, key, left, right, peer)
    requires o < RightIndex(nodes, right) && nodes[o].left == left
    requires RightParent(nodes, left, nodes[o].right) > RightParent(nodes, left, right)
    ensures Less(K(nodes, key, o), KeyFor(nodes, key, left, right, peer))
  {
    var r := RightParent(nodes, left, right);
    KeyDecided(nodes, key, left, right, peer, o);
    RightParentFacts(nodes, key, left, right, peer);
    RightParentBound(nodes, left, nodes[o].right);
    BeyondStem(nodes, key, left, r, o);
    BeyondStems(nodes, key, left, right, peer, o, r);
  }

  lemma {:induction false} RightParentBound(nodes: seq<Node>, left: Option<Id>, r: Option<Id>)
    ensures RightParent(nodes, left, r) <= |nodes|
  {
  }

  /** A run whose right origin is a child of its left origin. */
  lemma {:induction false} RightParentFacts(nodes: seq<Node>, key: Keys, left: Option<Id>, right: Option<Id>, peer: nat)
    requires BetweenOrigins(nodes) && KeysMatch(nodes, key) && RightParent(nodes, left, right) < |nodes|
    ensures var r := RightParent(nodes, left, right);
      && 0 <= r == RightIndex(nodes, right) && nodes[r].left == left
      && K(nodes, key, r) != []
      && KeyFor(nodes, key, left, right, peer) == Stem(K(nodes, key, r)) + [At(peer), End]
  {
    KeyShape(nodes, key, RightParent(nodes, left, right));
  }

  lemma {:induction false} BeyondStems(nodes: seq<Node>, key: Keys, left: Option<Id>, right: Option<Id>, peer: nat, o: nat, r: nat)
    requires Ordered(nodes, key) && o < r < |nodes|
    requires K(nodes, key, r) != [] && !IsPrefix(Stem(K(nodes, key, r)), K(nodes, key, o))
    requires var kx := KeyFor(nodes, key, left, right, peer);
      && (Less(K(nodes, key, o), kx) <==> !Less(kx, K(nodes, key, o)))
      && kx == Stem(K(nodes, key, r)) + [At(peer), End]
    ensures Less(K(nodes, key, o), KeyFor(nodes, key, left, right, peer))
  {
    hide Ordered, KeyFor, IsPrefix, Stem;
    SortedIndex(nodes, key, o, r);
    OutsideStem(K(nodes, key, r), K(nodes, key, o), peer);
  }

  lemma {:induction false} OutsideStem(kr: Key, ko: Key, peer: nat)
    requires kr != [] && Less(ko, kr) && !IsPrefix(Stem(kr), ko)
    ensures !Less(Stem(kr) + [At(peer), End], ko)
  {
    var kx := Stem(kr) + [At(peer), End];
    if Less(kx, ko) { BetweenPrefix(Stem(kr), kx, ko, kr); }
  }

  lemma {:induction false} BeyondStem(nodes: seq<Node>, key: Keys, left: Option<Id>, r: nat, o: nat)
    requires Ordered(nodes, key) && o < r < |nodes| && nodes[r].left == left && nodes[o].left == left
    requires RightParent(nodes, left, nodes[o].right) > r
    ensures !IsPrefix(Stem(K(nodes, key, r)), K(nodes, key, o))
  {
    hide Ordered, BetweenOrigins, KeysMatch, Sorted, IsPrefix, RightParent, ParentStem;
    var ko, kr := K(nodes, key, o), K(nodes, key, r);
    OriginsPresent(nodes, key, o);
    KeyShape(nodes, key, r);
    if IsPrefix(Stem(kr), ko) {
      if kr == ko { KeyInjective(nodes, key, r, o); }
      StemFits(kr, ParentStem(nodes, key, left, nodes[o].right), nodes[o].id.peer);
      StemNotAbove(nodes, key, left, nodes[o].right, r);
    }
  }

  lemma {:induction false} OriginsPresent(nodes: seq<Node>, key: Keys, o: nat)
    requires Ordered(nodes, key) && o < |nodes|
    ensures Present(nodes, nodes[o].left) && Present(nodes, nodes[o].right)
    ensures BetweenOrigins(nodes) && KeysMatch(nodes, key) && Sorted(nodes, key)
    ensures K(nodes, key, o) == KeyFor(nodes, key, nodes[o].left, nodes[o].right, nodes[o].id.peer)
  {
  }

  /** A descendant lies on the same side of the new key as the child it comes from. */
  lemma {:induction false} DescendantSide(nodes: seq<Node>, key: Keys, left: Option<Id>, right: Option<Id>, peer: nat, c: nat, d: nat)
    requires Ordered(nodes, key) && Fits(nodes, key, left, right, peer)
    requires c < |nodes| && d < |nodes| && nodes[c].left == left && IsPrefix(K(nodes, key, c), K(nodes, key, d))
    ensures var kx := KeyFor(nodes, key, left, right, peer);
      Less(K(nodes, key, c), kx) <==> Less(K(nodes, key, d), kx)
  {
    var kx, kc, kd := KeyFor(nodes, key, left, right, peer), K(nodes, key, c), K(nodes, key, d);
    hide Sorted, Distinct, KeyFor;
    KeyDecided(nodes, key, left, right, peer, c);
    KeyShape(nodes, key, c);
    ParentStemShape(nodes, key, left, right, peer);
    ExtensionSide(kc, nodes[c].id.peer, kd, kx, peer, Base(key, left));
  }

  lemma {:induction false} ExtensionSide(kc: Key, p: nat, kd: Key, kx: Key, q: nat, base: Key)
    requires Shaped(kc, base, p) && Shaped(kx, base, q) && IsPrefix(kc, kd)
    requires Less(kc, kx) <==> !Less(kx, kc)
    ensures Less(kc, kx) <==> Less(kd, kx)
  {
    NoPrefix(kc, p, kx, q, base);
    if Less(kc, kx) {
      LessExtend(kc, kd[|kc|..], kx, []);
      assert kd == kc + kd[|kc|..] && kx == kx + [];
    } else {
      if kc != kd { PrefixLess(kc, kd); LessTrans(kx, kc, kd); }
      LessAsym(kx, kd);
    }
  }

  lemma {:induction false} PrefixIndex(a: Key, b: Key, i: nat)
    requires IsPrefix(a, b) && i < |a|
    ensures a[i] == b[i] && (|a| == |b| ==> a == b)
  {
  }

  lemma {:induction false} NoPrefix(a: Key, p: nat, b: Key, q: nat, base: Key)
    requires Shaped(a, base, p) && Shaped(b, base, q) && (Less(a, b) || Less(b, a))
    ensures !IsPrefix(a, b)
  {
    LessIrreflexive(a);
    if IsPrefix(a, b) {
      PrefixIndex(a, b, |a| - 1);
    }
  }

  // ----- the scan itself -----

  /** Everything before `at` belongs before the new key, nothing in nodes[at..i] settles the
      scan, and every element seen so far descends from the run's left origin. */
  ghost predicate ScanState(nodes: seq<Node>, key: Keys, left: Option<Id>, right: Option<Id>, peer: nat,
                            start: nat, i: nat, at: nat, scanning: bool)
    requires start <= at <= i <= |nodes|
  {
    && AllBefore(nodes, key, KeyFor(nodes, key, left, right, peer), at)
    && (if scanning then at < i && nodes[at].left == left else at == i)
    && (forall j :: at <= j < i ==> !Decider(nodes, left, right, nodes[j]))
    && (forall j :: start <= j < i ==> IsPrefix(Base(key, left), K(nodes, key, j)))
  }

  /** nodes[at..] all belong after kx. */
  ghost predicate AllAfter(nodes: seq<Node>, key: Keys, kx: Key, at: nat) {
    forall j :: at <= j < |nodes| ==> Less(kx, K(nodes, key, j))
  }

  ghost predicate AllBefore(nodes: seq<Node>, key: Keys, kx: Key, at: nat) {
    forall j :: 0 <= j < at && j < |nodes| ==> Less(K(nodes, key, j), kx)
  }

  lemma {:induction false} BeforeAll(nodes: seq<Node>, key: Keys, kx: Key, i: nat)
    requires Sorted(nodes, key) && i < |nodes| && Less(K(nodes, key, i), kx)
    ensures AllBefore(nodes, key, kx, i + 1)
  {
    forall j | 0 <= j < i ensures Less(K(nodes, key, j), kx) {
      LessTrans(K(nodes, key, j), K(nodes, key, i), kx);
    }
  }

  lemma {:induction false} AfterAll(nodes: seq<Node>, key: Keys, kx: Key, i: nat)
    requires Sorted(nodes, key) && i < |nodes| && Less(kx, K(nodes, key, i))
    ensures AllAfter(nodes, key, kx, i)
  {
    forall j | i < j < |nodes| ensures Less(kx, K(nodes, key, j)) {
      LessTrans(kx, K(nodes, key, i), K(nodes, key, j));
    }
  }

  /** An element outside the left origin's subtree belongs after the new key. */
  lemma {:induction false} OutsideAfter(nodes: seq<Node>, key: Keys, left: Option<Id>, right: Option<Id>, peer: nat, i: nat)
    requires Ordered(nodes, key) && Fits(nodes, key, left, right, peer) && LeftIndex(nodes, left) < i < |nodes|
    requires !IsPrefix(Base(key, left), K(nodes, key, i))
    ensures AllAfter(nodes, key, KeyFor(nodes, key, left, right, peer), i)
  {
    BaseBefore(nodes, key, left, i);
    ParentStemShape(nodes, key, left, right, peer);
    LessPrefixed(Base(key, left), KeyFor(nodes, key, left, right, peer), K(nodes, key, i));
    AfterAll(nodes, key, KeyFor(nodes, key, left, right, peer), i);
  }

  lemma {:induction false} LessPrefixed(b: Key, kx: Key, k: Key)
    requires IsPrefix(b, kx) && Less(b, k) && !IsPrefix(b, k)
    ensures Less(kx, k)
  {
    LessExtend(b, kx[|b|..], k, []);
    assert kx == b + kx[|b|..] && k == k + [];
  }

  /** The run's right origin belongs after the new key. */
  lemma {:induction false} RightAfter(nodes: seq<Node>, key: Keys, left: Option<Id>, right: Option<Id>, peer: nat)
    requires Ordered(nodes, key) && Fits(nodes, key, left, right, peer)
    ensures AllAfter(nodes, key, KeyFor(nodes, key, left, right, peer), RightIndex(nodes, right))
  {
    if right.Some? {
      var r := IndexOf(nodes, right.value);
      if RightParent(nodes, left, right) < |nodes| {
        KeyShape(nodes, key, r);
        UnderParent(K(nodes, key, r), peer);
        AfterAll(nodes, key, KeyFor(nodes, key, left, right, peer), r);
      } else {
        OutsideAfter(nodes, key, left, right, peer, r);
      }
    }
  }

  lemma {:induction false} UnderParent(kr: Key, peer: nat)
    requires kr != [] && kr[|kr| - 1] == End
    ensures Less(Stem(kr) + [At(peer), End], kr)
  {
    assert kr == Stem(kr) + [End];
    LessCancel(Stem(kr), [At(peer), End], [End]);
  }

  /** Once the scan stops at i the place found is right. */
  lemma {:induction false} ScanStops(nodes: seq<Node>, key: Keys, left: Option<Id>, right: Option<Id>, peer: nat,
                  i: nat, at: nat, scanning: bool)
    requires Ordered(nodes, key) && Fits(nodes, key, left, right, peer)
    requires LeftIndex(nodes, left) + 1 <= at <= i <= RightIndex(nodes, right)
    requires ScanState(nodes, key, left, right, peer, LeftIndex(nodes, left) + 1, i, at, scanning)
    requires AllAfter(nodes, key, KeyFor(nodes, key, left, right, peer), i)
    ensures AllAfter(nodes, key, KeyFor(nodes, key, left, right, peer), at)
  {
    forall j | at <= j < i
      ensures Less(KeyFor(nodes, key, left, right, peer), K(nodes, key, j))
    {
      PendingAfter(nodes, key, left, right, peer, i, at, scanning, j);
    }
  }

  lemma {:induction false} PendingAfter(nodes: seq<Node>, key: Keys, left: Option<Id>, right: Option<Id>, peer: nat,
                     i: nat, at: nat, scanning: bool, j: nat)
    requires Ordered(nodes, key) && Fits(nodes, key, left, right, peer)
    requires LeftIndex(nodes, left) + 1 <= at <= j < i <= RightIndex(nodes, right)
    requires ScanState(nodes, key, left, right, peer, LeftIndex(nodes, left) + 1, i, at, scanning)
    requires AllAfter(nodes, key, KeyFor(nodes, key, left, right, peer), i)
    ensures Less(KeyFor(nodes, key, left, right, peer), K(nodes, key, j))
  {
    var c := PendingChild(nodes, key, left, at, j);
    DescendantSide(nodes, key, left, right, peer, c, j);
    var e := DeciderFor(nodes, key, left, right, peer, c);
    assert i <= e;
    KeyDecided(nodes, key, left, right, peer, e);
    KeyDecided(nodes, key, left, right, peer, j);
  }

  lemma {:induction false} PendingChild(nodes: seq<Node>, key: Keys, left: Option<Id>, at: nat, j: nat) returns (c: nat)
    requires Ordered(nodes, key) && Present(nodes, left)
    requires LeftIndex(nodes, left) < at <= j < |nodes| && nodes[at].left == left
    requires IsPrefix(Base(key, left), K(nodes, key, j))
    ensures at <= c <= j && nodes[c].left == left && IsPrefix(K(nodes, key, c), K(nodes, key, j))
  {
    NotBase(nodes, key, left, j);
    c := ChildToward(nodes, key, left, j);
    if c < at {
      var kc := K(nodes, key, c);
      KeyShape(nodes, key, c);
      KeyShape(nodes, key, at);
      SubtreeContiguous(nodes, key, Some(nodes[c].id), at, j);
      SortedIndex(nodes, key, c, at);
      NoPrefix(kc, nodes[c].id.peer, K(nodes, key, at), nodes[at].id.peer, Base(key, left));
      assert false;
    }
  }

  lemma {:induction false} NotBase(nodes: seq<Node>, key: Keys, left: Option<Id>, j: nat)
    requires Ordered(nodes, key) && Present(nodes, left) && LeftIndex(nodes, left) < j < |nodes|
    ensures K(nodes, key, j) != Base(key, left)
  {
    if left.Some? {
      BaseBefore(nodes, key, left, j);
      LessIrreflexive(K(nodes, key, j));
    } else {
      KeyShape(nodes, key, j);
    }
  }

  /** An element whose left origin was seen by the scan descends from the run's left origin;
      one whose left origin was not does not. */
  lemma {:induction false} Descends(nodes: seq<Node>, key: Keys, left: Option<Id>, i: nat)
    requires Ordered(nodes, key) && Present(nodes, left) && LeftIndex(nodes, left) < i < |nodes|
    requires forall j :: LeftIndex(nodes, left) < j < i ==> IsPrefix(Base(key, left), K(nodes, key, j))
    ensures IsPrefix(Base(key, left), K(nodes, key, i)) <==>
      nodes[i].left == left
      || (nodes[i].left.Some? && nodes[i].left.value in Ids(nodes[LeftIndex(nodes, left) + 1..i]))
  {
    hide Ordered, Base, K, IsPrefix, Present;
    var start := LeftIndex(nodes, left) + 1;
    var l := nodes[i].left;
    ChildPrefix(nodes, key, i);
    if l != left {
      if l.Some? && l.value in Ids(nodes[start..i]) {
        SeenDescends(nodes, key, left, i);
      } else if IsPrefix(Base(key, left), K(nodes, key, i)) {
        DescendsSeen(nodes, key, left, i);
      }
    }
  }

  lemma {:induction false} SeenDescends(nodes: seq<Node>, key: Keys, left: Option<Id>, i: nat)
    requires Ordered(nodes, key) && 0 <= LeftIndex(nodes, left) + 1 <= i < |nodes|
    requires forall j :: LeftIndex(nodes, left) < j < i ==> IsPrefix(Base(key, left), K(nodes, key, j))
    requires nodes[i].left.Some? && nodes[i].left.value in Ids(nodes[LeftIndex(nodes, left) + 1..i])
    ensures IsPrefix(Base(key, left), K(nodes, key, i))
  {
    hide Ordered, IsPrefix, K, Base;
    var e := FromSlice(nodes, LeftIndex(nodes, left) + 1, i, nodes[i].left.value);
    BaseIs(nodes, key, e);
    ChildPrefix(nodes, key, i);
    PrefixesTrans(Base(key, left), K(nodes, key, e), K(nodes, key, i));
  }

  lemma {:induction false} DescendsSeen(nodes: seq<Node>, key: Keys, left: Option<Id>, i: nat)
    requires Ordered(nodes, key) && Present(nodes, left) && LeftIndex(nodes, left) < i < |nodes|
    requires nodes[i].left != left && IsPrefix(Base(key, left), K(nodes, key, i))
    ensures nodes[i].left.Some? && nodes[i].left.value in Ids(nodes[LeftIndex(nodes, left) + 1..i])
  {
    hide Ordered;
    NotBase(nodes, key, left, i);
    var e := LeftStep(nodes, key, left, i);
    SubtreeAfter(nodes, key, left, e);
    InSlice(nodes, LeftIndex(nodes, left) + 1, i, e);
  }

  lemma {:induction false} BaseIs(nodes: seq<Node>, key: Keys, e: nat)
    requires Ordered(nodes, key) && e < |nodes|
    ensures Base(key, Some(nodes[e].id)) == K(nodes, key, e)
  {
  }

  lemma {:induction false} FromSlice(nodes: seq<Node>, start: nat, i: nat, id: Id) returns (e: nat)
    requires start <= i <= |nodes| && id in Ids(nodes[start..i])
    ensures start <= e < i && nodes[e].id == id
  {
    var j :| 0 <= j < i - start && nodes[start..i][j].id == id;
    e := start + j;
  }

  lemma {:induction false} InSlice(nodes: seq<Node>, start: nat, i: nat, e: nat)
    requires start <= e < i <= |nodes|
    ensures nodes[e].id in Ids(nodes[start..i])
  {
    assert nodes[start..i][e - start] == nodes[e];
  }

  lemma {:induction false} SubtreeAfter(nodes: seq<Node>, key: Keys, left: Option<Id>, e: nat)
    requires Ordered(nodes, key) && Present(nodes, left) && e < |nodes|
    requires IsPrefix(Base(key, left), K(nodes, key, e)) && K(nodes, key, e) != Base(key, left)
    ensures LeftIndex(nodes, left) < e
  {
    if left.Some? {
      PrefixLess(Base(key, left), K(nodes, key, e));
      SortedIndex(nodes, key, IndexOf(nodes, left.value), e);
    }
  }

  /** A descendant follows its ancestor's side when the scan is not pending. */
  lemma {:induction false} FollowsSide(nodes: seq<Node>, key: Keys, left: Option<Id>, right: Option<Id>, peer: nat, i: nat)
    requires Ordered(nodes, key) && Fits(nodes, key, left, right, peer) && LeftIndex(nodes, left) < i < |nodes|
    requires nodes[i].left != left && IsPrefix(Base(key, left), K(nodes, key, i))
    requires AllBefore(nodes, key, KeyFor(nodes, key, left, right, peer), i)
    ensures Less(K(nodes, key, i), KeyFor(nodes, key, left, right, peer))
  {
    hide Ordered, Fits, KeyFor;
    FitsPresent(nodes, key, left, right, peer);
    NotBase(nodes, key, left, i);
    var c := ChildToward(nodes, key, left, i);
    DescendantSide(nodes, key, left, right, peer, c, i);
  }

  /** What one child of the left origin tells the scan. */
  lemma {:induction false} ChildSide(nodes: seq<Node>, key: Keys, left: Option<Id>, right: Option<Id>, peer: nat, i: nat)
    requires Ordered(nodes, key) && Fits(nodes, key, left, right, peer)
    requires i < RightIndex(nodes, right) && nodes[i].left == left
    ensures var theirs, ours := RightParent(nodes, left, nodes[i].right), RightParent(nodes, left, right);
      var kx := KeyFor(nodes, key, left, right, peer);
      && (theirs == ours && nodes[i].id.peer > peer ==> AllAfter(nodes, key, kx, i))
      && (theirs == ours && nodes[i].id.peer <= peer ==> AllBefore(nodes, key, kx, i + 1))
      && (theirs > ours ==> AllBefore(nodes, key, kx, i + 1))
  {
    var theirs, ours := RightParent(nodes, left, nodes[i].right), RightParent(nodes, left, right);
    var kx := KeyFor(nodes, key, left, right, peer);
    if theirs == ours {
      LevelSide(nodes, key, left, right, peer, i);
      if nodes[i].id.peer > peer { AfterAll(nodes, key, kx, i); } else { BeforeAll(nodes, key, kx, i); }
    } else if theirs > ours {
      BeyondSide(nodes, key, left, right, peer, i);
      BeforeAll(nodes, key, kx, i);
    }
  }

  lemma {:induction false} FitsPresent(nodes: seq<Node>, key: Keys, left: Option<Id>, right: Option<Id>, peer: nat)
    requires Fits(nodes, key, left, right, peer)
    ensures Present(nodes, left) && Present(nodes, right)
  {
  }

  /** What each verdict says of the element judged. */
  lemma {:induction false} VerdictSide(nodes: seq<Node>, key: Keys, left: Option<Id>, right: Option<Id>, peer: nat, i: nat)
    requires Ordered(nodes, key) && Fits(nodes, key, left, right, peer)
    requires LeftIndex(nodes, left) < i < RightIndex(nodes, right)
    requires forall j :: LeftIndex(nodes, left) < j < i ==> IsPrefix(Base(key, left), K(nodes, key, j))
    ensures var v := Judge(nodes, LeftIndex(nodes, left) + 1, left, right, peer, i);
      var kx := KeyFor(nodes, key, left, right, peer);
      && (v.Stop? ==> AllAfter(nodes, key, kx, i))
      && (v.Settle? ==> AllBefore(nodes, key, kx, i + 1))
      && (v.Hold? ==> nodes[i].left == left && !Decider(nodes, left, right, nodes[i]))
      && (v.Follow? ==> !Decider(nodes, left, right, nodes[i]))
      && (v.Follow? && AllBefore(nodes, key, kx, i) ==> AllBefore(nodes, key, kx, i + 1))
      && (!v.Stop? ==> IsPrefix(Base(key, left), K(nodes, key, i)))
  {
    hide Ordered, Fits, KeyFor, AllAfter, AllBefore, RightParent, Base, K, IsPrefix;
    FitsPresent(nodes, key, left, right, peer);
    if nodes[i].left == left {
      ChildVerdict(nodes, key, left, right, peer, i);
    } else {
      Descends(nodes, key, left, i);
      DescendantVerdict(nodes, key, left, right, peer, i);
    }
  }

  lemma {:induction false} ChildVerdict(nodes: seq<Node>, key: Keys, left: Option<Id>, right: Option<Id>, peer: nat, i: nat)
    requires Ordered(nodes, key) && Fits(nodes, key, left, right, peer)
    requires LeftIndex(nodes, left) < i < RightIndex(nodes, right) && nodes[i].left == left
    ensures var v := Judge(nodes, LeftIndex(nodes, left) + 1, left, right, peer, i);
      var kx := KeyFor(nodes, key, left, right, peer);
      && (v.Stop? ==> AllAfter(nodes, key, kx, i))
      && (v.Settle? ==> AllBefore(nodes, key, kx, i + 1))
      && (v.Hold? ==> !Decider(nodes, left, right, nodes[i]))
      && !v.Follow?
      && IsPrefix(Base(key, left), K(nodes, key, i))
  {
    hide Ordered, Fits, KeyFor, AllAfter, AllBefore, RightParent, Base, K, IsPrefix;
    ChildPrefix(nodes, key, i);
    ChildSide(nodes, key, left, right, peer, i);
  }

  lemma {:induction false} DescendantVerdict(nodes: seq<Node>, key: Keys, left: Option<Id>, right: Option<Id>, peer: nat, i: nat)
    requires Ordered(nodes, key) && Fits(nodes, key, left, right, peer)
    requires LeftIndex(nodes, left) < i < RightIndex(nodes, right) && nodes[i].left != left
    ensures var kx := KeyFor(nodes, key, left, right, peer);
      if IsPrefix(Base(key, left), K(nodes, key, i))
      then AllBefore(nodes, key, kx, i) ==> AllBefore(nodes, key, kx, i + 1)
      else AllAfter(nodes, key, kx, i)
  {
    hide Ordered, Fits, KeyFor, AllAfter, AllBefore;
    var kx := KeyFor(nodes, key, left, right, peer);
    if IsPrefix(Base(key, left), K(nodes, key, i)) {
      if AllBefore(nodes, key, kx, i) {
        FollowsSide(nodes, key, left, right, peer, i);
        BeforeOne(nodes, key, kx, i);
      }
    } else {
      OutsideAfter(nodes, key, left, right, peer, i);
    }
  }

  lemma {:induction false} BeforeOne(nodes: seq<Node>, key: Keys, kx: Key, i: nat)
    requires AllBefore(nodes, key, kx, i) && (i < |nodes| ==> Less(K(nodes, key, i), kx))
    ensures AllBefore(nodes, key, kx, i + 1)
  {
  }

  lemma {:induction false} ScanPlacesFrom(nodes: seq<Node>, key: Keys, left: Option<Id>, right: Option<Id>, peer: nat,
                                          i: nat, at: nat, scanning: bool)
    requires Ordered(nodes, key) && Fits(nodes, key, left, right, peer)
    requires LeftIndex(nodes, left) + 1 <= at <= i <= RightIndex(nodes, right)
    requires ScanState(nodes, key, left, right, peer, LeftIndex(nodes, left) + 1, i, at, scanning)
    ensures var start, end := LeftIndex(nodes, left) + 1, RightIndex(nodes, right);
      var r := Scan(nodes, start, end, left, right, peer, i, at, scanning);
      var kx := KeyFor(nodes, key, left, right, peer);
      AllBefore(nodes, key, kx, r) && AllAfter(nodes, key, kx, r)
    decreases RightIndex(nodes, right) - i
  {
    hide Ordered, Fits, KeyFor, Judge, AllAfter, AllBefore, Decider;
    var start, end := LeftIndex(nodes, left) + 1, RightIndex(nodes, right);
    if i == end {
      RightAfter(nodes, key, left, right, peer);
      ScanStops(nodes, key, left, right, peer, i, at, scanning);
    } else {
      VerdictSide(nodes, key, left, right, peer, i);
      match Judge(nodes, start, left, right, peer, i)
      case Stop => ScanStops(nodes, key, left, right, peer, i, at, scanning);
      case Settle => ScanPlacesFrom(nodes, key, left, right, peer, i + 1, i + 1, false);
      case Hold => ScanPlacesFrom(nodes, key, left, right, peer, i + 1, at, true);
      case Follow => ScanPlacesFrom(nodes, key, left, right, peer, i + 1, if scanning then at else i + 1, scanning);
    }
  }
}
