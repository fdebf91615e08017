/** What edits of a tree's children lists come to, and indexes that keep the order intended. */
module TreeSplices {
  import opened Common
  import opened FracIndices
  import opened OpSort
  import opened TreeShapes
  import opened TreeKids
  import opened TreeIndices

  // ----- the clock and the counter -----

  ghost predicate Behind(ops: seq<TreeOp>, lamport: int) {
    forall op :: op in ops ==> op.place.lamport < lamport
  }

  /** Of peer's own ids, only those below the counter are taken. */
  predicate Known(x: Id, peer: nat, counter: int) {
    x.peer == peer ==> x.counter < counter
  }

  predicate KnownParent(p: Parent, peer: nat, counter: int) {
    p.Under? ==> Known(p.id, peer, counter)
  }

  ghost predicate Unused(nodes: Places, peer: nat, counter: int) {
    forall x :: x in nodes ==> Known(x, peer, counter) && KnownParent(nodes[x].parent, peer, counter)
  }

  lemma {:induction false} NextIsLater(ops: seq<TreeOp>, lamport: int, op: TreeOp)
    requires Behind(ops, lamport) && op.place.lamport == lamport
    ensures (forall x :: x in ops ==> Sooner(x, op, StampOf)) && Behind(ops + [op], lamport + 1)
  {
  }

  lemma {:induction false} UnusedNext(nodes: Places, peer: nat, counter: int, op: TreeOp)
    requires Unused(nodes, peer, counter) && Known(op.node, peer, counter + 1) && KnownParent(op.place.parent, peer, counter)
    ensures Unused(Step(nodes, op), peer, counter + 1)
  {
    hide Cyclic;
  }

  // ----- lists without a node -----

  function Others(kids: seq<Id>, n: Id): seq<Id> {
    if kids == [] then [] else if kids[0] == n then kids[1..] else [kids[0]] + Others(kids[1..], n)
  }

  lemma {:induction false} OthersNone(kids: seq<Id>, n: Id)
    requires n !in kids
    ensures Others(kids, n) == kids
  {
    if kids != [] { OthersNone(kids[1..], n); }
  }

  lemma {:induction false} OthersAt(kids: seq<Id>, n: Id, i: nat)
    requires i < |kids| && kids[i] == n && forall j :: 0 <= j < i ==> kids[j] != n
    ensures Others(kids, n) == Removed(kids, i)
  {
    if i > 0 { OthersAt(kids[1..], n, i - 1); }
  }

  lemma {:induction false} RestIs(nodes: Places, children: map<Parent, seq<Id>>, p: Parent, n: Id, skip: nat)
    requires Indexed(nodes, children) && p != Trash
    requires if n in nodes && nodes[n].parent == p then skip < |ListAt(children, p)| && ListAt(children, p)[skip] == n
             else skip == |ListAt(children, p)|
    ensures var all := ListAt(children, p);
      var rest := if skip < |all| then Removed(all, skip) else all;
      rest == Others(all, n) && KidsBut(nodes, p, n, rest)
  {
    hide Ranked, Removed;
    var all := ListAt(children, p);
    KidsAt(nodes, children, p);
    if skip < |all| {
      RemoveRanked(nodes, all, skip);
      forall j | 0 <= j < skip ensures all[j] != n { RankedApart(nodes, all, j, skip); }
      OthersAt(all, n, skip);
    } else {
      OthersNone(all, n);
    }
  }

  // ----- indexes around a place -----

  function FiAt(nodes: Places, rest: seq<Id>, i: int): Option<Bytes> {
    if 0 <= i < |rest| && rest[i] in nodes then Some(nodes[rest[i]].fi) else None
  }

  /** Every node that is not deleted has an index that ends as it should. */
  ghost predicate AllEnd(nodes: Places) {
    forall x :: x in nodes && nodes[x].parent != Trash ==> Ends(nodes[x].fi)
  }

  lemma {:induction false} KidsThere(nodes: Places, p: Parent, n: Id, rest: seq<Id>)
    requires KidsBut(nodes, p, n, rest)
    ensures forall k :: 0 <= k < |rest| ==> rest[k] in nodes && nodes[rest[k]].parent == p && rest[k] != n
  {
    hide Ranked;
    forall k | 0 <= k < |rest| ensures rest[k] in nodes && nodes[rest[k]].parent == p && rest[k] != n { assert rest[k] in rest; }
  }

  lemma {:induction false} FirstChild(nodes: Places)
    ensures Rises(None, [[TERMINATOR]], None)
  {
  }

  /** The indexes on the two sides of a gap are in order, and end as they should if all do. */
  lemma {:induction false} Bounds(nodes: Places, p: Parent, n: Id, rest: seq<Id>, i: nat, m: nat)
    requires KidsBut(nodes, p, n, rest) && i + m <= |rest| && p != Trash
    requires FiAt(nodes, rest, i - 1).None? || FiAt(nodes, rest, i - 1) != FiAt(nodes, rest, i + m)
    ensures Sorted2(FiAt(nodes, rest, i - 1), FiAt(nodes, rest, i + m))
    ensures AllEnd(nodes) ==> EndsTwo(FiAt(nodes, rest, i - 1), FiAt(nodes, rest, i + m))
  {
    hide Less, Ends;
    KidsThere(nodes, p, n, rest);
    if 0 <= i - 1 && i + m < |rest| { assert PlaceBefore(nodes[rest[i - 1]], nodes[rest[i + m]]); }
  }

  lemma {:induction false} OneRises(left: Option<Bytes>, right: Option<Bytes>)
    requires Sorted2(left, right)
    ensures NewOf(left, right).Some? ==> Rises(left, [NewOf(left, right).value], right)
    ensures EndsTwo(left, right) ==> NewOf(left, right).Some?
  {
    hide NewOf, Less, Ends;
    NewBetween(left, right);
  }

  // ----- placing several -----

  /** The nodes put under p one after another, by ops of rising lamport. */
  ghost function PlacedAll(nodes: Places, ids: seq<Id>, fis: seq<Bytes>, p: Parent, lamport: int, peer: nat): Places
    requires |ids| == |fis|
  {
    if ids == [] then nodes
    else
      var k := |ids| - 1;
      PlacedAll(nodes, ids[..k], fis[..k], p, lamport, peer)[ids[k] := Place(p, fis[k], lamport + k, peer)]
  }

  lemma {:induction false} NonePlaced(nodes: Places, p: Parent, lamport: int, peer: nat)
    ensures PlacedAll(nodes, [], [], p, lamport, peer) == nodes
  {
  }

  lemma {:induction false} PlaceNext(nodes: Places, ids: seq<Id>, fis: seq<Bytes>, p: Parent, lamport: int, peer: nat, k: nat)
    requires k < |ids| == |fis|
    ensures PlacedAll(nodes, ids[..k + 1], fis[..k + 1], p, lamport, peer) ==
      PlacedAll(nodes, ids[..k], fis[..k], p, lamport, peer)[ids[k] := Place(p, fis[k], lamport + k, peer)]
  {
    assert ids[..k + 1][..k] == ids[..k] && fis[..k + 1][..k] == fis[..k];
  }

  lemma {:induction false} PlacedOther(nodes: Places, ids: seq<Id>, fis: seq<Bytes>, p: Parent, lamport: int, peer: nat, x: Id)
    requires |ids| == |fis| && x !in ids
    ensures var now := PlacedAll(nodes, ids, fis, p, lamport, peer);
      (x in now <==> x in nodes) && (x in nodes ==> now[x] == nodes[x])
  {
    if ids != [] { PlacedOther(nodes, ids[..|ids| - 1], fis[..|ids| - 1], p, lamport, peer, x); }
  }

  lemma {:induction false} PlacedAt(nodes: Places, ids: seq<Id>, fis: seq<Bytes>, p: Parent, lamport: int, peer: nat, k: nat)
    requires k < |ids| == |fis| && forall a, b :: 0 <= a < b < |ids| ==> ids[a] != ids[b]
    ensures var now := PlacedAll(nodes, ids, fis, p, lamport, peer);
      ids[k] in now && now[ids[k]] == Place(p, fis[k], lamport + k, peer)
  {
    var last := |ids| - 1;
    if k < last { PlacedAt(nodes, ids[..last], fis[..last], p, lamport, peer, k); }
  }

  lemma {:induction false} IdsKnown(nodes: Places, p: Parent, ids: seq<Id>, rest: seq<Id>, i: nat, m: nat, peer: nat, counter: int, k: nat)
    requires |ids| == m + 1 && i + m <= |rest| && ids == [ids[0]] + rest[i..i + m] && KidsBut(nodes, p, ids[0], rest) && k < |ids|
    requires Unused(nodes, peer, counter) && Known(ids[0], peer, counter + 1) && KnownParent(p, peer, counter)
    ensures Known(ids[k], peer, counter + k + 1) && KnownParent(p, peer, counter + k)
  {
    hide Ranked;
    KidsThere(nodes, p, ids[0], rest);
    if k > 0 { assert ids[k] == rest[i + k - 1]; }
  }

  lemma {:induction false} IdsApart(nodes: Places, p: Parent, ids: seq<Id>, rest: seq<Id>, i: nat, m: nat)
    requires |ids| == m + 1 && i + m <= |rest| && ids == [ids[0]] + rest[i..i + m] && KidsBut(nodes, p, ids[0], rest)
    ensures forall a, b :: 0 <= a < b < |ids| ==> ids[a] != ids[b]
    ensures forall a :: 1 <= a < |ids| ==> ids[a] in nodes && nodes[ids[a]].parent == p
  {
    hide Ranked;
    KidsThere(nodes, p, ids[0], rest);
    assert forall a :: 1 <= a < |ids| ==> ids[a] == rest[i + a - 1];
    forall a, b | 0 <= a < b < |ids| ensures ids[a] != ids[b] {
      if a > 0 { RankedApart(nodes, rest, i + a - 1, i + b - 1); }
    }
  }

  /** A child is not above its parent. */
  lemma {:induction false} ChildNotAbove(nodes: Places, x: Id)
    requires Acyclic(nodes) && x in nodes && nodes[x].parent.Under?
    ensures !Above(nodes, x, nodes[x].parent.id)
  {
    var p := nodes[x].parent.id;
    forall k: nat ensures Up(nodes, p, k) != Some(x) { assert Up(nodes, x, k + 1) == Up(nodes, p, k); }
  }

  lemma {:induction false} NotCyclic(nodes: Places, ids: seq<Id>, fis: seq<Bytes>, p: Parent, rest: seq<Id>, i: nat, m: nat,
                                     lamport: int, peer: nat, k: nat)
    requires |fis| == |ids| == m + 1 && i + m <= |rest| && ids == [ids[0]] + rest[i..i + m] && KidsBut(nodes, p, ids[0], rest) && k < |ids|
    requires !Cyclic(nodes, TreeOp(ids[0], Place(p, fis[0], lamport, peer)))
    requires Acyclic(PlacedAll(nodes, ids[..k], fis[..k], p, lamport, peer))
    ensures !Cyclic(PlacedAll(nodes, ids[..k], fis[..k], p, lamport, peer), TreeOp(ids[k], Place(p, fis[k], lamport + k, peer)))
  {
    hide Above, Acyclic, KidsBut;
    if k == 0 {
      assert ids[..0] == [] && fis[..0] == [];
    } else {
      IdsApart(nodes, p, ids, rest, i, m);
      PlacedOther(nodes, ids[..k], fis[..k], p, lamport, peer, ids[k]);
      if p.Under? { ChildNotAbove(PlacedAll(nodes, ids[..k], fis[..k], p, lamport, peer), ids[k]); }
    }
  }

  // ----- the lists after an edit -----

  /** n is child number i of p, counted without it, and in no other list; nothing else moved. */
  ghost predicate Spliced(was: map<Parent, seq<Id>>, now: map<Parent, seq<Id>>, n: Id, p: Parent, i: nat) {
    && i <= |Others(ListAt(was, p), n)| && ListAt(now, p) == Inserted(Others(ListAt(was, p), n), i, n)
    && forall q: Parent :: q != Trash && q != p ==> ListAt(now, q) == Others(ListAt(was, q), n)
  }

  lemma {:induction false} RankedJoin(nodes: Places, a: seq<Id>, b: seq<Id>)
    requires Ranked(nodes, a) && Ranked(nodes, b) && a != [] && b != [] && PlaceBefore(nodes[a[|a| - 1]], nodes[b[0]])
    ensures Ranked(nodes, a + b)
  {
    hide PlaceBefore;
    var s := a + b;
    forall i, j | 0 <= i < j < |s| ensures PlaceBefore(nodes[s[i]], nodes[s[j]]) {
      if i < |a| <= j {
        AtMost(nodes, a, i);
        AtLeastFirst(nodes, b, j - |a|);
        ThreePlaces(nodes[s[i]], nodes[a[|a| - 1]], nodes[b[0]], nodes[s[j]]);
      }
    }
  }

  lemma {:induction false} AtMost(nodes: Places, a: seq<Id>, i: nat)
    requires Ranked(nodes, a) && i < |a|
    ensures nodes[a[i]] == nodes[a[|a| - 1]] || PlaceBefore(nodes[a[i]], nodes[a[|a| - 1]])
  {
  }

  lemma {:induction false} AtLeastFirst(nodes: Places, b: seq<Id>, i: nat)
    requires Ranked(nodes, b) && i < |b|
    ensures nodes[b[0]] == nodes[b[i]] || PlaceBefore(nodes[b[0]], nodes[b[i]])
  {
  }

  lemma {:induction false} ThreePlaces(a: Place, b: Place, c: Place, d: Place)
    requires (a == b || PlaceBefore(a, b)) && PlaceBefore(b, c) && (c == d || PlaceBefore(c, d))
    ensures PlaceBefore(a, d)
  {
    hide PlaceBefore;
    if a != b { BeforeTrans(a, b, c); }
    if c != d { BeforeTrans(a, c, d); }
  }

  lemma {:induction false} RankedPart(nodes: Places, kids: seq<Id>, i: nat, j: nat)
    requires Ranked(nodes, kids) && i <= j <= |kids|
    ensures Ranked(nodes, kids[i..j])
  {
    hide PlaceBefore;
  }

  /** The nodes just placed are in order: their indexes rise. */
  lemma {:induction false} PlacedRanked(nodes: Places, ids: seq<Id>, fis: seq<Bytes>, p: Parent, lamport: int, peer: nat)
    requires |ids| == |fis| && (forall a, b :: 0 <= a < b < |ids| ==> ids[a] != ids[b])
    requires forall a, b :: 0 <= a < b < |fis| ==> Less(fis[a], fis[b])
    ensures Ranked(PlacedAll(nodes, ids, fis, p, lamport, peer), ids)
  {
    hide Less, PlacedAll;
    var now := PlacedAll(nodes, ids, fis, p, lamport, peer);
    forall k | 0 <= k < |ids| ensures ids[k] in now && now[ids[k]] == Place(p, fis[k], lamport + k, peer) {
      PlacedAt(nodes, ids, fis, p, lamport, peer, k);
    }
    forall a, b | 0 <= a < b < |ids| ensures PlaceBefore(now[ids[a]], now[ids[b]]) { LessTotal(fis[a], fis[b]); }
  }

  /** What a splice was asked to place, and where there was room for it. */
  ghost predicate Plan(nodes: Places, p: Parent, rest: seq<Id>, i: nat, m: nat, ids: seq<Id>, fis: seq<Bytes>) {
    && |fis| == |ids| == m + 1 && i + m <= |rest| && ids == [ids[0]] + rest[i..i + m] && KidsBut(nodes, p, ids[0], rest)
    && Rises(FiAt(nodes, rest, i - 1), fis, FiAt(nodes, rest, i + m))
  }

  lemma {:induction false} PlanParts(nodes: Places, p: Parent, rest: seq<Id>, i: nat, m: nat, ids: seq<Id>, fis: seq<Bytes>)
    requires Plan(nodes, p, rest, i, m, ids, fis)
    ensures |fis| == |ids| == m + 1 && i + m <= |rest| && ids == [ids[0]] + rest[i..i + m] && KidsBut(nodes, p, ids[0], rest)
    ensures forall a, b :: 0 <= a < b < |fis| ==> Less(fis[a], fis[b])
    ensures forall a :: 0 <= a < |fis| ==> Ends(fis[a])
    ensures Between2(FiAt(nodes, rest, i - 1), fis[0], FiAt(nodes, rest, i + m)) && Between2(FiAt(nodes, rest, i - 1), fis[m], FiAt(nodes, rest, i + m))
  {
    hide Less, Ends, KidsBut;
  }

  /** The siblings before and after keep their places. */
  lemma {:induction false} SidesKept(nodes: Places, p: Parent, rest: seq<Id>, i: nat, m: nat, ids: seq<Id>, fis: seq<Bytes>, lamport: int, peer: nat)
    requires Plan(nodes, p, rest, i, m, ids, fis)
    ensures |ids| == |fis| && i + m <= |rest|
    ensures var now := PlacedAll(nodes, ids, fis, p, lamport, peer);
      forall k :: 0 <= k < |rest| && !(i <= k < i + m) ==> rest[k] in nodes && rest[k] in now && now[rest[k]] == nodes[rest[k]]
  {
    hide PlacedAll, Ranked, Rises;
    var now := PlacedAll(nodes, ids, fis, p, lamport, peer);
    KidsThere(nodes, p, ids[0], rest);
    forall k | 0 <= k < |rest| && !(i <= k < i + m) ensures rest[k] in nodes && rest[k] in now && now[rest[k]] == nodes[rest[k]] {
      NotPlaced(nodes, p, rest, i, m, ids, k);
      PlacedOther(nodes, ids, fis, p, lamport, peer, rest[k]);
    }
  }

  lemma {:induction false} NotPlaced(nodes: Places, p: Parent, rest: seq<Id>, i: nat, m: nat, ids: seq<Id>, k: nat)
    requires |ids| == m + 1 && i + m <= |rest| && ids == [ids[0]] + rest[i..i + m] && KidsBut(nodes, p, ids[0], rest)
    requires k < |rest| && !(i <= k < i + m)
    ensures rest[k] !in ids
  {
    hide Ranked;
    KidsThere(nodes, p, ids[0], rest);
    forall a | 0 <= a < |ids| ensures ids[a] != rest[k] {
      if a > 0 {
        assert ids[a] == rest[i + a - 1];
        if k < i { RankedApart(nodes, rest, k, i + a - 1); } else { RankedApart(nodes, rest, i + a - 1, k); }
      }
    }
  }

  /** Old siblings before, the nodes placed, old siblings after: in order. */
  lemma {:induction false} SpliceRanked(nodes: Places, p: Parent, rest: seq<Id>, i: nat, m: nat, ids: seq<Id>, fis: seq<Bytes>, lamport: int, peer: nat)
    requires Plan(nodes, p, rest, i, m, ids, fis)
    ensures |ids| == |fis| && i + m <= |rest|
    ensures Ranked(PlacedAll(nodes, ids, fis, p, lamport, peer), rest[..i] + ids + rest[i + m..])
  {
    hide PlacedAll, Ranked, Less, Ends, Plan, KidsBut;
    PlanParts(nodes, p, rest, i, m, ids, fis);
    var now := PlacedAll(nodes, ids, fis, p, lamport, peer);
    IdsApart(nodes, p, ids, rest, i, m);
    PlacedRanked(nodes, ids, fis, p, lamport, peer);
    SidesKept(nodes, p, rest, i, m, ids, fis, lamport, peer);
    SideRanked(nodes, now, p, ids[0], rest, 0, i);
    SideRanked(nodes, now, p, ids[0], rest, i + m, |rest|);
    PlacedAt(nodes, ids, fis, p, lamport, peer, 0);
    PlacedAt(nodes, ids, fis, p, lamport, peer, m);
    var a, c := rest[..i], rest[i + m..];
    assert rest[0..i] == a && rest[i + m..|rest|] == c;
    if i > 0 {
      FiBefore(now[a[i - 1]], now[ids[0]]);
      RankedJoin(now, a, ids);
    } else {
      assert a + ids == ids;
    }
    if i + m < |rest| {
      FiBefore(now[ids[m]], now[c[0]]);
      assert (a + ids)[|a + ids| - 1] == ids[m];
      RankedJoin(now, a + ids, c);
    } else {
      assert a + ids + c == a + ids;
    }
  }

  lemma {:induction false} FiBefore(a: Place, b: Place)
    requires Less(a.fi, b.fi)
    ensures PlaceBefore(a, b)
  {
    LessTotal(a.fi, b.fi);
  }

  lemma {:induction false} SideRanked(nodes: Places, now: Places, p: Parent, n: Id, rest: seq<Id>, i: nat, j: nat)
    requires KidsBut(nodes, p, n, rest) && i <= j <= |rest|
    requires forall k :: i <= k < j ==> rest[k] in nodes && rest[k] in now && now[rest[k]] == nodes[rest[k]]
    ensures Ranked(now, rest[i..j])
  {
    hide PlaceBefore;
    RankedPart(nodes, rest, i, j);
    forall x | x in rest[i..j] ensures x in now && (x in nodes ==> now[x] == nodes[x]) {
      var k :| 0 <= k < j - i && rest[i..j][k] == x;
      assert rest[i + k] == x;
    }
    RankedSame(nodes, now, rest[i..j]);
  }

  lemma {:induction false} SpliceList(rest: seq<Id>, i: nat, m: nat, ids: seq<Id>)
    requires i + m <= |rest| && |ids| > 0 && ids == [ids[0]] + rest[i..i + m]
    ensures rest[..i] + ids + rest[i + m..] == Inserted(rest, i, ids[0])
  {
    assert rest[i..] == rest[i..i + m] + rest[i + m..];
  }

  /** Under p after the splice: what was there, and the node spliced in. */
  lemma {:induction false} SplicedKids(nodes: Places, p: Parent, rest: seq<Id>, i: nat, m: nat, ids: seq<Id>, fis: seq<Bytes>, lamport: int, peer: nat)
    requires Plan(nodes, p, rest, i, m, ids, fis)
    ensures |ids| == |fis| && i <= |rest| && |ids| > 0 && Kids(PlacedAll(nodes, ids, fis, p, lamport, peer), p, Inserted(rest, i, ids[0]))
  {
    hide PlacedAll, Ranked, Rises, Inserted;
    SpliceRanked(nodes, p, rest, i, m, ids, fis, lamport, peer);
    SpliceList(rest, i, m, ids);
    var now := PlacedAll(nodes, ids, fis, p, lamport, peer);
    var r := Inserted(rest, i, ids[0]);
    forall x: Id ensures x in r <==> x in now && now[x].parent == p {
      InsertMembers(rest, i, ids[0], x);
      PlacedParent(nodes, p, rest, i, m, ids, fis, lamport, peer, x);
    }
  }

  /** Whose child each node is after a splice. */
  lemma {:induction false} PlacedParent(nodes: Places, p: Parent, rest: seq<Id>, i: nat, m: nat, ids: seq<Id>, fis: seq<Bytes>, lamport: int, peer: nat, x: Id)
    requires Plan(nodes, p, rest, i, m, ids, fis)
    ensures |ids| == |fis| && |ids| > 0
    ensures var now := PlacedAll(nodes, ids, fis, p, lamport, peer);
      && (x in now <==> x in nodes || x == ids[0])
      && (x in now ==> now[x].parent == if x == ids[0] then p else nodes[x].parent)
      && (x in now && x !in ids ==> now[x] == nodes[x])
      && (x in ids ==> x in now && now[x].fi in fis && ((x in nodes && nodes[x].parent == p) || x == ids[0]))
  {
    hide PlacedAll, Ranked, Rises;
    IdsApart(nodes, p, ids, rest, i, m);
    if x in ids {
      var k :| 0 <= k < |ids| && ids[k] == x;
      PlacedAt(nodes, ids, fis, p, lamport, peer, k);
    } else {
      PlacedOther(nodes, ids, fis, p, lamport, peer, x);
    }
  }

  lemma {:induction false} OthersKids(nodes: Places, q: Parent, kids: seq<Id>, n: Id)
    requires Kids(nodes, q, kids)
    ensures KidsBut(nodes, q, n, Others(kids, n))
  {
    hide Ranked;
    if n in kids {
      var i := FirstOf(kids, n);
      OthersAt(kids, n, i);
      RemoveRanked(nodes, kids, i);
    } else {
      OthersNone(kids, n);
    }
  }

  lemma {:induction false} FirstOf(kids: seq<Id>, n: Id) returns (i: nat)
    requires n in kids
    ensures i < |kids| && kids[i] == n && forall j :: 0 <= j < i ==> kids[j] != n
  {
    if kids[0] == n {
      i := 0;
    } else {
      var k := FirstOf(kids[1..], n);
      i := k + 1;
      forall j | 0 <= j < i ensures kids[j] != n { if j > 0 { assert kids[1..][j - 1] == kids[j]; } }
    }
  }

  /** The children of q are the same but for n. */
  lemma {:induction false} OtherList(nodes: Places, now: Places, q: Parent, kids: seq<Id>, n: Id)
    requires Kids(nodes, q, kids)
    requires forall x: Id :: x in now && now[x].parent == q <==> x in nodes && nodes[x].parent == q && x != n
    requires forall x: Id :: x in nodes && nodes[x].parent == q && x != n ==> now[x] == nodes[x]
    ensures Kids(now, q, Others(kids, n))
  {
    hide Ranked;
    OthersKids(nodes, q, kids, n);
    RankedSame(nodes, now, Others(kids, n));
  }

  lemma {:induction false} ListIs(nodes: Places, children: map<Parent, seq<Id>>, q: Parent, kids: seq<Id>)
    requires Indexed(nodes, children) && q != Trash && Kids(nodes, q, kids)
    ensures ListAt(children, q) == kids
  {
    hide Ranked;
    KidsAt(nodes, children, q);
    OneRanking(nodes, ListAt(children, q), kids);
  }

  /** After the nodes of a plan are placed, the lists are the old ones with the node spliced in. */
  lemma {:induction false} SplicedIs(nodes: Places, now: Places, was: map<Parent, seq<Id>>, lists: map<Parent, seq<Id>>,
                                     p: Parent, rest: seq<Id>, i: nat, m: nat, ids: seq<Id>, fis: seq<Bytes>, lamport: int, peer: nat)
    requires Plan(nodes, p, rest, i, m, ids, fis) && |ids| == |fis| && |ids| > 0 && p != Trash
    requires Indexed(nodes, was) && Indexed(now, lists) && rest == Others(ListAt(was, p), ids[0])
    requires now == PlacedAll(nodes, ids, fis, p, lamport, peer)
    ensures Spliced(was, lists, ids[0], p, i)
    ensures now.Keys == nodes.Keys + {ids[0]} && now[ids[0]].parent == p
    ensures AllEnd(nodes) ==> AllEnd(now)
  {
    hide PlacedAll, Indexed, Plan, Kids, Inserted, Ends;
    SplicedKids(nodes, p, rest, i, m, ids, fis, lamport, peer);
    ListIs(now, lists, p, Inserted(rest, i, ids[0]));
    forall x: Id ensures x in now <==> x in nodes || x == ids[0] { PlacedParent(nodes, p, rest, i, m, ids, fis, lamport, peer, x); }
    PlacedParent(nodes, p, rest, i, m, ids, fis, lamport, peer, ids[0]);
    forall q: Parent | q != Trash && q != p ensures ListAt(lists, q) == Others(ListAt(was, q), ids[0]) {
      SplicedOther(nodes, now, was, p, rest, i, m, ids, fis, lamport, peer, q);
      ListIs(now, lists, q, Others(ListAt(was, q), ids[0]));
    }
    if AllEnd(nodes) { SplicedEnd(nodes, now, p, rest, i, m, ids, fis, lamport, peer); }
  }

  lemma {:induction false} SplicedOther(nodes: Places, now: Places, was: map<Parent, seq<Id>>,
                                        p: Parent, rest: seq<Id>, i: nat, m: nat, ids: seq<Id>, fis: seq<Bytes>, lamport: int, peer: nat, q: Parent)
    requires Plan(nodes, p, rest, i, m, ids, fis) && |ids| == |fis| && |ids| > 0 && Indexed(nodes, was) && q != Trash && q != p
    requires now == PlacedAll(nodes, ids, fis, p, lamport, peer)
    ensures Kids(now, q, Others(ListAt(was, q), ids[0]))
  {
    hide PlacedAll, Plan, Ranked;
    KidsAt(nodes, was, q);
    forall x: Id ensures x in now && now[x].parent == q <==> x in nodes && nodes[x].parent == q && x != ids[0]
      ensures x in nodes && nodes[x].parent == q && x != ids[0] ==> now[x] == nodes[x]
    {
      PlacedParent(nodes, p, rest, i, m, ids, fis, lamport, peer, x);
    }
    OtherList(nodes, now, q, ListAt(was, q), ids[0]);
  }

  lemma {:induction false} SplicedEnd(nodes: Places, now: Places, p: Parent, rest: seq<Id>, i: nat, m: nat, ids: seq<Id>, fis: seq<Bytes>,
                                      lamport: int, peer: nat)
    requires Plan(nodes, p, rest, i, m, ids, fis) && |ids| == |fis| && |ids| > 0 && AllEnd(nodes)
    requires now == PlacedAll(nodes, ids, fis, p, lamport, peer)
    ensures AllEnd(now)
  {
    hide PlacedAll, Plan, Ends;
    PlanParts(nodes, p, rest, i, m, ids, fis);
    forall x | x in now && now[x].parent != Trash ensures Ends(now[x].fi) {
      PlacedParent(nodes, p, rest, i, m, ids, fis, lamport, peer, x);
    }
  }

  // ----- around the edits -----

  /** A new node's id is unused: no list holds it and it is above nothing. */
  lemma {:induction false} NewNode(nodes: Places, children: map<Parent, seq<Id>>, peer: nat, counter: int, p: Parent)
    requires Unused(nodes, peer, counter) && Indexed(nodes, children) && (p.Under? ==> p.id in nodes)
    ensures var n := Id(peer, counter);
      && n !in nodes && (p.Under? ==> !Above(nodes, n, p.id))
      && forall q: Parent :: q != Trash ==> Others(ListAt(children, q), n) == ListAt(children, q)
  {
    hide Above, Ranked, Others;
    var n := Id(peer, counter);
    forall x | x in nodes ensures x != n && nodes[x].parent != Under(n) { assert Known(x, peer, counter) && KnownParent(nodes[x].parent, peer, counter); }
    assert ChildSet(nodes, Under(n)) == {};
    if p.Under? { Childless(nodes, n, p.id); }
    forall q: Parent | q != Trash ensures Others(ListAt(children, q), n) == ListAt(children, q) {
      KidsAt(nodes, children, q);
      OthersNone(ListAt(children, q), n);
    }
  }

  lemma {:induction false} OthersSize(nodes: Places, children: map<Parent, seq<Id>>, p: Parent, n: Id)
    requires Indexed(nodes, children) && p != Trash
    ensures |Others(ListAt(children, p), n)| == |ListAt(children, p)| - if n in nodes && nodes[n].parent == p then 1 else 0
  {
    hide Ranked;
    KidsAt(nodes, children, p);
    var kids := ListAt(children, p);
    if n in kids {
      var i := FirstOf(kids, n);
      OthersAt(kids, n, i);
    } else {
      OthersNone(kids, n);
    }
  }

  /** Where the node already is, splicing it in changes nothing. */
  lemma {:induction false} InPlace(nodes: Places, children: map<Parent, seq<Id>>, p: Parent, n: Id, i: nat)
    requires Indexed(nodes, children) && p != Trash && n in nodes && nodes[n].parent == p && i < |ListAt(children, p)| && ListAt(children, p)[i] == n
    ensures Spliced(children, children, n, p, i)
  {
    hide Ranked, Others;
    var kids := ListAt(children, p);
    KidsAt(nodes, children, p);
    forall j | 0 <= j < i ensures kids[j] != n { RankedApart(nodes, kids, j, i); }
    OthersAt(kids, n, i);
    assert Inserted(Removed(kids, i), i, n) == kids;
    forall q: Parent | q != Trash && q != p ensures ListAt(children, q) == Others(ListAt(children, q), n) {
      KidsAt(nodes, children, q);
      OthersNone(ListAt(children, q), n);
    }
  }

  lemma {:induction false} AllKnown(nodes: Places, peer: nat, counter: int, x: Id)
    requires Unused(nodes, peer, counter) && x in nodes
    ensures Known(x, peer, counter)
  {
  }

  lemma {:induction false} DeletedList(nodes: Places, was: map<Parent, seq<Id>>, lists: map<Parent, seq<Id>>, n: Id, place: Place, q: Parent)
    requires Indexed(nodes, was) && Indexed(nodes[n := place], lists) && place.parent == Trash && q != Trash
    ensures ListAt(lists, q) == Others(ListAt(was, q), n)
  {
    hide Ranked, Others;
    KidsAt(nodes, was, q);
    OtherList(nodes, nodes[n := place], q, ListAt(was, q), n);
    ListIs(nodes[n := place], lists, q, Others(ListAt(was, q), n));
  }

  /** What hangs under a deleted node goes with it, and nothing else does. */
  lemma {:induction false} DeletedWith(nodes: Places, n: Id, place: Place, x: Id)
    requires place.parent == Trash
    ensures var now := nodes[n := place];
      && (Above(now, n, x) ==> !Live(now, x))
      && (!Above(now, n, x) ==> (Live(now, x) <==> Live(nodes, x)))
  {
    hide Up;
    var now := nodes[n := place];
    if k: nat :| Up(now, x, k) == Some(n) {
      LiveHere(now, x, k);
    } else {
      forall k: nat ensures EndsAt(now, x, k, Top) <==> EndsAt(nodes, x, k, Top) { SameWalk(nodes, now, n, x, k); }
    }
  }
}
