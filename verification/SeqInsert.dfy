/** Putting a run where its key belongs keeps the sequence ordered. */
module SeqInsert {
  import opened Common
  import opened KeyOrder
  import opened SeqTypes
  import opened SeqOrder
  import opened SeqScan

  function Splice<T>(s: seq<T>, at: nat, run: seq<T>): (r: seq<T>)
    requires at <= |s|
    ensures |r| == |s| + |run|
    ensures forall i :: 0 <= i < at ==> r[i] == s[i]
    ensures forall i :: 0 <= i < |run| ==> r[at + i] == run[i]
    ensures forall i :: at <= i < |s| ==> r[i + |run|] == s[i]
  {
    s[..at] + run + s[at..]
  }

  ghost function Shift(i: int, at: int): int { if i < at then i else i + 1 }

  // ----- one node -----

  lemma {:induction false} InsertIds(nodes: seq<Node>, at: nat, x: Node)
    requires at <= |nodes|
    ensures Ids(Splice(nodes, at, [x])) == Ids(nodes) + {x.id}
  {
    var m := Splice(nodes, at, [x]);
    forall d | d in Ids(nodes) + {x.id} ensures d in Ids(m) {
      if d == x.id {
        assert m[at].id == d;
      } else {
        var i :| 0 <= i < |nodes| && nodes[i].id == d;
        assert m[Shift(i, at)].id == d;
      }
    }
  }

  lemma {:induction false} InsertAt(nodes: seq<Node>, at: nat, x: Node, i: nat)
    requires at <= |nodes| && i <= |nodes|
    ensures var m := Splice(nodes, at, [x]);
      if i == at then m[i] == x else if i < at then m[i] == nodes[i] else m[i] == nodes[i - 1]
  {
  }

  lemma {:induction false} InsertDistinct(nodes: seq<Node>, at: nat, x: Node)
    requires Distinct(nodes) && at <= |nodes| && x.id !in Ids(nodes)
    ensures Distinct(Splice(nodes, at, [x]))
  {
    var m := Splice(nodes, at, [x]);
    forall i, j | 0 <= i < j < |m| ensures m[i].id != m[j].id {
      InsertAt(nodes, at, x, i);
      InsertAt(nodes, at, x, j);
    }
  }

  lemma {:induction false} InsertIndex(nodes: seq<Node>, at: nat, x: Node, id: Id)
    requires Distinct(nodes) && at <= |nodes| && x.id !in Ids(nodes) && id in Ids(nodes)
    ensures var m := Splice(nodes, at, [x]);
      && id in Ids(m) && IndexOf(m, id) == Shift(IndexOf(nodes, id), at)
      && m[IndexOf(m, id)] == nodes[IndexOf(nodes, id)]
  {
    hide Distinct, Ids;
    InsertDistinct(nodes, at, x);
    var i := IndexOf(nodes, id);
    InsertAt(nodes, at, x, Shift(i, at));
    IndexOfIs(Splice(nodes, at, [x]), Shift(i, at));
  }

  lemma {:induction false} InsertRightParent(nodes: seq<Node>, at: nat, x: Node, left: Option<Id>, right: Option<Id>)
    requires Distinct(nodes) && at <= |nodes| && x.id !in Ids(nodes) && Present(nodes, right)
    ensures var m := Splice(nodes, at, [x]);
      var rp := RightParent(nodes, left, right);
      RightParent(m, left, right) == if rp < |nodes| then Shift(rp, at) else |m|
  {
    if right.Some? { InsertIndex(nodes, at, x, right.value); }
  }

  lemma {:induction false} InsertKeyFor(nodes: seq<Node>, key: Keys, at: nat, x: Node, kx: Key, left: Option<Id>, right: Option<Id>, peer: nat)
    requires Distinct(nodes) && key.Keys == Ids(nodes) && at <= |nodes| && x.id !in Ids(nodes)
    requires Present(nodes, left) && Present(nodes, right)
    ensures KeyFor(Splice(nodes, at, [x]), key[x.id := kx], left, right, peer) == KeyFor(nodes, key, left, right, peer)
  {
    hide KeysMatch;
    var m := Splice(nodes, at, [x]);
    InsertRightParent(nodes, at, x, left, right);
    var rp := RightParent(nodes, left, right);
    if rp < |nodes| {
      assert m[Shift(rp, at)] == nodes[rp];
    }
  }

  lemma {:induction false} InsertBetween(nodes: seq<Node>, at: nat, x: Node)
    requires Distinct(nodes) && BetweenOrigins(nodes) && at <= |nodes| && x.id !in Ids(nodes)
    requires Present(nodes, x.left) && Present(nodes, x.right)
    requires LeftIndex(nodes, x.left) < at <= RightIndex(nodes, x.right)
    ensures BetweenOrigins(Splice(nodes, at, [x]))
  {
    var m := Splice(nodes, at, [x]);
    forall i | 0 <= i < |m|
      ensures Present(m, m[i].left) && Present(m, m[i].right)
      ensures LeftIndex(m, m[i].left) < i < RightIndex(m, m[i].right)
    {
      InsertAt(nodes, at, x, i);
      InsertOrigins(nodes, at, x, m[i].left, m[i].right);
    }
  }

  lemma {:induction false} InsertOrigins(nodes: seq<Node>, at: nat, x: Node, left: Option<Id>, right: Option<Id>)
    requires Distinct(nodes) && at <= |nodes| && x.id !in Ids(nodes)
    requires Present(nodes, left) && Present(nodes, right)
    ensures var m := Splice(nodes, at, [x]);
      && Present(m, left) && Present(m, right)
      && LeftIndex(m, left) == Shift(LeftIndex(nodes, left), at)
      && RightIndex(m, right) == Shift(RightIndex(nodes, right), at)
  {
    if left.Some? { InsertIndex(nodes, at, x, left.value); }
    if right.Some? { InsertIndex(nodes, at, x, right.value); }
  }

  lemma {:induction false} InsertKeysMatch(nodes: seq<Node>, key: Keys, at: nat, x: Node)
    requires Ordered(nodes, key) && at <= |nodes| && x.id !in Ids(nodes)
    requires Present(nodes, x.left) && Present(nodes, x.right)
    ensures KeysMatch(Splice(nodes, at, [x]), key[x.id := KeyFor(nodes, key, x.left, x.right, x.id.peer)])
  {
    hide KeyFor, BetweenOrigins, Sorted;
    var m := Splice(nodes, at, [x]);
    var kx := KeyFor(nodes, key, x.left, x.right, x.id.peer);
    InsertIds(nodes, at, x);
    forall i | 0 <= i < |m|
      ensures K(m, key[x.id := kx], i) == KeyFor(m, key[x.id := kx], m[i].left, m[i].right, m[i].id.peer)
    {
      InsertAt(nodes, at, x, i);
      if i != at { OriginsPresent(nodes, key, if i < at then i else i - 1); }
      InsertKeyFor(nodes, key, at, x, kx, m[i].left, m[i].right, m[i].id.peer);
    }
  }

  lemma {:induction false} InsertSorted(nodes: seq<Node>, key: Keys, at: nat, x: Node, kx: Key)
    requires Distinct(nodes) && key.Keys == Ids(nodes) && Sorted(nodes, key) && at <= |nodes| && x.id !in Ids(nodes)
    requires AllBefore(nodes, key, kx, at) && AllAfter(nodes, key, kx, at)
    ensures Sorted(Splice(nodes, at, [x]), key[x.id := kx])
  {
    var m := Splice(nodes, at, [x]);
    var keys := key[x.id := kx];
    forall i, j | 0 <= i < j < |m| ensures Less(K(m, keys, i), K(m, keys, j)) {
      InsertAt(nodes, at, x, i);
      InsertAt(nodes, at, x, j);
      InsertK(nodes, key, at, x, kx, i);
      InsertK(nodes, key, at, x, kx, j);
    }
  }

  lemma {:induction false} InsertK(nodes: seq<Node>, key: Keys, at: nat, x: Node, kx: Key, i: nat)
    requires key.Keys == Ids(nodes) && at <= |nodes| && x.id !in Ids(nodes) && i <= |nodes|
    ensures K(Splice(nodes, at, [x]), key[x.id := kx], i) ==
      if i == at then kx else if i < at then K(nodes, key, i) else K(nodes, key, i - 1)
  {
    InsertAt(nodes, at, x, i);
  }

  lemma {:induction false} InsertOrdered(nodes: seq<Node>, key: Keys, at: nat, x: Node)
    requires Ordered(nodes, key) && at <= |nodes| && x.id !in Ids(nodes)
    requires Present(nodes, x.left) && Present(nodes, x.right)
    requires LeftIndex(nodes, x.left) < at <= RightIndex(nodes, x.right)
    requires var kx := KeyFor(nodes, key, x.left, x.right, x.id.peer);
      AllBefore(nodes, key, kx, at) && AllAfter(nodes, key, kx, at)
    ensures Ordered(Splice(nodes, at, [x]), key[x.id := KeyFor(nodes, key, x.left, x.right, x.id.peer)])
  {
    hide KeyFor, BetweenOrigins, Sorted, Distinct, AllBefore, AllAfter;
    InsertDistinct(nodes, at, x);
    InsertBetween(nodes, at, x);
    InsertKeysMatch(nodes, key, at, x);
    InsertSorted(nodes, key, at, x, KeyFor(nodes, key, x.left, x.right, x.id.peer));
  }

  // ----- a whole run -----

  /** Each element of a run follows the one before it; all share the right origin. */
  ghost predicate IsRun(run: seq<Node>) {
    forall k :: 0 < k < |run| ==>
      run[k].left == Some(run[k - 1].id) && run[k].right == run[0].right && run[k].id.peer == run[0].id.peer
  }

  ghost predicate FreshRun(nodes: seq<Node>, run: seq<Node>) {
    Distinct(run) && forall k :: 0 <= k < |run| ==> run[k].id !in Ids(nodes)
  }

  /** The keys of a sequence once a run whose first key is kx has gone in. */
  ghost function WithRun(key: Keys, kx: Key, run: seq<Node>): Keys
    decreases |run|
  {
    if run == [] then key
    else WithRun(key[run[0].id := kx], kx + [At(run[0].id.peer), End], run[1..])
  }

  /** Nothing has a new element for its left origin. */
  lemma {:induction false} NoChild(nodes: seq<Node>, at: nat, x: Node, c: nat)
    requires BetweenOrigins(nodes) && at <= |nodes| && x.id !in Ids(nodes) && c <= |nodes|
    requires Present(nodes, x.left)
    ensures Splice(nodes, at, [x])[c].left != Some(x.id)
  {
    InsertAt(nodes, at, x, c);
  }

  lemma {:induction false} NextKeyFor(nodes: seq<Node>, key: Keys, at: nat, x: Node, kx: Key, peer: nat)
    requires Ordered(nodes, key) && at <= |nodes| && x.id !in Ids(nodes)
    requires Present(nodes, x.left) && Present(nodes, x.right)
    ensures KeyFor(Splice(nodes, at, [x]), key[x.id := kx], Some(x.id), x.right, peer) == kx + [At(peer), End]
  {
    hide Ordered, Distinct, BetweenOrigins, Sorted, KeysMatch;
    OrderedParts(nodes, key);
    var m := Splice(nodes, at, [x]);
    if x.right.Some? {
      InsertIndex(nodes, at, x, x.right.value);
      NoChild(nodes, at, x, IndexOf(m, x.right.value));
    }
  }

  lemma {:induction false} OrderedParts(nodes: seq<Node>, key: Keys)
    requires Ordered(nodes, key)
    ensures Distinct(nodes) && BetweenOrigins(nodes) && KeysMatch(nodes, key) && Sorted(nodes, key)
    ensures key.Keys == Ids(nodes)
  {
  }

  lemma {:induction false} NextBefore(nodes: seq<Node>, key: Keys, at: nat, kx: Key, k1: Key)
    requires at < |nodes| && AllBefore(nodes, key, kx, at) && K(nodes, key, at) == kx && Less(kx, k1)
    ensures AllBefore(nodes, key, k1, at + 1)
  {
    forall i | 0 <= i < at ensures Less(K(nodes, key, i), k1) {
      LessTrans(K(nodes, key, i), kx, k1);
    }
  }

  /** What follows a new element, having none of its descendants among it, follows whatever is
      put right behind it. */
  lemma {:induction false} NextAfter(m: seq<Node>, key: Keys, at: nat, k1: Key)
    requires Ordered(m, key) && at < |m| && IsPrefix(K(m, key, at), k1)
    requires forall c :: 0 <= c < |m| ==> m[c].left != Some(m[at].id)
    ensures AllAfter(m, key, k1, at + 1)
  {
    hide Ordered;
    forall j | at < j < |m| ensures Less(k1, K(m, key, j)) {
      NextAfterOne(m, key, at, j);
      LessPrefixed(K(m, key, at), k1, K(m, key, j));
    }
  }

  lemma {:induction false} NextAfterOne(m: seq<Node>, key: Keys, at: nat, j: nat)
    requires Ordered(m, key) && at < j < |m|
    requires forall c :: 0 <= c < |m| ==> m[c].left != Some(m[at].id)
    ensures Less(K(m, key, at), K(m, key, j)) && !IsPrefix(K(m, key, at), K(m, key, j))
  {
    hide Ordered, Base, K;
    var left := Some(m[at].id);
    SortedIndex(m, key, at, j);
    BaseIs(m, key, at);
    IsPresent(m, at);
    if IsPrefix(K(m, key, at), K(m, key, j)) {
      LessIrreflexive(K(m, key, at));
      var c := ChildToward(m, key, left, j);
    }
  }

  lemma {:induction false} IsPresent(m: seq<Node>, i: nat)
    requires i < |m|
    ensures Present(m, Some(m[i].id))
  {
  }

  lemma {:induction false} SliceConcat<T>(a: seq<T>, b: seq<T>)
    ensures (a + b)[..|a|] == a && (a + b)[|a|..] == b
  {
  }

  lemma {:induction false} SpliceRun<T>(s: seq<T>, at: nat, run: seq<T>)
    requires at <= |s| && run != []
    ensures Splice(Splice(s, at, [run[0]]), at + 1, run[1..]) == Splice(s, at, run)
  {
    var a, x, b := s[..at], [run[0]], s[at..];
    SliceConcat(a + x, b);
    assert Splice(s, at, x) == (a + x) + b;
    assert x + run[1..] == run;
    assert (a + x) + run[1..] + b == a + run + b;
  }

  lemma {:induction false} RunTail(nodes: seq<Node>, at: nat, run: seq<Node>)
    requires at <= |nodes| && |run| > 1 && IsRun(run) && FreshRun(nodes, run)
    ensures IsRun(run[1..]) && FreshRun(Splice(nodes, at, [run[0]]), run[1..])
    ensures run[1].left == Some(run[0].id) && run[1].right == run[0].right && run[1].id.peer == run[0].id.peer
  {
    InsertIds(nodes, at, run[0]);
  }

  /** A run put where the key of its first element belongs leaves the sequence ordered. */
  lemma {:induction false} RunOrdered(nodes: seq<Node>, key: Keys, at: nat, run: seq<Node>, kx: Key)
    requires Ordered(nodes, key) && at <= |nodes| && run != [] && IsRun(run) && FreshRun(nodes, run)
    requires Present(nodes, run[0].left) && Present(nodes, run[0].right)
    requires LeftIndex(nodes, run[0].left) < at <= RightIndex(nodes, run[0].right)
    requires kx == KeyFor(nodes, key, run[0].left, run[0].right, run[0].id.peer)
    requires AllBefore(nodes, key, kx, at) && AllAfter(nodes, key, kx, at)
    ensures Ordered(Splice(nodes, at, run), WithRun(key, kx, run))
    decreases |run|
  {
    hide Ordered, KeyFor, AllBefore, AllAfter, Less, IsPrefix, IsRun, Distinct;
    var x := run[0];
    InsertOrdered(nodes, key, at, x);
    if |run| == 1 {
      assert run == [x] && run[1..] == [];
    } else {
      var m := Splice(nodes, at, [x]);
      var k1 := kx + [At(x.id.peer), End];
      var key1 := key[x.id := kx];
      RunTail(nodes, at, run);
      RunStep(nodes, key, at, x, kx);
      RunOrdered(m, key1, at + 1, run[1..], k1);
      SpliceRun(nodes, at, run);
    }
  }

  lemma {:induction false} RunStep(nodes: seq<Node>, key: Keys, at: nat, x: Node, kx: Key)
    requires Ordered(nodes, key) && at <= |nodes| && x.id !in Ids(nodes)
    requires Present(nodes, x.left) && Present(nodes, x.right)
    requires LeftIndex(nodes, x.left) < at <= RightIndex(nodes, x.right)
    requires AllBefore(nodes, key, kx, at)
    requires Ordered(Splice(nodes, at, [x]), key[x.id := kx])
    ensures var m := Splice(nodes, at, [x]);
      var k1 := kx + [At(x.id.peer), End];
      var key1 := key[x.id := kx];
      && Present(m, Some(x.id)) && Present(m, x.right)
      && LeftIndex(m, Some(x.id)) < at + 1 <= RightIndex(m, x.right)
      && k1 == KeyFor(m, key1, Some(x.id), x.right, x.id.peer)
      && AllBefore(m, key1, k1, at + 1) && AllAfter(m, key1, k1, at + 1)
  {
    hide Ordered, KeyFor, AllBefore, AllAfter, Less, IsPrefix, Distinct, BetweenOrigins, KeysMatch, Sorted;
    OrderedParts(nodes, key);
    OrderedParts(Splice(nodes, at, [x]), key[x.id := kx]);
    var m := Splice(nodes, at, [x]);
    var k1 := kx + [At(x.id.peer), End];
    var key1 := key[x.id := kx];
    InsertOrigins(nodes, at, x, x.left, x.right);
    IsPresent(m, at);
    IndexOfIs(m, at);
    NextKeyFor(nodes, key, at, x, kx, x.id.peer);
    InsertK(nodes, key, at, x, kx, at);
    StillBefore(nodes, key, at, x, kx);
    ExtendLess(kx, x.id.peer);
    NextBefore(m, key1, at, kx, k1);
    forall c | 0 <= c < |m| ensures m[c].left != Some(m[at].id) { NoChild(nodes, at, x, c); }
    NextAfter(m, key1, at, k1);
  }

  lemma {:induction false} ExtendLess(kx: Key, peer: nat)
    ensures IsPrefix(kx, kx + [At(peer), End]) && Less(kx, kx + [At(peer), End])
  {
    PrefixLess(kx, kx + [At(peer), End]);
  }

  lemma {:induction false} StillBefore(nodes: seq<Node>, key: Keys, at: nat, x: Node, kx: Key)
    requires key.Keys == Ids(nodes) && at <= |nodes| && x.id !in Ids(nodes) && AllBefore(nodes, key, kx, at)
    ensures AllBefore(Splice(nodes, at, [x]), key[x.id := kx], kx, at)
  {
    var m, keys := Splice(nodes, at, [x]), key[x.id := kx];
    forall i | 0 <= i < at ensures Less(K(m, keys, i), kx) {
      InsertK(nodes, key, at, x, kx, i);
    }
  }
}
