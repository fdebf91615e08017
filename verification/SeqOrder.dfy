/** The order of a merged sequence.

    `Scan` is the placement rule of concurrent inserts. Every element is given a key built
    from its origins alone, and the scan is shown to put a run exactly where its key belongs:
    so the order of a sequence depends on which elements it holds, not on the order in which
    they were merged. */
module SeqOrder {
  import opened Common
  import opened KeyOrder
  import opened SeqTypes

  ghost function LeftIndex(nodes: seq<Node>, l: Option<Id>): int {
    if l.Some? then IndexOf(nodes, l.value) else -1
  }

  ghost function RightIndex(nodes: seq<Node>, r: Option<Id>): int {
    if r.Some? then IndexOf(nodes, r.value) else |nodes|
  }

  ghost predicate Present(nodes: seq<Node>, o: Option<Id>) {
    o.Some? ==> o.value in Ids(nodes)
  }

  /** r's index if r and the new run share the left origin `left`; else |nodes|, which compares after any index. */
  ghost function RightParent(nodes: seq<Node>, left: Option<Id>, r: Option<Id>): (i: int)
    ensures Present(nodes, r) ==> 0 <= i <= |nodes|
  {
    if r.Some? && r.value in Ids(nodes) && nodes[IndexOf(nodes, r.value)].left == left
    then IndexOf(nodes, r.value) else |nodes|
  }

  /** What the scan makes of one element: it stops before it, settles after it, holds its
      place until a later element settles it, or treats it as the element it descends from. */
  datatype Verdict = Stop | Settle | Hold | Follow

  ghost function Judge(nodes: seq<Node>, start: nat, left: Option<Id>, right: Option<Id>, peer: nat, i: nat): Verdict
    requires start <= i < |nodes|
  {
    var o := nodes[i];
    if o.left == left then
      if o.right == right then
        if o.id.peer > peer then Stop else Settle
      else
        var theirs, ours := RightParent(nodes, left, o.right), RightParent(nodes, left, right);
        if theirs < ours then Hold
        else if theirs == ours && o.id.peer > peer then Stop
        else Settle
    else if o.left.Some? && o.left.value in Ids(nodes[start..i]) then Follow
    else Stop
  }

  /** Where a run with these origins goes among nodes[i..end], all concurrent with it, having
      looked at nodes[start..i]: `at` is the place found so far. */
  ghost function Scan(nodes: seq<Node>, start: nat, end: nat, left: Option<Id>, right: Option<Id>, peer: nat,
                      i: nat, at: nat, scanning: bool): nat
    requires start <= i <= end <= |nodes|
    decreases end - i
  {
    if i == end then at
    else
      match Judge(nodes, start, left, right, peer, i)
      case Stop => at
      case Settle => Scan(nodes, start, end, left, right, peer, i + 1, i + 1, false)
      case Hold => Scan(nodes, start, end, left, right, peer, i + 1, at, true)
      case Follow => Scan(nodes, start, end, left, right, peer, i + 1, if scanning then at else i + 1, scanning)
  }

  lemma {:induction false} ScanRange(nodes: seq<Node>, start: nat, end: nat, left: Option<Id>, right: Option<Id>, peer: nat,
                  i: nat, at: nat, scanning: bool)
    requires start <= at <= i <= end <= |nodes|
    ensures start <= Scan(nodes, start, end, left, right, peer, i, at, scanning) <= end
    decreases end - i
  {
    if i < end {
      ScanRange(nodes, start, end, left, right, peer, i + 1, at, true);
      ScanRange(nodes, start, end, left, right, peer, i + 1, at, scanning);
      ScanRange(nodes, start, end, left, right, peer, i + 1, i + 1, scanning);
      ScanRange(nodes, start, end, left, right, peer, i + 1, i + 1, false);
    }
  }

  type Keys = map<Id, Key>

  ghost function Base(key: Keys, l: Option<Id>): Key {
    if l.Some? && l.value in key then key[l.value] else []
  }

  ghost function K(nodes: seq<Node>, key: Keys, i: int): Key {
    if 0 <= i < |nodes| && nodes[i].id in key then key[nodes[i].id] else []
  }

  /** What a key shares with those of its siblings under the same right parent. */
  ghost function ParentStem(nodes: seq<Node>, key: Keys, left: Option<Id>, right: Option<Id>): Key {
    var rp := RightParent(nodes, left, right);
    if rp < |nodes| then Stem(K(nodes, key, rp)) else Base(key, left)
  }

  ghost function KeyFor(nodes: seq<Node>, key: Keys, left: Option<Id>, right: Option<Id>, peer: nat): Key {
    ParentStem(nodes, key, left, right) + [At(peer), End]
  }

  /** Each node lies strictly between its origins. */
  ghost predicate BetweenOrigins(nodes: seq<Node>) {
    forall i :: 0 <= i < |nodes| ==>
      Present(nodes, nodes[i].left) && Present(nodes, nodes[i].right) &&
      LeftIndex(nodes, nodes[i].left) < i < RightIndex(nodes, nodes[i].right)
  }

  ghost predicate KeysMatch(nodes: seq<Node>, key: Keys) {
    && key.Keys == Ids(nodes)
    && forall i :: 0 <= i < |nodes| ==>
         K(nodes, key, i) == KeyFor(nodes, key, nodes[i].left, nodes[i].right, nodes[i].id.peer)
  }

  ghost predicate Sorted(nodes: seq<Node>, key: Keys) {
    forall i, j :: 0 <= i < j < |nodes| ==> Less(K(nodes, key, i), K(nodes, key, j))
  }

  /** The state of a sequence as merging builds it. */
  ghost predicate Ordered(nodes: seq<Node>, key: Keys) {
    Distinct(nodes) && BetweenOrigins(nodes) && KeysMatch(nodes, key) && Sorted(nodes, key)
  }

  // ----- the shape of keys -----

  ghost predicate Shaped(k: Key, b: Key, peer: nat) {
    && IsPrefix(b, k) && |b| + 2 <= |k|
    && k[|k| - 1] == End && k[|k| - 2] == At(peer)
    && forall j :: |b| <= j < |k| - 1 ==> k[j].At?
  }

  lemma {:induction false} ShapedUnder(kr: Key, b: Key, p: nat, peer: nat)
    requires Shaped(kr, b, p)
    ensures Shaped(Stem(kr) + [At(peer), End], b, peer)
  {
    assert (Stem(kr) + [At(peer), End])[..|b|] == kr[..|b|];
  }

  lemma {:induction false} ShapedChild(b: Key, peer: nat)
    ensures Shaped(b + [At(peer), End], b, peer)
  {
  }

  /** What the invariant says of one node. */
  lemma {:induction false} NodeFacts(nodes: seq<Node>, key: Keys, i: nat)
    requires BetweenOrigins(nodes) && KeysMatch(nodes, key) && i < |nodes|
    ensures var rp := RightParent(nodes, nodes[i].left, nodes[i].right);
      && i < rp <= |nodes|
      && (rp < |nodes| ==> nodes[rp].left == nodes[i].left && nodes[i].right == Some(nodes[rp].id))
      && K(nodes, key, i) == (if rp < |nodes| then Stem(K(nodes, key, rp)) else Base(key, nodes[i].left)) + [At(nodes[i].id.peer), End]
  {
  }

  lemma {:induction false} KeyShape(nodes: seq<Node>, key: Keys, i: nat)
    requires BetweenOrigins(nodes) && KeysMatch(nodes, key) && i < |nodes|
    ensures Shaped(K(nodes, key, i), Base(key, nodes[i].left), nodes[i].id.peer)
    decreases |nodes| - i
  {
    var rp := RightParent(nodes, nodes[i].left, nodes[i].right);
    NodeFacts(nodes, key, i);
    if rp < |nodes| {
      KeyShape(nodes, key, rp);
      ShapedUnder(K(nodes, key, rp), Base(key, nodes[i].left), nodes[rp].id.peer, nodes[i].id.peer);
    } else {
      ShapedChild(Base(key, nodes[i].left), nodes[i].id.peer);
    }
  }

  lemma {:induction false} KeyInjective(nodes: seq<Node>, key: Keys, i: nat, j: nat)
    requires Ordered(nodes, key) && i < |nodes| && j < |nodes| && K(nodes, key, i) == K(nodes, key, j)
    ensures i == j
  {
    LessIrreflexive(K(nodes, key, i));
  }

  lemma {:induction false} SortedIndex(nodes: seq<Node>, key: Keys, i: nat, j: nat)
    requires Ordered(nodes, key) && i < |nodes| && j < |nodes|
    ensures i < j <==> Less(K(nodes, key, i), K(nodes, key, j))
  {
    if i == j { LessIrreflexive(K(nodes, key, i)); }
    else if j < i { LessAsym(K(nodes, key, j), K(nodes, key, i)); }
  }

  lemma {:induction false} BaseInjective(nodes: seq<Node>, key: Keys, l: Option<Id>, m: Option<Id>)
    requires Ordered(nodes, key) && Present(nodes, l) && Present(nodes, m) && Base(key, l) == Base(key, m)
    ensures l == m
  {
    if l.Some? { KeyShape(nodes, key, IndexOf(nodes, l.value)); }
    if m.Some? { KeyShape(nodes, key, IndexOf(nodes, m.value)); }
    if l.Some? && m.Some? { KeyInjective(nodes, key, IndexOf(nodes, l.value), IndexOf(nodes, m.value)); }
  }

  /** A nonempty key ends with `End`. */
  lemma {:induction false} BaseShape(nodes: seq<Node>, key: Keys, l: Option<Id>)
    requires BetweenOrigins(nodes) && KeysMatch(nodes, key) && Present(nodes, l)
    ensures var b := Base(key, l); (l.None? <==> b == []) && (b != [] ==> b[|b| - 1] == End)
  {
    if l.Some? { KeyShape(nodes, key, IndexOf(nodes, l.value)); }
  }

  /** Of a key's proper prefixes that end with `End` the base is the longest. */
  lemma {:induction false} LongestBase(k: Key, b: Key, peer: nat, q: Key)
    requires Shaped(k, b, peer) && IsPrefix(q, k) && q != k && (q != [] ==> q[|q| - 1] == End)
    ensures IsPrefix(q, b)
  {
    if |q| > |b| {
      assert false;
    }
    PrefixesCompare(q, b, k);
  }

  lemma {:induction false} LeftStep(nodes: seq<Node>, key: Keys, l: Option<Id>, d: nat) returns (e: nat)
    requires Ordered(nodes, key) && Present(nodes, l) && d < |nodes| && nodes[d].left != l
    requires IsPrefix(Base(key, l), K(nodes, key, d)) && K(nodes, key, d) != Base(key, l)
    ensures e < d && nodes[d].left == Some(nodes[e].id)
    ensures IsPrefix(Base(key, l), K(nodes, key, e)) && K(nodes, key, e) != Base(key, l)
    ensures IsPrefix(K(nodes, key, e), K(nodes, key, d))
  {
    KeyShape(nodes, key, d);
    BaseShape(nodes, key, l);
    LongestBase(K(nodes, key, d), Base(key, nodes[d].left), nodes[d].id.peer, Base(key, l));
    if Base(key, nodes[d].left) == Base(key, l) { BaseInjective(nodes, key, l, nodes[d].left); assert false; }
    BaseShape(nodes, key, nodes[d].left);
    e := IndexOf(nodes, nodes[d].left.value);
  }

  /** A key below `l`'s base belongs to a descendant of `l`: one of l's children leads to it. */
  lemma {:induction false} ChildToward(nodes: seq<Node>, key: Keys, l: Option<Id>, d: nat) returns (c: nat)
    requires Ordered(nodes, key) && Present(nodes, l) && d < |nodes|
    requires IsPrefix(Base(key, l), K(nodes, key, d)) && K(nodes, key, d) != Base(key, l)
    ensures c <= d && nodes[c].left == l && IsPrefix(K(nodes, key, c), K(nodes, key, d))
    decreases d
  {
    hide Ordered, Base, Present;
    if nodes[d].left == l {
      c := d;
    } else {
      var e := LeftStep(nodes, key, l, d);
      c := ChildToward(nodes, key, l, e);
      PrefixesTrans(K(nodes, key, c), K(nodes, key, e), K(nodes, key, d));
    }
  }

  /** Conversely a node's key extends its left origin's. */
  lemma {:induction false} ChildPrefix(nodes: seq<Node>, key: Keys, c: nat)
    requires Ordered(nodes, key) && c < |nodes|
    ensures IsPrefix(Base(key, nodes[c].left), K(nodes, key, c))
  {
    KeyShape(nodes, key, c);
  }

  // ----- where a new run belongs -----

  /** What an insert may rely on: its right origin is a child of its left origin or none of its
      descendants, and no sibling under the same right parent is by the same author. */
  ghost predicate Fits(nodes: seq<Node>, key: Keys, left: Option<Id>, right: Option<Id>, peer: nat) {
    && Present(nodes, left) && Present(nodes, right)
    && LeftIndex(nodes, left) < RightIndex(nodes, right)
    && (right.Some? ==>
          RightParent(nodes, left, right) < |nodes|
          || !IsPrefix(Base(key, left), K(nodes, key, IndexOf(nodes, right.value))))
    && forall i :: 0 <= i < |nodes| && nodes[i].left == left
                   && RightParent(nodes, left, nodes[i].right) == RightParent(nodes, left, right) ==>
         nodes[i].id.peer != peer
  }

  lemma {:induction false} ParentStemShape(nodes: seq<Node>, key: Keys, left: Option<Id>, right: Option<Id>, peer: nat)
    requires BetweenOrigins(nodes) && KeysMatch(nodes, key)
    ensures Shaped(KeyFor(nodes, key, left, right, peer), Base(key, left), peer)
  {
    var rp := RightParent(nodes, left, right);
    if rp < |nodes| {
      KeyShape(nodes, key, rp);
      ShapedUnder(K(nodes, key, rp), Base(key, left), nodes[rp].id.peer, peer);
    } else {
      ShapedChild(Base(key, left), peer);
    }
  }

  lemma {:induction false} ShapedUnique(k: Key, b: Key, p: nat, c: Key, q: nat)
    requires Shaped(k, b, p) && Shaped(k, c, q)
    requires (b != [] ==> b[|b| - 1] == End) && (c != [] ==> c[|c| - 1] == End)
    ensures b == c && p == q
  {
    LongestBase(k, b, p, c);
    LongestBase(k, c, q, b);
  }

  /** A parent stem names its right parent. */
  lemma {:induction false} ParentStemInjective(nodes: seq<Node>, key: Keys, left: Option<Id>, r: Option<Id>, q: Option<Id>)
    requires Ordered(nodes, key) && Present(nodes, left)
    requires ParentStem(nodes, key, left, r) == ParentStem(nodes, key, left, q)
    ensures RightParent(nodes, left, r) == RightParent(nodes, left, q)
  {
    var i, j := RightParent(nodes, left, r), RightParent(nodes, left, q);
    if i < |nodes| { KeyShape(nodes, key, i); }
    if j < |nodes| { KeyShape(nodes, key, j); }
    if i < |nodes| && j < |nodes| {
      StemInjective(K(nodes, key, i), K(nodes, key, j));
      KeyInjective(nodes, key, i, j);
    }
  }

  lemma {:induction false} StemInjective(a: Key, b: Key)
    requires a != [] && b != [] && a[|a| - 1] == b[|b| - 1] && Stem(a) == Stem(b)
    ensures a == b
  {
    assert a == Stem(a) + [a[|a| - 1]];
    assert b == Stem(b) + [b[|b| - 1]];
  }

  /** The new key is nobody's. */
  lemma {:induction false} KeyFresh(nodes: seq<Node>, key: Keys, left: Option<Id>, right: Option<Id>, peer: nat, o: nat)
    requires Ordered(nodes, key) && Fits(nodes, key, left, right, peer) && o < |nodes|
    ensures K(nodes, key, o) != KeyFor(nodes, key, left, right, peer)
  {
    var n := nodes[o];
    if K(nodes, key, o) == KeyFor(nodes, key, left, right, peer) {
      KeyShape(nodes, key, o);
      ParentStemShape(nodes, key, left, right, peer);
      BaseShape(nodes, key, left);
      BaseShape(nodes, key, n.left);
      ShapedUnique(K(nodes, key, o), Base(key, left), peer, Base(key, n.left), n.id.peer);
      BaseInjective(nodes, key, left, n.left);
      SameStem(ParentStem(nodes, key, left, right), ParentStem(nodes, key, left, n.right), At(peer));
      ParentStemInjective(nodes, key, left, right, n.right);
      assert false;
    }
  }

  lemma {:induction false} SameStem(p: Key, q: Key, c: Comp)
    requires p + [c, End] == q + [c, End]
    ensures p == q
  {
    assert p == (p + [c, End])[..|p|] && q == (q + [c, End])[..|q|];
  }

  /** Either before or after the new key. */
  lemma {:induction false} KeyDecided(nodes: seq<Node>, key: Keys, left: Option<Id>, right: Option<Id>, peer: nat, o: nat)
    requires Ordered(nodes, key) && Fits(nodes, key, left, right, peer) && o < |nodes|
    ensures var kx := KeyFor(nodes, key, left, right, peer);
      Less(K(nodes, key, o), kx) <==> !Less(kx, K(nodes, key, o))
  {
    var kx := KeyFor(nodes, key, left, right, peer);
    KeyFresh(nodes, key, left, right, peer, o);
    LessTotal(K(nodes, key, o), kx);
    if Less(kx, K(nodes, key, o)) { LessAsym(kx, K(nodes, key, o)); }
  }

  /** b's key goes on below a's stem, so b comes first. */
  lemma {:induction false} BelowStem(a: Key, b: Key)
    requires a != [] && a[|a| - 1] == End && |b| > |a| - 1 && IsPrefix(Stem(a), b) && b[|a| - 1].At?
    ensures Less(b, a)
  {
    var p := Stem(a);
    assert b == p + b[|p|..] && a == p + [End];
    LessCancel(p, b[|p|..], [End]);
  }

  /** c and its right parent q lie on the same side of the new key. */
  lemma {:induction false} SameSide(nodes: seq<Node>, key: Keys, left: Option<Id>, right: Option<Id>, peer: nat, c: nat)
    requires Ordered(nodes, key) && Fits(nodes, key, left, right, peer) && c < |nodes| && nodes[c].left == left
    requires RightParent(nodes, left, nodes[c].right) < RightParent(nodes, left, right)
    ensures var kx := KeyFor(nodes, key, left, right, peer);
      var q := RightParent(nodes, left, nodes[c].right);
      c < q < |nodes| && nodes[q].left == left && (Less(K(nodes, key, c), kx) <==> Less(K(nodes, key, q), kx))
  {
    NodeFacts(nodes, key, c);
    var kx := KeyFor(nodes, key, left, right, peer);
    var q := RightParent(nodes, left, nodes[c].right);
    var kc, kq := K(nodes, key, c), K(nodes, key, q);
    if Less(kq, kx) {
      LessTrans(kc, kq, kx);
    } else if Less(kc, kx) {
      KeyDecided(nodes, key, left, right, peer, q);
      KeyShape(nodes, key, q);
      assert IsPrefix(Stem(kq), kc) && IsPrefix(Stem(kq), kq);
      BetweenPrefix(Stem(kq), kc, kx, kq);
      SidesAgree(nodes, key, left, right, peer, q);
      assert false;
    }
  }

  /** A stem that fits in the new key, without being its own, fits in its parent stem. */
  lemma {:induction false} StemFits(k: Key, p: Key, peer: nat)
    requires |k| >= 2 && k[|k| - 1] == End && k[|k| - 2].At?
    requires IsPrefix(Stem(k), p + [At(peer), End]) && k != p + [At(peer), End]
    ensures IsPrefix(Stem(k), p)
  {
    var s, kx := Stem(k), p + [At(peer), End];
    assert s[|s| - 1].At?;
    if |s| == |kx| - 1 { assert false; }
    assert p == kx[..|p|];
    PrefixesCompare(s, p, kx);
  }

  lemma {:induction false} SidesAgree(nodes: seq<Node>, key: Keys, left: Option<Id>, right: Option<Id>, peer: nat, q: nat)
    requires Ordered(nodes, key) && Fits(nodes, key, left, right, peer) && q < |nodes| && nodes[q].left == left
    requires q < RightParent(nodes, left, right)
    ensures !IsPrefix(Stem(K(nodes, key, q)), KeyFor(nodes, key, left, right, peer))
  {
    var kq := K(nodes, key, q);
    KeyShape(nodes, key, q);
    KeyFresh(nodes, key, left, right, peer, q);
    if IsPrefix(Stem(kq), KeyFor(nodes, key, left, right, peer)) {
      StemFits(kq, ParentStem(nodes, key, left, right), peer);
      StemNotAbove(nodes, key, left, right, q);
    }
  }

  lemma {:induction false} StemOrder(a: Key, p: nat, b: Key, q: nat, base: Key)
    requires Shaped(a, base, p) && Shaped(b, base, q) && IsPrefix(Stem(a), Stem(b))
    ensures a == b || Less(b, a)
  {
    if |a| == |b| {
      StemInjective(a, b);
    } else {
      PrefixesTrans(Stem(a), Stem(b), b);
      BelowStem(a, b);
    }
  }

  lemma {:induction false} StemNotAbove(nodes: seq<Node>, key: Keys, left: Option<Id>, right: Option<Id>, q: nat)
    requires Ordered(nodes, key) && Present(nodes, right) && q < |nodes| && nodes[q].left == left
    requires q < RightParent(nodes, left, right)
    ensures !IsPrefix(Stem(K(nodes, key, q)), ParentStem(nodes, key, left, right))
  {
    var rp := RightParent(nodes, left, right);
    KeyShape(nodes, key, q);
    if IsPrefix(Stem(K(nodes, key, q)), ParentStem(nodes, key, left, right)) && rp < |nodes| {
      KeyShape(nodes, key, rp);
      StemOrder(K(nodes, key, q), nodes[q].id.peer, K(nodes, key, rp), nodes[rp].id.peer, Base(key, left));
      SortedIndex(nodes, key, rp, q);
      SortedIndex(nodes, key, q, rp);
      assert false;
    }
  }
}
