/** Elements inserted at one place by different authors: families side by side, in author order. */
module SeqSiblings {
  import opened Common
  import opened KeyOrder
  import opened SeqTypes
  import opened SeqOrder

  /** Each element after the first has the one before it for its left origin. */
  ghost predicate Lineage(nodes: seq<Node>, line: seq<nat>) {
    && line != [] && (forall k :: 0 <= k < |line| ==> line[k] < |nodes|)
    && forall k, l :: 0 <= k < |line| && l == k + 1 < |line| ==> nodes[line[l]].left == Some(nodes[line[k]].id)
  }

  /** The last of a lineage descends from its first. */
  ghost predicate Descends(nodes: seq<Node>, a: nat, d: nat) {
    exists line :: Lineage(nodes, line) && line[0] == a && line[|line| - 1] == d
  }

  lemma {:induction false} LineagePrefix(nodes: seq<Node>, key: Keys, line: seq<nat>)
    requires Ordered(nodes, key) && Lineage(nodes, line)
    ensures IsPrefix(K(nodes, key, line[0]), K(nodes, key, line[|line| - 1]))
    decreases |line|
  {
    hide Ordered, KeyFor;
    var n := |line| - 1;
    if n > 0 {
      LineagePart(nodes, line);
      LineagePrefix(nodes, key, line[..n]);
      ChildPrefix(nodes, key, line[n]);
      BaseIs(nodes, key, line[n - 1], line[n]);
    }
  }

  lemma {:induction false} LineagePart(nodes: seq<Node>, line: seq<nat>)
    requires Lineage(nodes, line) && |line| > 1
    ensures Lineage(nodes, line[..|line| - 1]) && nodes[line[|line| - 1]].left == Some(nodes[line[|line| - 2]].id)
  {
  }

  lemma {:induction false} BaseIs(nodes: seq<Node>, key: Keys, a: nat, b: nat)
    requires Ordered(nodes, key) && a < |nodes| && b < |nodes| && nodes[b].left == Some(nodes[a].id)
    ensures Base(key, nodes[b].left) == K(nodes, key, a)
  {
  }

  /** Two elements with the same origins, and all that descends from each: the lower author's family comes
      first, whole. */
  lemma {:induction false} FamiliesApart(nodes: seq<Node>, key: Keys, i: nat, j: nat, d: nat, e: nat)
    requires Ordered(nodes, key) && i < |nodes| && j < |nodes| && d < |nodes| && e < |nodes|
    requires nodes[i].left == nodes[j].left && nodes[i].right == nodes[j].right && nodes[i].id.peer < nodes[j].id.peer
    requires Descends(nodes, i, d) && Descends(nodes, j, e)
    ensures d < e
  {
    hide Ordered, KeyFor;
    var a :| Lineage(nodes, a) && a[0] == i && a[|a| - 1] == d;
    var b :| Lineage(nodes, b) && b[0] == j && b[|b| - 1] == e;
    LineagePrefix(nodes, key, a);
    LineagePrefix(nodes, key, b);
    SiblingKeys(nodes, key, i, j);
    Extends(K(nodes, key, i), K(nodes, key, d), K(nodes, key, j), K(nodes, key, e));
    SortedIndex(nodes, key, d, e);
  }

  lemma {:induction false} SiblingKeys(nodes: seq<Node>, key: Keys, i: nat, j: nat)
    requires Ordered(nodes, key) && i < |nodes| && j < |nodes|
    requires nodes[i].left == nodes[j].left && nodes[i].right == nodes[j].right && nodes[i].id.peer < nodes[j].id.peer
    ensures Less(K(nodes, key, i), K(nodes, key, j)) && !IsPrefix(K(nodes, key, i), K(nodes, key, j))
  {
    hide ParentStem;
    var p := ParentStem(nodes, key, nodes[i].left, nodes[i].right);
    var x, y := [At(nodes[i].id.peer), End], [At(nodes[j].id.peer), End];
    assert K(nodes, key, i) == p + x && K(nodes, key, j) == p + y;
    LessCancel(p, x, y);
    assert (p + x)[|p|] == x[0] && (p + y)[|p|] == y[0];
  }

  lemma {:induction false} Extends(a: Key, x: Key, b: Key, y: Key)
    requires Less(a, b) && !IsPrefix(a, b) && IsPrefix(a, x) && IsPrefix(b, y)
    ensures Less(x, y)
  {
    hide Less;
    LessExtend(a, x[|a|..], b, y[|b|..]);
    assert a + x[|a|..] == x && b + y[|b|..] == y;
  }

  /** An element and all that descends from it stand together: whatever is between descends from it too. */
  lemma {:induction false} FamilyTogether(nodes: seq<Node>, key: Keys, i: nat, m: nat, d: nat)
    requires Ordered(nodes, key) && i < m < d < |nodes| && Descends(nodes, i, d)
    ensures Descends(nodes, i, m)
  {
    hide Ordered, KeyFor, Less;
    var a :| Lineage(nodes, a) && a[0] == i && a[|a| - 1] == d;
    LineagePrefix(nodes, key, a);
    SortedIndex(nodes, key, i, m);
    SortedIndex(nodes, key, m, d);
    BetweenPrefix(K(nodes, key, i), K(nodes, key, i), K(nodes, key, m), K(nodes, key, d));
    PrefixDescends(nodes, key, i, m);
  }

  lemma {:induction false} PrefixDescends(nodes: seq<Node>, key: Keys, i: nat, m: nat)
    requires Ordered(nodes, key) && i < |nodes| && m < |nodes| && IsPrefix(K(nodes, key, i), K(nodes, key, m))
    ensures Descends(nodes, i, m)
    decreases |K(nodes, key, m)| - |K(nodes, key, i)|
  {
    hide Ordered, KeyFor, Less, Descends;
    if i == m {
      Itself(nodes, i);
    } else {
      var l := Some(nodes[i].id);
      SelfPresent(nodes, key, i);
      DifferentKeys(nodes, key, i, m);
      var c := ChildToward(nodes, key, l, m);
      LongerKey(nodes, key, i, c);
      PrefixDescends(nodes, key, c, m);
      OneMore(nodes, i, c, m);
    }
  }

  lemma {:induction false} Itself(nodes: seq<Node>, i: nat)
    requires i < |nodes|
    ensures Descends(nodes, i, i)
  {
    assert Lineage(nodes, [i]);
  }

  lemma {:induction false} OneMore(nodes: seq<Node>, i: nat, c: nat, m: nat)
    requires i < |nodes| && c < |nodes| && nodes[c].left == Some(nodes[i].id) && Descends(nodes, c, m)
    ensures Descends(nodes, i, m)
  {
    var line :| Lineage(nodes, line) && line[0] == c && line[|line| - 1] == m;
    var all := [i] + line;
    forall k, l | 0 <= k < |all| && l == k + 1 < |all| ensures nodes[all[l]].left == Some(nodes[all[k]].id) {
      if k > 0 { assert nodes[line[l - 1]].left == Some(nodes[line[k - 1]].id); }
    }
    assert Lineage(nodes, all) && all[0] == i && all[|all| - 1] == m;
  }

  lemma {:induction false} SelfPresent(nodes: seq<Node>, key: Keys, i: nat)
    requires Ordered(nodes, key) && i < |nodes|
    ensures Present(nodes, Some(nodes[i].id)) && Base(key, Some(nodes[i].id)) == K(nodes, key, i)
  {
  }

  lemma {:induction false} DifferentKeys(nodes: seq<Node>, key: Keys, i: nat, m: nat)
    requires Ordered(nodes, key) && i < |nodes| && m < |nodes| && i != m
    ensures K(nodes, key, i) != K(nodes, key, m)
  {
    hide Ordered, Less;
    SortedIndex(nodes, key, i, m);
    SortedIndex(nodes, key, m, i);
    LessIrreflexive(K(nodes, key, i));
  }

  /** A child's key goes on past its left origin's. */
  lemma {:induction false} LongerKey(nodes: seq<Node>, key: Keys, i: nat, c: nat)
    requires Ordered(nodes, key) && i < |nodes| && c < |nodes| && nodes[c].left == Some(nodes[i].id)
    ensures |K(nodes, key, i)| < |K(nodes, key, c)|
  {
    hide KeyFor, Less;
    ChildPrefix(nodes, key, c);
    BaseIs(nodes, key, i, c);
    LeftBefore(nodes, i, c);
    DifferentKeys(nodes, key, i, c);
  }

  lemma {:induction false} LeftBefore(nodes: seq<Node>, i: nat, c: nat)
    requires Distinct(nodes) && BetweenOrigins(nodes) && i < |nodes| && c < |nodes| && nodes[c].left == Some(nodes[i].id)
    ensures i < c
  {
    assert LeftIndex(nodes, nodes[c].left) < c;
    IndexOfIs(nodes, i);
  }
}
