/** What an op does to a sequence depends only on the elements its author knows. */
module SeqPlan {
  import opened Common
  import opened SeqTypes
  import opened SeqOrder
  import opened SeqInsert
  import opened SeqReference
  import opened SeqFits
  import opened Ops

  /** An element its author knows, and whether it still sees it. */
  datatype Sight = Sight(id: Id, live: bool)

  ghost function Known(nodes: seq<Node>, v: View): seq<Sight> {
    if nodes == [] then []
    else
      var n := nodes[|nodes| - 1];
      Known(nodes[..|nodes| - 1], v) + if v.Has(n.id) then [Sight(n.id, Visible(n, v))] else []
  }

  ghost function LiveIds(known: seq<Sight>): seq<Id> {
    if known == [] then []
    else
      var x := known[|known| - 1];
      LiveIds(known[..|known| - 1]) + if x.live then [x.id] else []
  }

  lemma {:induction false} SightStep(known: seq<Sight>, x: Sight)
    ensures LiveIds(known + [x]) == LiveIds(known) + if x.live then [x.id] else []
  {
    assert (known + [x])[..|known|] == known;
  }

  lemma {:induction false} KnownLive(nodes: seq<Node>, v: View)
    ensures LiveIds(Known(nodes, v)) == Seen(nodes, v)
  {
    if nodes != [] {
      var m := |nodes| - 1;
      KnownLive(nodes[..m], v);
      if v.Has(nodes[m].id) {
        SightStep(Known(nodes[..m], v), Sight(nodes[m].id, Visible(nodes[m], v)));
      } else {
        assert Known(nodes[..m], v) + [] == Known(nodes[..m], v);
      }
    }
  }

  lemma {:induction false} KnownConcat(a: seq<Node>, b: seq<Node>, v: View)
    ensures Known(a + b, v) == Known(a, v) + Known(b, v)
  {
    if b == [] {
      assert a + b == a;
    } else {
      var m := |b| - 1;
      assert (a + b)[..|a| + m] == a + b[..m];
      KnownConcat(a, b[..m], v);
    }
  }

  lemma {:induction false} NoneKnown(nodes: seq<Node>, v: View)
    requires forall i :: 0 <= i < |nodes| ==> !v.Has(nodes[i].id)
    ensures Known(nodes, v) == []
  {
    if nodes != [] { NoneKnown(nodes[..|nodes| - 1], v); }
  }

  /** Elements the author has not seen, and deletes it has not seen, change nothing it knows. */
  lemma {:induction false} KnownSplice(nodes: seq<Node>, v: View, at: nat, run: seq<Node>)
    requires at <= |nodes| && forall i :: 0 <= i < |run| ==> !v.Has(run[i].id)
    ensures Known(Splice(nodes, at, run), v) == Known(nodes, v)
  {
    NoneKnown(run, v);
    KnownConcat(nodes[..at] + run, nodes[at..], v);
    KnownConcat(nodes[..at], run, v);
    assert nodes == nodes[..at] + nodes[at..];
    KnownConcat(nodes[..at], nodes[at..], v);
  }

  /** m is `nodes` with deleters added that the author has not seen. */
  ghost predicate SameSight(n: Node, m: Node, v: View) {
    n.id == m.id && Visible(n, v) == Visible(m, v)
  }

  lemma {:induction false} KnownMarked(nodes: seq<Node>, m: seq<Node>, v: View)
    requires |m| == |nodes| && forall i :: 0 <= i < |nodes| ==> SameSight(nodes[i], m[i], v)
    ensures Known(m, v) == Known(nodes, v)
  {
    if nodes != [] {
      var k := |nodes| - 1;
      assert SameSight(nodes[k], m[k], v);
      KnownMarked(nodes[..k], m[..k], v);
    }
  }

  /** The element of that rank among those known. */
  lemma {:induction false} KnownAt(nodes: seq<Node>, v: View, i: nat)
    requires i < |nodes| && v.Has(nodes[i].id)
    ensures var k := |Known(nodes[..i], v)|;
      && k < |Known(nodes, v)| && Known(nodes, v)[k] == Sight(nodes[i].id, Visible(nodes[i], v))
      && |Known(nodes[..i + 1], v)| == k + 1
  {
    assert nodes[..i + 1] == nodes[..i] + [nodes[i]];
    assert nodes == nodes[..i + 1] + nodes[i + 1..];
    KnownConcat(nodes[..i + 1], nodes[i + 1..], v);
    assert nodes[..i + 1][..i] == nodes[..i];
  }

  ghost predicate KnownDistinct(known: seq<Sight>) {
    forall i, j :: 0 <= i < j < |known| ==> known[i].id != known[j].id
  }

  lemma {:induction false} DistinctKnown(nodes: seq<Node>, v: View)
    requires Distinct(nodes)
    ensures KnownDistinct(Known(nodes, v))
    ensures forall i :: 0 <= i < |Known(nodes, v)| ==> Known(nodes, v)[i].id in Ids(nodes)
  {
    if nodes != [] {
      var m := |nodes| - 1;
      DistinctKnown(nodes[..m], v);
      PrefixIds(nodes, m);
    }
  }

  lemma {:induction false} PrefixIds(nodes: seq<Node>, m: nat)
    requires Distinct(nodes) && m < |nodes|
    ensures Ids(nodes[..m]) <= Ids(nodes) && nodes[m].id !in Ids(nodes[..m])
  {
  }

  /** What comes next among those known, `k` of them passed. */
  ghost function KnownId(known: seq<Sight>, k: nat): Option<Id> {
    if k < |known| then Some(known[k].id) else None
  }

  lemma {:induction false} NextKnown(nodes: seq<Node>, v: View, from: nat)
    requires from <= |nodes|
    ensures OriginAt(nodes, NextSeen(nodes, v, from)) == KnownId(Known(nodes, v), |Known(nodes[..from], v)|)
  {
    var end := NextSeen(nodes, v, from);
    var mid := nodes[from..end];
    assert nodes[..end] == nodes[..from] + mid;
    KnownConcat(nodes[..from], mid, v);
    NoneKnown(mid, v);
    if end < |nodes| { KnownAt(nodes, v, end); } else { assert nodes[..end] == nodes; }
  }

  /** Two sequences an author knows alike give its insert the same right origin. */
  lemma {:induction false} SameRight(a: seq<Node>, b: seq<Node>, v: View, i: int, j: int)
    requires Distinct(a) && Known(a, v) == Known(b, v) && -1 <= i < |a| && -1 <= j < |b|
    requires if i < 0 then j < 0 else j >= 0 && a[i].id == b[j].id && v.Has(a[i].id)
    ensures OriginAt(a, NextSeen(a, v, i + 1)) == OriginAt(b, NextSeen(b, v, j + 1))
  {
    NextKnown(a, v, i + 1);
    NextKnown(b, v, j + 1);
    if i >= 0 {
      KnownAt(a, v, i);
      KnownAt(b, v, j);
      DistinctKnown(a, v);
    } else {
      assert a[..0] == [] && b[..0] == [];
    }
  }

  lemma {:induction false} NthSeen(nodes: seq<Node>, v: View, k: nat)
    requires k < |Seen(nodes, v)|
    ensures nodes[Nth(nodes, v, k)].id == Seen(nodes, v)[k]
  {
    NthIs(nodes, v, Nth(nodes, v, k));
  }

  lemma {:induction false} SameSeenKnown(a: seq<Node>, b: seq<Node>, v: View)
    requires Known(a, v) == Known(b, v)
    ensures Seen(a, v) == Seen(b, v)
  {
    KnownLive(a, v);
    KnownLive(b, v);
  }

  /** And the same left origin. */
  lemma {:induction false} SameLeft(a: seq<Node>, b: seq<Node>, v: View, pos: int, strict: bool)
    requires pos > 0 && Known(a, v) == Known(b, v)
    ensures var i, j := Locate(a, v, pos, strict), Locate(b, v, pos, strict);
      if i.None? then j.None?
      else if i.value < 0 then j == Some(-1)
      else j.Some? && j.value >= 0 && a[i.value].id == b[j.value].id && v.Has(a[i.value].id)
  {
    SameSeenKnown(a, b, v);
    var c := |Seen(a, v)|;
    if c > 0 {
      NthSeen(a, v, Min(pos, c) - 1);
      NthSeen(b, v, Min(pos, c) - 1);
    }
  }
}
