/** Counting live elements: what the cursor and the live count stand for. */
module SeqLive {
  import opened Common
  import opened SeqTypes
  import opened SeqReference
  import opened SeqInsert

  /** How many elements no merged delete removed. */
  ghost function Live(nodes: seq<Node>): nat {
    if nodes == [] then 0
    else Live(nodes[..|nodes| - 1]) + if nodes[|nodes| - 1].deleters == {} then 1 else 0
  }

  /** The author of v has everything merged. */
  ghost predicate AllInView(nodes: seq<Node>, v: View) {
    forall i :: 0 <= i < |nodes| ==> InView(nodes[i], v)
  }

  ghost predicate InView(n: Node, v: View) {
    v.Has(n.id) && forall d :: d in n.deleters ==> v.Has(d)
  }

  lemma {:induction false} InViewVisible(n: Node, v: View)
    requires InView(n, v)
    ensures Visible(n, v) <==> n.deleters == {}
  {
    if n.deleters != {} {
      var d :| d in n.deleters;
      assert v.Has(d);
    }
  }

  /** Who has everything merged sees just the live elements. */
  lemma {:induction false} LiveIsSeen(nodes: seq<Node>, v: View)
    requires AllInView(nodes, v)
    ensures Live(nodes) == |Seen(nodes, v)|
  {
    if nodes != [] {
      LiveIsSeen(nodes[..|nodes| - 1], v);
      assert InView(nodes[|nodes| - 1], v);
      InViewVisible(nodes[|nodes| - 1], v);
    }
  }

  lemma {:induction false} LiveStep(nodes: seq<Node>, i: nat)
    requires i < |nodes|
    ensures Live(nodes[..i + 1]) == Live(nodes[..i]) + if nodes[i].deleters == {} then 1 else 0
  {
    assert nodes[..i + 1][..i] == nodes[..i];
  }

  lemma {:induction false} LiveConcat(a: seq<Node>, b: seq<Node>)
    ensures Live(a + b) == Live(a) + Live(b)
  {
    if b == [] {
      assert a + b == a;
    } else {
      var m := |b| - 1;
      assert (a + b)[..|a| + m] == a + b[..m];
      LiveConcat(a, b[..m]);
    }
  }

  lemma {:induction false} LiveSplit(nodes: seq<Node>, i: nat)
    requires i <= |nodes|
    ensures Live(nodes) == Live(nodes[..i]) + Live(nodes[i..])
  {
    assert nodes == nodes[..i] + nodes[i..];
    LiveConcat(nodes[..i], nodes[i..]);
  }

  lemma {:induction false} LiveRun(run: seq<Node>)
    requires forall k :: 0 <= k < |run| ==> run[k].deleters == {}
    ensures Live(run) == |run|
  {
    if run != [] { LiveRun(run[..|run| - 1]); }
  }

  lemma {:induction false} LiveSpliceAll(nodes: seq<Node>, at: nat, run: seq<Node>)
    requires at <= |nodes| && forall k :: 0 <= k < |run| ==> run[k].deleters == {}
    ensures Live(Splice(nodes, at, run)) == Live(nodes) + |run|
  {
    hide Live;
    LiveRun(run);
    LiveSplit(nodes, at);
    LiveConcat(nodes[..at] + run, nodes[at..]);
    LiveConcat(nodes[..at], run);
  }

  /** A run goes in: counts up to any index move with it. */
  lemma {:induction false} LiveSplice(nodes: seq<Node>, at: nat, run: seq<Node>, idx: nat)
    requires at <= |nodes| && idx <= |nodes| && forall k :: 0 <= k < |run| ==> run[k].deleters == {}
    ensures var m := Splice(nodes, at, run);
      && Live(m) == Live(nodes) + |run|
      && (if at <= idx then Live(m[..idx + |run|]) == Live(nodes[..idx]) + |run| else Live(m[..idx]) == Live(nodes[..idx]))
  {
    hide Live;
    LiveSpliceAll(nodes, at, run);
    if at <= idx {
      LiveSpliceAll(nodes[..idx], at, run);
      assert Splice(nodes, at, run)[..idx + |run|] == Splice(nodes[..idx], at, run);
    } else {
      assert Splice(nodes, at, run)[..idx] == nodes[..idx];
    }
  }

  /** One element is deleted: counts past it drop by one if it was live. */
  lemma {:induction false} LiveDelete(nodes: seq<Node>, i: nat, d: Id, idx: nat)
    requires i < |nodes| && idx <= |nodes|
    ensures var m := nodes[i := AddDeleter(nodes[i], d)];
      var drop := if nodes[i].deleters == {} then 1 else 0;
      && Live(m) == Live(nodes) - drop
      && Live(m[..idx]) == Live(nodes[..idx]) - if i < idx then drop else 0
  {
    var m := nodes[i := AddDeleter(nodes[i], d)];
    LiveDeletePrefix(nodes, i, d, |nodes|);
    assert m[..|nodes|] == m && nodes[..|nodes|] == nodes;
    if i < idx { LiveDeletePrefix(nodes, i, d, idx); } else { assert m[..idx] == nodes[..idx]; }
  }

  lemma {:induction false} LiveDeletePrefix(nodes: seq<Node>, i: nat, d: Id, idx: nat)
    requires i < idx <= |nodes|
    ensures Live(nodes[i := AddDeleter(nodes[i], d)][..idx]) ==
      Live(nodes[..idx]) - if nodes[i].deleters == {} then 1 else 0
  {
    var m := nodes[i := AddDeleter(nodes[i], d)];
    assert m[..i] == nodes[..i];
    assert m[..idx] == nodes[..i] + [m[i]] + nodes[i + 1..idx];
    assert nodes[..idx] == nodes[..i] + [nodes[i]] + nodes[i + 1..idx];
    LiveConcat(nodes[..i] + [m[i]], nodes[i + 1..idx]);
    LiveConcat(nodes[..i] + [nodes[i]], nodes[i + 1..idx]);
    LiveConcat(nodes[..i], [m[i]]);
    LiveConcat(nodes[..i], [nodes[i]]);
    assert d in m[i].deleters;
    assert [m[i]][..0] == [] && [nodes[i]][..0] == [];
  }
}
