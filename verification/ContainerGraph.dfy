/** Containers holding containers: paths, cycles, and an order that rules cycles out. */
module ContainerGraphs {
  import opened Common

  /** The containers a container's own value has slots for, in slot order; None for a kind that cannot be
      shown. A container without ops has none. */
  type Graph = map<Id, Option<seq<Id>>>

  function Kids(g: Graph, k: Id): seq<Id> { if k in g && g[k].Some? then g[k].value else [] }

  predicate Unshown(g: Graph, k: Id) { k in g && g[k].None? }

  ghost predicate Child(g: Graph, k: Id, c: Id) { k in g && g[k].Some? && c in g[k].value }

  /** Each a child of the one before. */
  ghost predicate Path(g: Graph, p: seq<Id>) {
    p != [] && forall i, j :: 0 <= i < |p| && j == i + 1 < |p| ==> Child(g, p[i], p[j])
  }

  ghost predicate Leads(g: Graph, p: seq<Id>, a: Id, b: Id) {
    Path(g, p) && p[0] == a && p[|p| - 1] == b
  }

  ghost predicate Reachable(g: Graph, roots: seq<Id>, k: Id) {
    exists p :: Path(g, p) && p[0] in roots && p[|p| - 1] == k
  }

  /** The container holds itself, at some depth. */
  ghost predicate InCycle(g: Graph, k: Id) {
    exists p :: Leads(g, p, k, k) && |p| > 1
  }

  lemma {:induction false} PathMore(g: Graph, p: seq<Id>, c: Id)
    requires Path(g, p) && Child(g, p[|p| - 1], c)
    ensures Path(g, p + [c])
  {
    hide Child;
    var q := p + [c];
    forall i, j | 0 <= i < |q| && j == i + 1 < |q| ensures Child(g, q[i], q[j]) {}
  }

  lemma {:induction false} PathPart(g: Graph, p: seq<Id>, a: nat, b: nat)
    requires Path(g, p) && a < b <= |p|
    ensures Path(g, p[a..b])
  {
    hide Child;
    var q := p[a..b];
    forall i, j | 0 <= i < |q| && j == i + 1 < |q| ensures Child(g, q[i], q[j]) { assert Child(g, p[a + i], p[a + j]); }
  }

  lemma {:induction false} RootReached(g: Graph, roots: seq<Id>, k: Id)
    requires k in roots
    ensures Reachable(g, roots, k)
  {
    assert Path(g, [k]);
  }

  lemma {:induction false} ChildReached(g: Graph, roots: seq<Id>, k: Id, c: Id)
    requires Reachable(g, roots, k) && Child(g, k, c)
    ensures Reachable(g, roots, c)
  {
    hide Child;
    var p :| Path(g, p) && p[0] in roots && p[|p| - 1] == k;
    PathMore(g, p, c);
    assert (p + [c])[0] in roots;
  }

  // ----- done in order -----

  /** Each listed after all its children. */
  ghost predicate Settled(g: Graph, done: seq<Id>) {
    forall i :: 0 <= i < |done| ==> forall c :: Child(g, done[i], c) ==> c in done[..i]
  }

  ghost predicate DistinctIn(done: seq<Id>) {
    forall i, j :: 0 <= i < j < |done| ==> done[i] != done[j]
  }

  /** Down a path, the listing goes back. */
  lemma {:induction false} GoesBack(g: Graph, done: seq<Id>, p: seq<Id>, i: nat) returns (j: nat)
    requires Settled(g, done) && Path(g, p) && i < |done| && p[0] == done[i]
    ensures j <= i && done[j] == p[|p| - 1] && (|p| > 1 ==> j < i)
    decreases |p|
  {
    hide Child;
    if |p| == 1 {
      j := i;
    } else {
      FirstChild(g, p);
      assert p[1] in done[..i];
      var k :| 0 <= k < i && done[k] == p[1];
      PathPart(g, p, 1, |p|);
      j := GoesBack(g, done, p[1..], k);
    }
  }

  lemma {:induction false} FirstChild(g: Graph, p: seq<Id>)
    requires Path(g, p) && |p| > 1
    ensures Child(g, p[0], p[1])
  {
  }

  /** Nothing listed is in a cycle. */
  lemma {:induction false} NoCycleIn(g: Graph, done: seq<Id>, k: Id)
    requires Settled(g, done) && DistinctIn(done) && k in done
    ensures !InCycle(g, k)
  {
    hide Settled, Child;
    var i :| 0 <= i < |done| && done[i] == k;
    if p :| Leads(g, p, k, k) && |p| > 1 { var j := GoesBack(g, done, p, i); }
  }

  /** All that is reachable from listed roots is listed. */
  lemma {:induction false} AllListed(g: Graph, done: seq<Id>, roots: seq<Id>, k: Id)
    requires Settled(g, done) && (forall r :: r in roots ==> r in done) && Reachable(g, roots, k)
    ensures k in done
  {
    hide Settled, Child;
    var p :| Path(g, p) && p[0] in roots && p[|p| - 1] == k;
    var i :| 0 <= i < |done| && done[i] == p[0];
    var j := GoesBack(g, done, p, i);
  }

  // ----- the walk's path -----

  /** A container on the path, met again at its end, holds itself. */
  lemma {:induction false} MetAgain(g: Graph, p: seq<Id>, i: nat, c: Id)
    requires Path(g, p) && i < |p| && p[i] == c && Child(g, p[|p| - 1], c)
    ensures InCycle(g, c)
  {
    hide Child;
    PathPart(g, p, i, |p|);
    var q := p[i..|p|];
    PathMore(g, q, c);
    assert Leads(g, q + [c], c, c);
  }

  /** All containers there are: with ops, children, and roots. */
  function Universe(g: Graph, roots: seq<Id>): set<Id> {
    g.Keys + (set k, c | k in g && c in Kids(g, k) :: c) + (set r | r in roots)
  }

  lemma {:induction false} InUniverse(g: Graph, roots: seq<Id>, k: Id, c: Id)
    ensures k in roots ==> k in Universe(g, roots)
    ensures c in Kids(g, k) ==> c in Universe(g, roots)
  {
  }
}
