/** A parent's children in order, and what moving one node does to the lists. */
module TreeKids {
  import opened Common
  import opened FracIndices
  import opened OpSort
  import opened TreeShapes

  predicate PlaceBefore(a: Place, b: Place) {
    if a.fi != b.fi then Less(a.fi, b.fi) else StampBefore(a, b)
  }

  predicate StampBefore(a: Place, b: Place) {
    a.lamport < b.lamport || (a.lamport == b.lamport && a.peer < b.peer)
  }

  lemma {:induction false} BeforeTrans(a: Place, b: Place, c: Place)
    requires PlaceBefore(a, b) && PlaceBefore(b, c)
    ensures PlaceBefore(a, c)
  {
    hide Less;
    if Less(a.fi, b.fi) && Less(b.fi, c.fi) {
      LessTrans(a.fi, b.fi, c.fi);
      LessTotal(a.fi, c.fi);
    }
  }

  lemma {:induction false} BeforeOne(a: Place, b: Place)
    ensures PlaceBefore(a, b) ==> !PlaceBefore(b, a) && a != b
    ensures PlaceBefore(a, b) || PlaceBefore(b, a) || (a.lamport == b.lamport && a.peer == b.peer)
  {
    hide Less;
    LessTotal(a.fi, b.fi);
  }

  // ----- ranked lists -----

  /** Nodes in the order of their places. */
  ghost predicate Ranked(nodes: Places, kids: seq<Id>) {
    && (forall i :: 0 <= i < |kids| ==> kids[i] in nodes)
    && (forall i, j :: 0 <= i < j < |kids| ==> PlaceBefore(nodes[kids[i]], nodes[kids[j]]))
  }

  /** The nodes under p, in order. */
  ghost predicate Kids(nodes: Places, p: Parent, kids: seq<Id>) {
    Ranked(nodes, kids) && forall x: Id :: x in kids <==> x in nodes && nodes[x].parent == p
  }

  /** The same without n. */
  ghost predicate KidsBut(nodes: Places, p: Parent, n: Id, kids: seq<Id>) {
    Ranked(nodes, kids) && forall x: Id :: x in kids <==> x in nodes && nodes[x].parent == p && x != n
  }

  lemma {:induction false} RankedApart(nodes: Places, kids: seq<Id>, i: nat, j: nat)
    requires Ranked(nodes, kids) && i < j < |kids|
    ensures kids[i] != kids[j]
  {
    BeforeOne(nodes[kids[i]], nodes[kids[j]]);
  }

  /** There is one way to put nodes in order. */
  lemma {:induction false} OneRanking(nodes: Places, a: seq<Id>, b: seq<Id>)
    requires Ranked(nodes, a) && Ranked(nodes, b) && forall x: Id :: x in a <==> x in b
    ensures a == b
  {
    hide Ranked;
    if b != [] { assert b[0] in a; }
    if a != [] {
      var m := |a| - 1;
      assert a[m] in b;
      LastRank(nodes, a, b);
      ButLast(nodes, a);
      ButLast(nodes, b);
      forall x: Id ensures x in a[..m] <==> x in b[..|b| - 1] { assert x in a <==> x in b; }
      OneRanking(nodes, a[..m], b[..|b| - 1]);
      assert a == a[..m] + [a[m]] && b == b[..|b| - 1] + [b[|b| - 1]];
    }
  }

  lemma {:induction false} ButLast(nodes: Places, a: seq<Id>)
    requires Ranked(nodes, a) && a != []
    ensures Ranked(nodes, a[..|a| - 1]) && forall x: Id :: x in a[..|a| - 1] <==> x in a && x != a[|a| - 1]
  {
    hide PlaceBefore;
    var m := |a| - 1;
    forall i | 0 <= i < m ensures a[i] != a[m] { RankedApart(nodes, a, i, m); }
  }

  lemma {:induction false} LastRank(nodes: Places, a: seq<Id>, b: seq<Id>)
    requires Ranked(nodes, a) && Ranked(nodes, b) && (forall x: Id :: x in a <==> x in b) && |a| > 0 && |b| > 0
    ensures a[|a| - 1] == b[|b| - 1]
  {
    hide Ranked, PlaceBefore;
    var x, y := a[|a| - 1], b[|b| - 1];
    assert x in b && y in a;
    NotAfter(nodes, b, x);
    NotAfter(nodes, a, y);
    if x != y { BeforeOne(nodes[x], nodes[y]); }
  }

  lemma {:induction false} NotAfter(nodes: Places, b: seq<Id>, x: Id)
    requires Ranked(nodes, b) && x in b
    ensures x in nodes && b[|b| - 1] in nodes && (x == b[|b| - 1] || PlaceBefore(nodes[x], nodes[b[|b| - 1]]))
  {
    var i :| 0 <= i < |b| && b[i] == x;
  }

  /** Places elsewhere do not matter. */
  lemma {:induction false} RankedSame(nodes: Places, now: Places, kids: seq<Id>)
    requires Ranked(nodes, kids) && forall x :: x in kids ==> x in now && (x in nodes ==> now[x] == nodes[x])
    ensures Ranked(now, kids)
  {
    hide PlaceBefore;
    forall i | 0 <= i < |kids| ensures kids[i] in now { assert kids[i] in kids; }
    forall i, j | 0 <= i < j < |kids| ensures PlaceBefore(now[kids[i]], now[kids[j]]) {
      assert kids[i] in kids && kids[j] in kids;
      assert PlaceBefore(nodes[kids[i]], nodes[kids[j]]);
    }
  }

  function Inserted(kids: seq<Id>, i: nat, n: Id): seq<Id>
    requires i <= |kids|
  {
    kids[..i] + [n] + kids[i..]
  }

  function Removed(kids: seq<Id>, i: nat): seq<Id>
    requires i < |kids|
  {
    kids[..i] + kids[i + 1..]
  }

  lemma {:induction false} InsertRanked(nodes: Places, kids: seq<Id>, i: nat, n: Id)
    requires Ranked(nodes, kids) && i <= |kids| && n in nodes
    requires forall j :: 0 <= j < i ==> PlaceBefore(nodes[kids[j]], nodes[n])
    requires forall j :: i <= j < |kids| ==> PlaceBefore(nodes[n], nodes[kids[j]])
    ensures Ranked(nodes, Inserted(kids, i, n)) && forall x: Id :: x in Inserted(kids, i, n) <==> x in kids || x == n
  {
    hide PlaceBefore;
    var r := Inserted(kids, i, n);
    forall x: Id ensures x in r <==> x in kids || x == n { InsertMembers(kids, i, n, x); }
  }

  lemma {:induction false} InsertMembers(kids: seq<Id>, i: nat, n: Id, x: Id)
    requires i <= |kids|
    ensures x in Inserted(kids, i, n) <==> x in kids || x == n
  {
    assert kids == kids[..i] + kids[i..];
  }

  lemma {:induction false} RemoveRanked(nodes: Places, kids: seq<Id>, i: nat)
    requires Ranked(nodes, kids) && i < |kids|
    ensures Ranked(nodes, Removed(kids, i)) && forall x: Id :: x in Removed(kids, i) <==> x in kids && x != kids[i]
  {
    hide PlaceBefore;
    forall j | 0 <= j < |kids| && j != i ensures kids[j] != kids[i] { RankedApart(nodes, kids, if j < i then j else i, if j < i then i else j); }
    assert kids == kids[..i] + [kids[i]] + kids[i + 1..];
  }

  // ----- all the lists -----

  function ListAt(children: map<Parent, seq<Id>>, p: Parent): seq<Id> {
    if p in children then children[p] else []
  }

  /** Every parent but the trash has its children listed in order. */
  ghost predicate Indexed(nodes: Places, children: map<Parent, seq<Id>>) {
    forall p: Parent :: p != Trash ==> Kids(nodes, p, ListAt(children, p))
  }

  ghost predicate IndexedBut(nodes: Places, children: map<Parent, seq<Id>>, n: Id) {
    forall p: Parent :: p != Trash ==> KidsBut(nodes, p, n, ListAt(children, p))
  }

  /** No list holds n, so none needs to let go of it. */
  lemma {:induction false} NotListed(nodes: Places, children: map<Parent, seq<Id>>, n: Id)
    requires Indexed(nodes, children) && (n in nodes ==> nodes[n].parent == Trash)
    ensures IndexedBut(nodes, children, n)
  {
    hide Ranked;
    forall p: Parent | p != Trash ensures KidsBut(nodes, p, n, ListAt(children, p)) {
      assert Kids(nodes, p, ListAt(children, p));
    }
  }

  lemma {:induction false} Unlisted(nodes: Places, children: map<Parent, seq<Id>>, n: Id, i: nat)
    requires Indexed(nodes, children) && n in nodes && nodes[n].parent != Trash
    requires i < |ListAt(children, nodes[n].parent)| && ListAt(children, nodes[n].parent)[i] == n
    ensures IndexedBut(nodes, children[nodes[n].parent := Removed(ListAt(children, nodes[n].parent), i)], n)
  {
    hide Ranked, Removed;
    var q := nodes[n].parent;
    var less := children[q := Removed(ListAt(children, q), i)];
    forall p: Parent | p != Trash ensures KidsBut(nodes, p, n, ListAt(less, p)) {
      assert Kids(nodes, p, ListAt(children, p));
      if p == q { RemoveRanked(nodes, ListAt(children, q), i); }
    }
  }

  /** A node moved into the trash is in no list. */
  lemma {:induction false} InTrash(nodes: Places, children: map<Parent, seq<Id>>, n: Id, place: Place)
    requires IndexedBut(nodes, children, n) && place.parent == Trash
    ensures Indexed(nodes[n := place], children)
  {
    hide Ranked;
    var now := nodes[n := place];
    forall p: Parent | p != Trash ensures Kids(now, p, ListAt(children, p)) {
      assert KidsBut(nodes, p, n, ListAt(children, p));
      RankedSame(nodes, now, ListAt(children, p));
    }
  }

  /** The list position i is where the place belongs. */
  ghost predicate Belongs(nodes: Places, kids: seq<Id>, i: nat, place: Place) {
    && i <= |kids| && (forall j :: 0 <= j < |kids| ==> kids[j] in nodes)
    && (forall j :: 0 <= j < i ==> PlaceBefore(nodes[kids[j]], place))
    && (forall j :: i <= j < |kids| ==> PlaceBefore(place, nodes[kids[j]]))
  }

  lemma {:induction false} Listed(nodes: Places, children: map<Parent, seq<Id>>, n: Id, place: Place, i: nat)
    requires IndexedBut(nodes, children, n) && place.parent != Trash && Belongs(nodes, ListAt(children, place.parent), i, place)
    ensures Indexed(nodes[n := place], children[place.parent := Inserted(ListAt(children, place.parent), i, n)])
  {
    hide Ranked, Inserted, Belongs, PlaceBefore;
    var q := place.parent;
    var now := nodes[n := place];
    Within(nodes, ListAt(children, q), i, place);
    var more := children[q := Inserted(ListAt(children, q), i, n)];
    forall p: Parent | p != Trash ensures Kids(now, p, ListAt(more, p)) {
      assert KidsBut(nodes, p, n, ListAt(children, p));
      RankedSame(nodes, now, ListAt(children, p));
      if p == q { InsertBelongs(nodes, ListAt(children, q), i, n, place); }
    }
  }

  lemma {:induction false} Within(nodes: Places, kids: seq<Id>, i: nat, place: Place)
    requires Belongs(nodes, kids, i, place)
    ensures i <= |kids|
  {
  }

  lemma {:induction false} InsertBelongs(nodes: Places, kids: seq<Id>, i: nat, n: Id, place: Place)
    requires n !in kids && Belongs(nodes, kids, i, place) && Ranked(nodes[n := place], kids)
    ensures i <= |kids| && Ranked(nodes[n := place], Inserted(kids, i, n)) && forall x: Id :: x in Inserted(kids, i, n) <==> x in kids || x == n
  {
    hide Ranked, PlaceBefore;
    var now := nodes[n := place];
    forall j | 0 <= j < |kids| ensures kids[j] != n { assert kids[j] in kids; }
    InsertRanked(now, kids, i, n);
  }

  /** The lists, like the counts, are a function of the placements: kept or rebuilt, they are the same. */
  lemma {:induction false} OneIndex(nodes: Places, a: map<Parent, seq<Id>>, b: map<Parent, seq<Id>>, p: Parent)
    requires Indexed(nodes, a) && Indexed(nodes, b) && p != Trash
    ensures ListAt(a, p) == ListAt(b, p)
  {
    hide Ranked;
    assert Kids(nodes, p, ListAt(a, p)) && Kids(nodes, p, ListAt(b, p));
    OneRanking(nodes, ListAt(a, p), ListAt(b, p));
  }

  lemma {:induction false} KidsAt(nodes: Places, children: map<Parent, seq<Id>>, p: Parent)
    requires Indexed(nodes, children) && p != Trash
    ensures Kids(nodes, p, ListAt(children, p)) && Ranked(nodes, ListAt(children, p))
  {
  }

  lemma {:induction false} ButAt(nodes: Places, children: map<Parent, seq<Id>>, n: Id, p: Parent)
    requires IndexedBut(nodes, children, n) && p != Trash
    ensures KidsBut(nodes, p, n, ListAt(children, p)) && Ranked(nodes, ListAt(children, p))
  {
  }

  // ----- stamps -----

  /** No two nodes were placed by the same move. */
  ghost predicate PlacedApart(nodes: Places) {
    forall x, y :: x in nodes && y in nodes && x != y ==> StampBefore(nodes[x], nodes[y]) || StampBefore(nodes[y], nodes[x])
  }

  /** The place's move is later than all others. */
  ghost predicate Latest(nodes: Places, place: Place) {
    forall x :: x in nodes ==> StampBefore(nodes[x], place)
  }

  lemma {:induction false} ReplayApart(ops: seq<TreeOp>)
    requires InOrder(ops, StampOf)
    ensures PlacedApart(Replay(ops))
  {
    hide Replay;
    var nodes := Replay(ops);
    forall x, y | x in nodes && y in nodes && x != y ensures StampBefore(nodes[x], nodes[y]) || StampBefore(nodes[y], nodes[x]) {
      var i := PlacedBy(ops, x);
      var j := PlacedBy(ops, y);
      assert if i < j then Sooner(ops[i], ops[j], StampOf) else Sooner(ops[j], ops[i], StampOf);
    }
  }

  lemma {:induction false} TreeApart(ops: seq<TreeOp>)
    requires Stamped(ops, StampOf)
    ensures PlacedApart(TreeOf(ops)) && Acyclic(TreeOf(ops))
  {
    hide PlacedApart, Acyclic, InOrder, Stamped;
    SortedInOrder(ops, StampOf);
    ReplayApart(SortedOps(ops, StampOf));
    ReplayAcyclic(SortedOps(ops, StampOf));
  }

  lemma {:induction false} TreeLatest(ops: seq<TreeOp>, op: TreeOp)
    requires forall x :: x in ops ==> Sooner(x, op, StampOf)
    ensures Latest(TreeOf(ops), op.place)
  {
    hide Replay, SortedOps;
    var s := SortedOps(ops, StampOf);
    var nodes := Replay(s);
    forall x | x in nodes ensures StampBefore(nodes[x], op.place) {
      var i := PlacedBy(s, x);
      assert s[i] in multiset(s);
      assert s[i] in ops;
    }
  }

  lemma {:induction false} StampedNext(ops: seq<TreeOp>, op: TreeOp)
    requires Stamped(ops, StampOf) && forall x :: x in ops ==> Sooner(x, op, StampOf)
    ensures Stamped(ops + [op], StampOf)
  {
  }
}
