/** A tree's shape kept current by each local op: always the shape rebuilt from all ops. */
module TreeIndices {
  import opened Common
  import opened FracIndices
  import opened OpSort
  import opened TreeShapes
  import opened TreeKids

  class TreeIndex {
    var nodes: Places
    var children: map<Parent, seq<Id>>
    var childCount: map<Parent, int>
    ghost var history: seq<TreeOp>

    /** Placements are those the ops so far replay to, counts and lists are exact. */
    ghost predicate Valid()
      reads this
    {
      Stamped(history, StampOf) && nodes == TreeOf(history) && CountsRight(nodes, childCount) && Indexed(nodes, children)
    }

    /** Builds the index from a container's ops: replays them in order, walking up only from nodes that
        have children, then sorts each parent's children once. */
    constructor (ops: seq<TreeOp>)
      requires Stamped(ops, StampOf)
      ensures Valid() && history == ops
    {
      nodes, children, childCount, history := map[], map[], map[], ops;
      new;
      hide CountsRight, Indexed, Cyclic, Acyclic;
      var sorted := SortedOps(ops, StampOf);
      NoNodes();
      for i := 0 to |sorted|
        invariant nodes == Replay(sorted[..i]) && CountsRight(nodes, childCount) && Acyclic(nodes)
        invariant children == map[] && history == ops
      {
        ReplayNext(sorted, i);
        Apply(sorted[i]);
      }
      assert sorted[..|sorted|] == sorted;
      TreeApart(ops);
      children := ListChildren(nodes);
    }

    /** One op of a replay. */
    method Apply(op: TreeOp)
      requires Acyclic(nodes) && CountsRight(nodes, childCount)
      modifies this`nodes, this`childCount
      ensures nodes == Step(old(nodes), op) && CountsRight(nodes, childCount) && Acyclic(nodes)
    {
      hide CountsRight, Acyclic, Above;
      StepAcyclic(nodes, op);
      var cyclic := Closes(op);
      if !cyclic {
        RecountRight(nodes, childCount, op.node, op.place);
        childCount := Recount(nodes, childCount, op.node, op.place.parent);
        nodes := nodes[op.node := op.place];
      }
    }

    /** Whether the op would make its node its own ancestor. */
    method Closes(op: TreeOp) returns (c: bool)
      requires Acyclic(nodes) && CountsRight(nodes, childCount)
      ensures c <==> Cyclic(nodes, op)
    {
      hide Acyclic, Above, ChildSet;
      var p := op.place.parent;
      if !p.Under? { return false; }
      assert CountAt(childCount, Under(op.node)) == |ChildSet(nodes, Under(op.node))|;
      SkipWalk(nodes, childCount, op.node, p.id);
      if p.id != op.node && CountAt(childCount, Under(op.node)) <= 0 { return false; }
      c := IsAncestor(op.node, p.id);
    }

    /** Whether node is parent or above it. */
    method IsAncestor(node: Id, parent: Id) returns (a: bool)
      requires Acyclic(nodes)
      ensures a <==> Above(nodes, node, parent)
    {
      hide Acyclic, Above, Up;
      var at, steps := Under(parent), 0;
      UpStart(nodes, parent);
      while at.Under? && steps <= |nodes|
        invariant 0 <= steps && Up(nodes, parent, steps) == (if at.Under? then Some(at.id) else None)
        invariant forall j: nat :: j < steps ==> Up(nodes, parent, j) != Some(node)
        decreases |nodes| + 1 - steps
      {
        if at.id == node {
          IsAbove(nodes, node, parent, steps);
          return true;
        }
        UpNext(nodes, parent, steps);
        if at.id !in nodes {
          NotAbove(nodes, node, parent, steps + 1);
          return false;
        }
        at := nodes[at.id].parent;
        steps := steps + 1;
      }
      if at.Under? { WalkEnds(nodes, parent, steps); }
      NotAbove(nodes, node, parent, steps);
      return false;
    }

    /** Decides Live(nodes, node). */
    method Alive(node: Id) returns (a: bool)
      requires Valid()
      ensures a <==> Live(nodes, node)
    {
      hide Acyclic, Live, Up, CountsRight, Indexed;
      TreeApart(history);
      var at, steps := node, 0;
      UpStart(nodes, node);
      while steps <= |nodes|
        invariant 0 <= steps && Up(nodes, node, steps) == Some(at)
        decreases |nodes| + 1 - steps
      {
        LiveHere(nodes, node, steps);
        UpNext(nodes, node, steps);
        if at !in nodes { return false; }
        match nodes[at].parent {
          case Trash => return false;
          case Top => return true;
          case Under(p) => at := p;
        }
        steps := steps + 1;
      }
      WalkEnds(nodes, node, steps);
      assert false;
    }

    /** Where among its siblings a place belongs, and whether the node there has that very place. */
    method Search(kids: seq<Id>, place: Place) returns (i: nat, found: bool)
      requires Ranked(nodes, kids)
      ensures i <= |kids| && (forall j :: 0 <= j < |kids| ==> kids[j] in nodes)
      ensures forall j :: 0 <= j < i ==> PlaceBefore(nodes[kids[j]], place)
      ensures forall j :: i <= j < |kids| ==> !PlaceBefore(nodes[kids[j]], place)
      ensures found <==> i < |kids| && !PlaceBefore(place, nodes[kids[i]])
    {
      hide PlaceBefore;
      i := 0;
      var j := |kids|;
      while i < j
        invariant 0 <= i <= j <= |kids|
        invariant forall k :: 0 <= k < i ==> PlaceBefore(nodes[kids[k]], place)
        invariant forall k :: j <= k < |kids| ==> !PlaceBefore(nodes[kids[k]], place)
      {
        var h := (i + j) / 2;
        if PlaceBefore(nodes[kids[h]], place) {
          LowerHalf(nodes, kids, place, h);
          i := h + 1;
        } else {
          UpperHalf(nodes, kids, place, h);
          j := h;
        }
      }
      found := i < |kids| && !PlaceBefore(place, nodes[kids[i]]);
    }

    /** The r with ListAt(children, parent)[r] == node; -1 for a node in no list. */
    method IndexOf(node: Id) returns (r: int)
      requires Valid()
      ensures r == -1 <==> node !in nodes || nodes[node].parent == Trash
      ensures r != -1 ==> 0 <= r < |ListAt(children, nodes[node].parent)| && ListAt(children, nodes[node].parent)[r] == node
    {
      hide Indexed, CountsRight, Ranked, PlaceBefore, Stamped;
      if node !in nodes || nodes[node].parent == Trash { return -1; }
      var kids := ListAt(children, nodes[node].parent);
      KidsAt(nodes, children, nodes[node].parent);
      TreeApart(history);
      var i, found := Search(kids, nodes[node]);
      FoundSelf(nodes, kids, node, i);
      return i;
    }

    /** Takes the node out of its parent's list. */
    method Unlink(node: Id)
      requires Indexed(nodes, children) && node in nodes && PlacedApart(nodes)
      modifies this`children
      ensures IndexedBut(nodes, children, node)
    {
      hide Indexed, IndexedBut, Ranked, PlaceBefore, PlacedApart;
      var p := nodes[node].parent;
      if p == Trash {
        NotListed(nodes, children, node);
        return;
      }
      var kids := ListAt(children, p);
      KidsAt(nodes, children, p);
      var i, found := Search(kids, nodes[node]);
      FoundSelf(nodes, kids, node, i);
      if found && kids[i] == node {
        Unlisted(nodes, children, node, i);
        children := children[p := Removed(kids, i)];
      }
    }

    /** Puts a local op into the index. Its lamport is the greatest yet, so this is the index that
        building from all ops, this one among them, would give. */
    method ApplyLocal(op: TreeOp)
      requires Valid() && forall x :: x in history ==> Sooner(x, op, StampOf)
      modifies this
      ensures Valid() && history == old(history) + [op] && nodes == Step(old(nodes), op)
    {
      hide Indexed, CountsRight, Stamped, Acyclic, Above, PlacedApart, Latest, IndexedBut, Replay;
      TreeApart(history);
      TreeLatest(history, op);
      TreeNext(history, op);
      StampedNext(history, op);
      history := history + [op];
      var cyclic := Closes(op);
      if cyclic { return; }
      if op.node in nodes {
        Unlink(op.node);
      } else {
        NotListed(nodes, children, op.node);
      }
      RecountRight(nodes, childCount, op.node, op.place);
      childCount := Recount(nodes, childCount, op.node, op.place.parent);
      if op.place.parent == Trash {
        InTrash(nodes, children, op.node, op.place);
        nodes := nodes[op.node := op.place];
      } else {
        Link(op.node, op.place);
      }
    }

    /** Puts the node at its place, and into the list there. */
    method Link(node: Id, place: Place)
      requires IndexedBut(nodes, children, node) && place.parent != Trash && Latest(nodes, place)
      modifies this`nodes, this`children
      ensures nodes == old(nodes)[node := place] && Indexed(nodes, children)
    {
      hide Indexed, IndexedBut, Ranked, PlaceBefore, Latest, Inserted;
      ButAt(nodes, children, node, place.parent);
      var kids := ListAt(children, place.parent);
      var i, found := Search(kids, place);
      BelongsHere(nodes, kids, i, place);
      Listed(nodes, children, node, place, i);
      nodes := nodes[node := place];
      children := children[place.parent := Inserted(kids, i, node)];
    }
  }

  // ----- walking up -----

  /** Its ancestors end at the top level. */
  ghost predicate Live(nodes: Places, x: Id) {
    exists k: nat :: EndsAt(nodes, x, k, Top)
  }

  ghost predicate EndsAt(nodes: Places, x: Id, k: nat, p: Parent) {
    var y := Up(nodes, x, k);
    y.Some? && y.value in nodes && nodes[y.value].parent == p
  }

  lemma {:induction false} UpStart(nodes: Places, x: Id)
    ensures Up(nodes, x, 0) == Some(x)
  {
  }

  lemma {:induction false} UpNext(nodes: Places, x: Id, k: nat)
    requires Up(nodes, x, k).Some?
    ensures var y := Up(nodes, x, k).value;
      Up(nodes, x, k + 1) == if y in nodes && nodes[y].parent.Under? then Some(nodes[y].parent.id) else None
  {
    UpAdd(nodes, x, k, 1);
    var y := Up(nodes, x, k).value;
    if y in nodes && nodes[y].parent.Under? { assert Up(nodes, y, 1) == Up(nodes, nodes[y].parent.id, 0); }
  }

  lemma {:induction false} IsAbove(nodes: Places, a: Id, x: Id, k: nat)
    requires Up(nodes, x, k) == Some(a)
    ensures Above(nodes, a, x)
  {
  }

  /** A walk that has ended without meeting a. */
  lemma {:induction false} NotAbove(nodes: Places, a: Id, x: Id, k: nat)
    requires Up(nodes, x, k) == None && forall j: nat :: j < k ==> Up(nodes, x, j) != Some(a)
    ensures !Above(nodes, a, x)
  {
    if Above(nodes, a, x) {
      var j: nat :| Up(nodes, x, j) == Some(a);
      if k < j { UpSome(nodes, x, k, j); }
    }
  }

  /** What the node met after k steps says about being live. */
  lemma {:induction false} LiveHere(nodes: Places, x: Id, k: nat)
    requires Up(nodes, x, k).Some?
    ensures var y := Up(nodes, x, k).value;
      && (y !in nodes || nodes[y].parent == Trash ==> !Live(nodes, x))
      && (y in nodes && nodes[y].parent == Top ==> Live(nodes, x))
  {
    hide Up;
    var y := Up(nodes, x, k).value;
    if y in nodes && nodes[y].parent == Top { assert EndsAt(nodes, x, k, Top); }
    if j: nat :| EndsAt(nodes, x, j, Top) { EndOnce(nodes, x, k, j); }
  }

  /** Before the end, every node met hangs under another. */
  lemma {:induction false} EndOnce(nodes: Places, x: Id, k: nat, j: nat)
    requires Up(nodes, x, k).Some? && EndsAt(nodes, x, j, Top)
    ensures k <= j
    ensures k < j ==> Up(nodes, x, k).value in nodes && nodes[Up(nodes, x, k).value].parent.Under?
  {
    UpNext(nodes, x, k);
    UpNext(nodes, x, j);
    if k < j { AfterEnd(nodes, x, k, j); }
    if j < k { AfterEnd(nodes, x, j, k); }
  }

  lemma {:induction false} AfterEnd(nodes: Places, x: Id, k: nat, j: nat)
    requires k < j && Up(nodes, x, j).Some?
    ensures Up(nodes, x, k + 1).Some?
  {
    if k + 1 < j { UpSome(nodes, x, k + 1, j); }
  }

  // ----- searching -----

  lemma {:induction false} LowerHalf(nodes: Places, kids: seq<Id>, place: Place, h: nat)
    requires Ranked(nodes, kids) && h < |kids| && PlaceBefore(nodes[kids[h]], place)
    ensures forall k :: 0 <= k <= h ==> PlaceBefore(nodes[kids[k]], place)
  {
    hide PlaceBefore;
    forall k | 0 <= k < h ensures PlaceBefore(nodes[kids[k]], place) { BeforeTrans(nodes[kids[k]], nodes[kids[h]], place); }
  }

  lemma {:induction false} UpperHalf(nodes: Places, kids: seq<Id>, place: Place, h: nat)
    requires Ranked(nodes, kids) && h < |kids| && !PlaceBefore(nodes[kids[h]], place)
    ensures forall k :: h <= k < |kids| ==> !PlaceBefore(nodes[kids[k]], place)
  {
    hide PlaceBefore;
    forall k | h < k < |kids| ensures !PlaceBefore(nodes[kids[k]], place) {
      if PlaceBefore(nodes[kids[k]], place) { BeforeTrans(nodes[kids[h]], nodes[kids[k]], place); }
    }
  }

  /** Searching for a listed node's own place finds the node. */
  lemma {:induction false} FoundSelf(nodes: Places, kids: seq<Id>, node: Id, i: nat)
    requires Ranked(nodes, kids) && node in kids && node in nodes && i <= |kids|
    requires forall j :: 0 <= j < i ==> PlaceBefore(nodes[kids[j]], nodes[node])
    requires forall j :: i <= j < |kids| ==> !PlaceBefore(nodes[kids[j]], nodes[node])
    ensures i < |kids| && kids[i] == node && !PlaceBefore(nodes[node], nodes[kids[i]])
  {
    hide PlaceBefore;
    BeforeOne(nodes[node], nodes[node]);
    var k :| 0 <= k < |kids| && kids[k] == node;
    assert i <= k;
    RankedAt(nodes, kids, i, k);
  }

  lemma {:induction false} RankedAt(nodes: Places, kids: seq<Id>, i: nat, k: nat)
    requires Ranked(nodes, kids) && i <= k < |kids|
    ensures i < k ==> PlaceBefore(nodes[kids[i]], nodes[kids[k]])
  {
  }

  /** A place later than all belongs where the search for it ends. */
  lemma {:induction false} BelongsHere(nodes: Places, kids: seq<Id>, i: nat, place: Place)
    requires Ranked(nodes, kids) && Latest(nodes, place) && i <= |kids|
    requires forall j :: 0 <= j < i ==> PlaceBefore(nodes[kids[j]], place)
    requires forall j :: i <= j < |kids| ==> !PlaceBefore(nodes[kids[j]], place)
    ensures Belongs(nodes, kids, i, place)
  {
    hide PlaceBefore;
    forall j | i <= j < |kids| ensures PlaceBefore(place, nodes[kids[j]]) { BeforeOne(place, nodes[kids[j]]); }
  }

  // ----- building -----

  lemma {:induction false} NoNodes()
    ensures CountsRight(map[], map[]) && Acyclic(map[]) && Replay([]) == map[]
  {
    NothingCyclic();
    forall p: Parent ensures CountAt(map[], p) == |ChildSet(map[], p)| { assert ChildSet(map[], p) == {}; }
  }

  /** Each parent's children, gathered in any order and then sorted. */
  method ListChildren(nodes: Places) returns (children: map<Parent, seq<Id>>)
    requires PlacedApart(nodes)
    ensures Indexed(nodes, children)
  {
    hide PlacedApart;
    children := map[];
    var rest := nodes.Keys;
    while rest != {}
      invariant rest <= nodes.Keys
      invariant forall p: Parent :: p != Trash ==> Gathered(nodes, rest, p, ListAt(children, p))
      decreases |rest|
    {
      var id :| id in rest;
      var p := nodes[id].parent;
      if p != Trash {
        GatherOne(nodes, rest, children, id);
        children := children[p := ListAt(children, p) + [id]];
      } else {
        SkipOne(nodes, rest, children, id);
      }
      rest := rest - {id};
    }
    children := SortAll(nodes, children);
  }

  /** Sorts every list. */
  method SortAll(nodes: Places, lists: map<Parent, seq<Id>>) returns (children: map<Parent, seq<Id>>)
    requires PlacedApart(nodes) && forall p: Parent :: p != Trash ==> Gathered(nodes, {}, p, ListAt(lists, p))
    ensures Indexed(nodes, children)
  {
    hide Kids, Gathered, PlacedApart;
    children := lists;
    var left := lists.Keys;
    forall p: Parent | p != Trash && p !in left ensures Kids(nodes, p, ListAt(children, p)) {
      assert Gathered(nodes, {}, p, ListAt(lists, p));
      NoKids(nodes, p);
    }
    while left != {}
      invariant forall p: Parent :: p != Trash && p !in left ==> Kids(nodes, p, ListAt(children, p))
      decreases |left|
    {
      var p :| p in left;
      if p != Trash {
        assert Gathered(nodes, {}, p, ListAt(lists, p));
        var sorted := SortKids(nodes, p, ListAt(lists, p));
        children := children[p := sorted];
      }
      left := left - {p};
    }
  }

  /** A list in order, whatever order it was gathered in. */
  method SortKids(nodes: Places, p: Parent, kids: seq<Id>) returns (r: seq<Id>)
    requires PlacedApart(nodes) && Gathered(nodes, {}, p, kids)
    ensures Kids(nodes, p, r)
  {
    hide PlacedApart, PlaceBefore, Ranked, Gathered, Inserted;
    r := [];
    NoneRanked(nodes);
    for k := 0 to |kids|
      invariant Ranked(nodes, r) && forall x: Id :: x in r <==> x in kids[..k]
    {
      var n := kids[k];
      NewKid(nodes, p, kids, k);
      var i := Position(nodes, r, n);
      InsertRanked(nodes, r, i, n);
      r := Inserted(r, i, n);
      assert kids[..k + 1] == kids[..k] + [n];
    }
    assert kids[..|kids|] == kids;
    AllGathered(nodes, p, kids);
  }

  method Position(nodes: Places, kids: seq<Id>, n: Id) returns (i: nat)
    requires PlacedApart(nodes) && Ranked(nodes, kids) && n in nodes && n !in kids
    ensures i <= |kids| && (forall j :: 0 <= j < |kids| ==> kids[j] in nodes)
    ensures forall j :: 0 <= j < i ==> PlaceBefore(nodes[kids[j]], nodes[n])
    ensures forall j :: i <= j < |kids| ==> PlaceBefore(nodes[n], nodes[kids[j]])
  {
    hide PlaceBefore, PlacedApart;
    i := 0;
    while i < |kids| && PlaceBefore(nodes[kids[i]], nodes[n])
      invariant i <= |kids| && forall j :: 0 <= j < i ==> PlaceBefore(nodes[kids[j]], nodes[n])
    {
      i := i + 1;
    }
    if i < |kids| { RestAfter(nodes, kids, n, i); }
  }

  lemma {:induction false} RestAfter(nodes: Places, kids: seq<Id>, n: Id, i: nat)
    requires PlacedApart(nodes) && Ranked(nodes, kids) && n in nodes && n !in kids && i < |kids| && !PlaceBefore(nodes[kids[i]], nodes[n])
    ensures forall j :: i <= j < |kids| ==> PlaceBefore(nodes[n], nodes[kids[j]])
  {
    hide PlaceBefore;
    UpperHalf(nodes, kids, nodes[n], i);
    forall j | i <= j < |kids| ensures PlaceBefore(nodes[n], nodes[kids[j]]) {
      assert kids[j] in kids;
      BeforeOne(nodes[kids[j]], nodes[n]);
    }
  }

  lemma {:induction false} NoneRanked(nodes: Places)
    ensures Ranked(nodes, [])
  {
  }

  lemma {:induction false} NoKids(nodes: Places, p: Parent)
    requires Gathered(nodes, {}, p, [])
    ensures Kids(nodes, p, [])
  {
    NoneRanked(nodes);
  }

  lemma {:induction false} NewKid(nodes: Places, p: Parent, kids: seq<Id>, k: nat)
    requires Gathered(nodes, {}, p, kids) && k < |kids|
    ensures kids[k] in nodes && kids[k] !in kids[..k]
  {
    assert kids[k] in kids;
  }

  lemma {:induction false} AllGathered(nodes: Places, p: Parent, kids: seq<Id>)
    requires Gathered(nodes, {}, p, kids)
    ensures forall x: Id :: x in kids <==> x in nodes && nodes[x].parent == p
  {
  }

  lemma {:induction false} GatherOne(nodes: Places, rest: set<Id>, lists: map<Parent, seq<Id>>, id: Id)
    requires id in rest && id in nodes && nodes[id].parent != Trash
    requires forall p: Parent :: p != Trash ==> Gathered(nodes, rest, p, ListAt(lists, p))
    ensures var q := nodes[id].parent; var more := lists[q := ListAt(lists, q) + [id]];
      forall p: Parent :: p != Trash ==> Gathered(nodes, rest - {id}, p, ListAt(more, p))
  {
    var q := nodes[id].parent;
    var more := lists[q := ListAt(lists, q) + [id]];
    forall p: Parent | p != Trash ensures Gathered(nodes, rest - {id}, p, ListAt(more, p)) {
      assert Gathered(nodes, rest, p, ListAt(lists, p));
    }
  }

  lemma {:induction false} SkipOne(nodes: Places, rest: set<Id>, lists: map<Parent, seq<Id>>, id: Id)
    requires id in rest && id in nodes && nodes[id].parent == Trash
    requires forall p: Parent :: p != Trash ==> Gathered(nodes, rest, p, ListAt(lists, p))
    ensures forall p: Parent :: p != Trash ==> Gathered(nodes, rest - {id}, p, ListAt(lists, p))
  {
    forall p: Parent | p != Trash ensures Gathered(nodes, rest - {id}, p, ListAt(lists, p)) {
      assert Gathered(nodes, rest, p, ListAt(lists, p));
    }
  }

  /** The list holds the nodes under p that are not waiting, each once. */
  ghost predicate Gathered(nodes: Places, rest: set<Id>, p: Parent, kids: seq<Id>) {
    && (forall x: Id :: x in kids <==> x in nodes && nodes[x].parent == p && x !in rest)
    && (forall i, j :: 0 <= i < j < |kids| ==> kids[i] != kids[j])
  }
}
