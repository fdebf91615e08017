/** Elements of a merged Text, List or MovableList, and what an author had seen of them. */
module SeqTypes {
  import opened Common

  /** The atoms known to an author: those below `vv`, and the author's own below `own`. */
  datatype View = View(vv: map<nat, int>, peer: nat, own: int) {
    predicate Has(id: Id) {
      (id.peer == peer && id.counter < own) || (id.peer in vv && id.counter < vv[id.peer])
    }
  }

  /** The (lamport, peer) of a write; the later one wins. */
  datatype Writer = Writer(lamport: int, peer: nat) {
    predicate After(b: Writer) {
      if lamport != b.lamport then lamport > b.lamport else peer > b.peer
    }
  }

  /** A MovableList element is named by its creator and the lamport of its insert. */
  datatype ElemKey = ElemKey(peer: nat, lamport: int)

  datatype MarkInfo = MarkInfo(start: int, len: int, key: Value, value: Option<Value>)

  datatype Cell =
    | Plain(value: Value)
    | Position(elem: ElemKey)
    | StartAnchor(info: MarkInfo, writer: Writer)
    | EndAnchor

  /** One element. `left` and `right` are its origins: its neighbours among what its author had, where
      `left` was visible and `right` need not be.
      `deleters` are the delete atoms that removed it. */
  datatype Node = Node(id: Id, left: Option<Id>, right: Option<Id>, cell: Cell, deleters: set<Id>)

  predicate Removed(n: Node, v: View) {
    exists d :: d in n.deleters && v.Has(d)
  }

  predicate Visible(n: Node, v: View) {
    v.Has(n.id) && !Removed(n, v)
  }

  ghost function Ids(nodes: seq<Node>): set<Id> {
    set i | 0 <= i < |nodes| :: nodes[i].id
  }

  ghost predicate Distinct(nodes: seq<Node>) {
    forall i, j :: 0 <= i < j < |nodes| ==> nodes[i].id != nodes[j].id
  }

  /** The index of the node named `id`. */
  ghost function IndexOf(nodes: seq<Node>, id: Id): (i: int)
    ensures id in Ids(nodes) ==> 0 <= i < |nodes| && nodes[i].id == id
    ensures id !in Ids(nodes) ==> i == -1
  {
    if id in Ids(nodes) then
      var i :| 0 <= i < |nodes| && nodes[i].id == id;
      i
    else -1
  }

  lemma {:induction false} IndexOfIs(nodes: seq<Node>, i: nat)
    requires Distinct(nodes) && i < |nodes|
    ensures nodes[i].id in Ids(nodes) && IndexOf(nodes, nodes[i].id) == i
  {
  }
}
