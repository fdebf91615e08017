/** A history atom by atom: what each atom depends on, and so what its author had seen. */
module CausalHistory {
  import opened Common
  import opened SeqTypes
  import opened Ops
  import opened IdLists

  /** What a history says of one atom: its lamport, and the ids it directly depends on. */
  datatype Atom = Atom(lamport: nat, deps: set<Id>)

  type History = map<Id, Atom>

  /** Deps are there and have lower lamports. */
  ghost predicate Closed(h: History) {
    forall x, d :: x in h && d in h[x].deps ==> d in h && h[d].lamport < h[x].lamport
  }

  /** x lies in the causal past of y. */
  ghost predicate Past(h: History, x: Id, y: Id)
    requires Closed(h)
    decreases if y in h then h[y].lamport else 0
  {
    y in h && exists d :: d in h[y].deps && (x == d || Past(h, x, d))
  }

  ghost predicate AtOrPast(h: History, x: Id, y: Id)
    requires Closed(h)
  {
    x == y || Past(h, x, y)
  }

  /** An author's own previous atom lies in the past of each atom. */
  ghost predicate OwnSeen(h: History)
    requires Closed(h)
  {
    forall x :: x in h ==> x.counter >= 0 && (x.counter > 0 ==> Past(h, Prev(x), x))
  }

  function Prev(x: Id): Id { Id(x.peer, x.counter - 1) }

  /** Honest and causally complete: deps are present, an author has its own earlier atoms. */
  ghost predicate Complete(h: History) {
    Closed(h) && OwnSeen(h)
  }

  lemma {:induction false} PastIn(h: History, x: Id, y: Id)
    requires Closed(h) && Past(h, x, y)
    ensures x in h && y in h && h[x].lamport < h[y].lamport
    decreases h[y].lamport
  {
    var d :| d in h[y].deps && (x == d || Past(h, x, d));
    if x != d { PastIn(h, x, d); }
  }

  lemma {:induction false} PastTrans(h: History, x: Id, y: Id, z: Id)
    requires Closed(h) && Past(h, x, y) && Past(h, y, z)
    ensures Past(h, x, z)
    decreases h[z].lamport
  {
    var d :| d in h[z].deps && (y == d || Past(h, y, d));
    if y != d { PastTrans(h, x, y, d); }
  }

  lemma {:induction false} AtTrans(h: History, x: Id, y: Id, z: Id)
    requires Closed(h) && AtOrPast(h, x, y) && AtOrPast(h, y, z)
    ensures AtOrPast(h, x, z)
  {
    if x != y && y != z { PastTrans(h, x, y, z); }
  }

  lemma {:induction false} AtPast(h: History, x: Id, y: Id, z: Id)
    requires Closed(h) && AtOrPast(h, x, y) && Past(h, y, z)
    ensures Past(h, x, z)
  {
    if x != y { PastTrans(h, x, y, z); }
  }

  /** An author's atoms lie in each other's past in counter order. */
  lemma {:induction false} OwnPast(h: History, x: Id, y: Id)
    requires Complete(h) && y in h && x.peer == y.peer && 0 <= x.counter < y.counter
    ensures Past(h, x, y)
    decreases y.counter
  {
    PastIn(h, Prev(y), y);
    if x != Prev(y) {
      OwnPast(h, x, Prev(y));
      PastTrans(h, x, Prev(y), y);
    }
  }

  lemma {:induction false} PastDown(h: History, x: Id, w: Id, y: Id)
    requires Complete(h) && Past(h, x, y) && w.peer == x.peer && 0 <= w.counter <= x.counter
    ensures Past(h, w, y)
  {
    PastIn(h, x, y);
    if w != x {
      OwnPast(h, w, x);
      PastTrans(h, w, x, y);
    }
  }

  // ----- version vectors -----

  /** Whether a version vector reaches x. */
  predicate Covers(v: map<nat, int>, x: Id) {
    x.peer in v && x.counter < v[x.peer]
  }

  /** v is just what lies in the past of y: one entry per author, past its last atom. */
  ghost predicate IsVersion(h: History, v: map<nat, int>, y: Id)
    requires Closed(h)
  {
    && (forall x :: x in h ==> (Covers(v, x) <==> Past(h, x, y)))
    && (forall p :: p in v ==> v[p] > 0 && Id(p, v[p] - 1) in h)
  }

  // ----- changes -----

  datatype Change = Change(id: Id, lamport: nat, deps: seq<Id>, ops: seq<Op>)

  /** A change as it arrived, the ids it takes, and those of its ops no earlier copy brought. */
  datatype SeqChange = SeqChange(ch: Change, start: int, end: int, news: seq<Op>)

  /** The change's atoms are those of the history. */
  ghost predicate Tells(h: History, c: SeqChange) {
    && 0 <= c.start < c.end && c.ch.id.counter == c.start
    && (forall k :: c.start <= k < c.end ==> TellsAtom(h, c, k))
  }

  ghost predicate TellsAtom(h: History, c: SeqChange, k: int) {
    var x := Id(c.ch.id.peer, k);
    && x in h
    && h[x].lamport == c.ch.lamport + (k - c.start)
    && h[x].deps == (if k == c.start then IdSet(c.ch.deps) else {Prev(x)})
  }

  function First(c: SeqChange): Id { Id(c.ch.id.peer, c.start) }

  predicate Holds(c: SeqChange, x: Id) {
    x.peer == c.ch.id.peer && c.start <= x.counter < c.end
  }

  /** What comes before an atom of a change: the change's earlier atoms, and what came before
      the change. */
  lemma {:induction false} BeforeInside(h: History, c: SeqChange, x: Id, y: Id)
    requires Closed(h) && Tells(h, c) && Holds(c, y)
    ensures Past(h, x, y) <==> (Holds(c, x) && x.counter < y.counter) || Past(h, x, First(c))
    decreases y.counter
  {
    assert TellsAtom(h, c, y.counter);
    if y.counter > c.start {
      assert h[y].deps == {Prev(y)};
      BeforeInside(h, c, x, Prev(y));
      assert Past(h, x, y) <==> x == Prev(y) || Past(h, x, Prev(y));
    }
  }

  lemma {:induction false} LamportInside(h: History, c: SeqChange, x: Id)
    requires Tells(h, c) && Holds(c, x)
    ensures x in h && h[x].lamport == c.ch.lamport + (x.counter - c.start)
    ensures First(c) in h && h[First(c)].lamport == c.ch.lamport && h[First(c)].deps == IdSet(c.ch.deps)
  {
    assert TellsAtom(h, c, x.counter) && TellsAtom(h, c, c.start);
  }
}
