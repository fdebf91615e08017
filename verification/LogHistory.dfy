/** Changes of an honest history: what any copy or part of one says is what the history says. */
module LogHistory {
  import opened Common
  import opened SeqTypes
  import opened CausalHistory
  import opened IdLists
  import opened Ops
  import opened Folding
  import opened Changes
  import opened Blocks

  const MAX_LAMPORT := 0xFFFF_FFFF

  /** An atom's lamport is one past the highest it depends on, 0 where it depends on none. */
  ghost predicate Tight(h: History)
    requires Closed(h)
  {
    forall x :: x in h ==> h[x].lamport < MAX_LAMPORT && (if h[x].deps == {} then h[x].lamport == 0 else TopDep(h, x))
  }

  ghost predicate TopDep(h: History, x: Id)
    requires Closed(h) && x in h
  {
    exists d :: d in h[x].deps && h[x].lamport == h[d].lamport + 1
  }

  /** The whole history: each atom with what it does. */
  datatype World = World(h: History, does: map<Id, What>)

  ghost predicate Honest(w: World) {
    Complete(w.h) && Tight(w.h) && w.does.Keys == w.h.Keys
  }

  ghost function EntryOf(w: World, x: Id): Entry
    requires x in w.h && x in w.does
  {
    Entry(w.does[x], w.h[x].lamport, w.h[x].deps)
  }

  /** A copy of a change, or of part of one, that tells the history as it is. */
  ghost predicate Told(w: World, c: Change) {
    && Formed(c) && c.id.counter >= 0
    && (forall k :: 0 <= k < |Entries(c)| ==> ToldAtom(w, c, k))
  }

  ghost predicate ToldAtom(w: World, c: Change, k: nat)
    requires k < |Entries(c)|
  {
    var x := Id(c.id.peer, c.id.counter + k);
    x in w.h && x in w.does && Entries(c)[k] == EntryOf(w, x)
  }

  ghost function AsSeq(c: Change): SeqChange { SeqChange(c, c.id.counter, ChangeEnd(c), []) }

  predicate Within(c: Change, x: Id) { x.peer == c.id.peer && c.id.counter <= x.counter < ChangeEnd(c) }

  lemma {:induction false} ToldTells(w: World, c: Change)
    requires Told(w, c)
    ensures Tells(w.h, AsSeq(c)) && c.id in w.h && Within(c, c.id) && Within(c, LastId(c))
    ensures w.h[c.id].deps == IdSet(c.deps) && w.h[c.id].lamport == c.lamport
    ensures |Entries(c)| == ChangeEnd(c) - c.id.counter > 0
  {
    hide Joined;
    FormedSize(c);
    EntryCount(c);
    assert ToldAtom(w, c, 0);
    EntryAt(c, 0);
    forall k | c.id.counter <= k < ChangeEnd(c) ensures TellsAtom(w.h, AsSeq(c), k) {
      assert ToldAtom(w, c, k - c.id.counter);
      EntryAt(c, k - c.id.counter);
    }
  }

  /** An own-peer dep of a change is the atom just before it. */
  lemma {:induction false} OwnDep(w: World, c: Change)
    requires Honest(w) && Told(w, c) && |c.deps| == 1 && c.deps[0].peer == c.id.peer
    ensures c.id.counter > 0 && c.deps == [Prev(c.id)] && Prev(c.id) in w.h && c.lamport == w.h[Prev(c.id)].lamport + 1
  {
    hide Told, Past, Closed, CausalHistory.OwnSeen, Tight;
    ToldTells(w, c);
    OneId(c.deps[0]);
    assert c.deps == [c.deps[0]];
    OnlyOwn(w.h, c.deps[0], c.id);
  }

  lemma {:induction false} OnlyOwn(h: History, d: Id, x: Id)
    requires Complete(h) && Tight(h) && x in h && h[x].deps == {d} && d.peer == x.peer
    ensures d in h && d == Prev(x) && x.counter > 0 && h[x].lamport == h[d].lamport + 1
  {
    hide Past, Tight;
    DirectPast(h, d, x);
    PastIn(h, d, x);
    NotLater(h, d, x);
    OnlyDep(h, d, x);
    OnlyTop(h, d, x);
  }

  lemma {:induction false} NotLater(h: History, d: Id, x: Id)
    requires Complete(h) && Past(h, d, x) && d.peer == x.peer
    ensures d.counter < x.counter
  {
    hide Past;
    PastIn(h, d, x);
    if d.counter > x.counter { OwnPast(h, x, d); PastIn(h, x, d); }
  }

  lemma {:induction false} DirectPast(h: History, d: Id, x: Id)
    requires Closed(h) && x in h && d in h[x].deps
    ensures Past(h, d, x)
  {
  }

  lemma {:induction false} OnlyDep(h: History, d: Id, x: Id)
    requires Complete(h) && x in h && h[x].deps == {d} && d in h && d.peer == x.peer && d.counter < x.counter
    ensures d == Prev(x) && x.counter > 0
  {
    assert d.counter >= 0 && Past(h, Prev(x), x);
    if d != Prev(x) {
      assert Past(h, Prev(x), d);
      PastIn(h, Prev(x), d);
      OwnPast(h, d, Prev(x));
      PastIn(h, d, Prev(x));
    }
  }

  lemma {:induction false} OnlyTop(h: History, d: Id, x: Id)
    requires Complete(h) && Tight(h) && x in h && h[x].deps == {d} && d in h
    ensures h[x].lamport == h[d].lamport + 1
  {
    assert TopDep(h, x);
  }

  /** A part of a told change is told. */
  lemma {:induction false} SliceTold(w: World, c: Change, from: nat)
    requires Told(w, c) && from < |Entries(c)|
    ensures var s := Slice(c, from, |Entries(c)|);
      && Told(w, s) && s.id == Id(c.id.peer, c.id.counter + from) && ChangeEnd(s) == ChangeEnd(c)
      && Entries(s) == Entries(c)[from..]
  {
    hide Formed, Entries, ToldAtom;
    SliceKeeps(c, from, |Entries(c)|);
    var s := Slice(c, from, |Entries(c)|);
    EntryCount(c);
    forall k | 0 <= k < |Entries(s)| ensures ToldAtom(w, s, k) { SliceAtom(w, c, s, from, k); }
  }

  lemma {:induction false} SliceAtom(w: World, c: Change, s: Change, from: nat, k: nat)
    requires from + k < |Entries(c)| && Entries(s) == Entries(c)[from..] && s.id == Id(c.id.peer, c.id.counter + from)
    requires ToldAtom(w, c, from + k)
    ensures ToldAtom(w, s, k)
  {
  }

  // ----- lamports -----

  /** The same change with its lamports counted from l on. */
  function SetLamport(c: Change, l: nat): Change {
    c.(lamport := l, ops := OpsAt(c.ops, c.id.counter, l))
  }

  function OpsAt(ops: seq<Op>, at: int, l: int): seq<Op> {
    if ops == [] then [] else
      var op := ops[|ops| - 1];
      OpsAt(ops[..|ops| - 1], at, l) + [op.(lamport := l + (op.id.counter - at))]
  }

  lemma {:induction false} SameLamport(c: Change)
    requires Formed(c)
    ensures SetLamport(c, c.lamport) == c
  {
    SameOps(c.ops, c.id, c.lamport);
  }

  lemma {:induction false} SameOps(ops: seq<Op>, at: Id, l: int)
    requires Row(ops, at, l)
    ensures OpsAt(ops, at.counter, l) == ops
  {
    hide Atoms;
    if ops != [] { SameOps(ops[..|ops| - 1], at, l); }
  }

  // ----- sets of atoms -----

  /** All that comes before an atom of the set is in it. */
  ghost predicate DownClosed(h: History, s: set<Id>) {
    && (forall x :: x in s ==> x in h)
    && (forall x, d :: x in s && d in h[x].deps ==> d in s)
  }

  lemma {:induction false} ClosedPast(h: History, s: set<Id>, x: Id, y: Id)
    requires Closed(h) && DownClosed(h, s) && y in s && Past(h, x, y)
    ensures x in s
    decreases h[y].lamport
  {
    var d :| d in h[y].deps && (x == d || Past(h, x, d));
    if x != d { ClosedPast(h, s, x, d); }
  }

  /** No atom of the set comes after x. */
  ghost predicate Maximal(h: History, s: set<Id>, x: Id)
    requires Closed(h)
  {
    x in s && forall y :: y in s ==> !Past(h, x, y)
  }

  ghost function After(h: History, s: set<Id>, x: Id): set<Id>
    requires Closed(h)
  {
    set y | y in s && Past(h, x, y)
  }

  /** Every atom lies at or before a maximal one. */
  lemma {:induction false} BelowMaximal(h: History, s: set<Id>, x: Id) returns (m: Id)
    requires Closed(h) && x in s
    ensures Maximal(h, s, m) && AtOrPast(h, x, m)
    decreases |After(h, s, x)|
  {
    hide Past;
    if Maximal(h, s, x) {
      m := x;
    } else {
      var y :| y in s && Past(h, x, y);
      forall z | z in After(h, s, y) ensures z in After(h, s, x) { PastTrans(h, x, y, z); }
      if y in After(h, s, y) { PastIn(h, y, y); }
      Smaller(After(h, s, y), After(h, s, x), y);
      m := BelowMaximal(h, s, y);
      AtTrans(h, x, y, m);
    }
  }

  lemma {:induction false} Smaller<T>(a: set<T>, b: set<T>, x: T)
    requires a <= b && x in b && x !in a
    ensures |a| < |b|
  {
    assert b == a + (b - a) && |b - a| > 0 by { assert x in b - a; }
  }
}
