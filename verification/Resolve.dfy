/** Building the value of every container the roots reach, each once, children filled in afterwards. */
module Resolvers {
  import opened Common
  import opened ContainerGraphs

  /** The object shown for a container: `slots` are where its children's objects go. */
  class Shown {
    const key: Id
    const slots: array<Shown?>

    constructor (key: Id, n: nat)
      ensures this.key == key && slots.Length == n && fresh(slots)
    {
      this.key := key;
      slots := new Shown?[n](_ => null);
    }
  }

  datatype ChildSlot = ChildSlot(owner: Shown, index: nat, child: Id)

  datatype State = OnPath | Built

  datatype Frame = Frame(key: Id, next: nat)

  datatype Failure = OwnAncestor(key: Id) | Unsupported(key: Id)

  ghost function KeysOf(stack: seq<Frame>): (r: seq<Id>)
    ensures |r| == |stack| && forall i :: 0 <= i < |r| ==> r[i] == stack[i].key
  {
    seq(|stack|, i requires 0 <= i < |stack| => stack[i].key)
  }

  // ----- the walk -----

  /** A frame's children before the next one are done, but for the last of them while it is on the path. */
  ghost predicate FrameRight(g: Graph, done: seq<Id>, f: Frame, below: Option<Id>) {
    && f.next <= |Kids(g, f.key)|
    && match below
       case None => forall i :: 0 <= i < f.next ==> Kids(g, f.key)[i] in done
       case Some(c) => f.next > 0 && Kids(g, f.key)[f.next - 1] == c && forall i :: 0 <= i < f.next - 1 ==> Kids(g, f.key)[i] in done
  }

  ghost function BelowAt(stack: seq<Frame>, i: nat): Option<Id> { if i + 1 < |stack| then Some(stack[i + 1].key) else None }

  ghost predicate StackRight(g: Graph, done: seq<Id>, stack: seq<Frame>) {
    && (forall i :: 0 <= i < |stack| ==> FrameRight(g, done, stack[i], BelowAt(stack, i)))
    && DistinctIn(KeysOf(stack) + done) && (stack != [] ==> Path(g, KeysOf(stack)))
  }

  /** What is seen is on the path or done, and reachable. */
  ghost predicate SeenRight(g: Graph, roots: seq<Id>, state: map<Id, State>, done: seq<Id>, stack: seq<Frame>) {
    && (forall k :: k in state && state[k] == Built <==> k in done)
    && (forall k :: k in state && state[k] == OnPath <==> k in KeysOf(stack))
    && (forall k :: k in state ==> Reachable(g, roots, k) && !Unshown(g, k) && k in Universe(g, roots))
  }

  /** Going one child further in the top frame, which is done. */
  lemma {:induction false} Advance(g: Graph, done: seq<Id>, stack: seq<Frame>, top: Frame)
    requires StackRight(g, done, stack) && stack != [] && top == stack[|stack| - 1] && top.next < |Kids(g, top.key)|
    requires Kids(g, top.key)[top.next] in done
    ensures StackRight(g, done, stack[..|stack| - 1] + [Frame(top.key, top.next + 1)])
  {
    hide Path;
    var now := stack[..|stack| - 1] + [Frame(top.key, top.next + 1)];
    assert KeysOf(now) == KeysOf(stack);
    forall i | 0 <= i < |now| ensures FrameRight(g, done, now[i], BelowAt(now, i)) {
      assert FrameRight(g, done, stack[i], BelowAt(stack, i));
    }
  }

  /** Going down into a child not seen yet. */
  lemma {:induction false} Descend(g: Graph, done: seq<Id>, stack: seq<Frame>, top: Frame, c: Id)
    requires StackRight(g, done, stack) && stack != [] && top == stack[|stack| - 1] && top.next < |Kids(g, top.key)|
    requires c == Kids(g, top.key)[top.next] && c !in KeysOf(stack) && c !in done
    ensures StackRight(g, done, stack[..|stack| - 1] + [Frame(top.key, top.next + 1)] + [Frame(c, 0)])
  {
    hide Path;
    var now := stack[..|stack| - 1] + [Frame(top.key, top.next + 1)] + [Frame(c, 0)];
    assert KeysOf(now) == KeysOf(stack) + [c];
    assert Child(g, top.key, c);
    PathMore(g, KeysOf(stack), c);
    PutBetween(KeysOf(stack), c, done);
    forall i | 0 <= i < |now| ensures FrameRight(g, done, now[i], BelowAt(now, i)) {
      if i < |stack| { assert FrameRight(g, done, stack[i], BelowAt(stack, i)); }
    }
  }

  lemma {:induction false} PutBetween(a: seq<Id>, c: Id, b: seq<Id>)
    requires DistinctIn(a + b) && c !in a && c !in b
    ensures DistinctIn(a + [c] + b)
  {
    var s, t := a + [c] + b, a + b;
    forall i, j | 0 <= i < j < |s| ensures s[i] != s[j] {
      if i != |a| && j != |a| { assert t[if i < |a| then i else i - 1] != t[if j < |a| then j else j - 1]; }
    }
  }

  lemma {:induction false} FirstFrame(g: Graph, done: seq<Id>, k: Id)
    requires StackRight(g, done, []) && k !in done
    ensures StackRight(g, done, [Frame(k, 0)])
  {
    assert KeysOf([]) + done == done && KeysOf([Frame(k, 0)]) == [k];
    assert [k] == [] + [k];
    PutBetween([], k, done);
  }

  /** The top frame, all its children done, is done too. */
  lemma {:induction false} Finish(g: Graph, done: seq<Id>, stack: seq<Frame>, top: Frame)
    requires StackRight(g, done, stack) && Settled(g, done) && stack != [] && top == stack[|stack| - 1] && top.next == |Kids(g, top.key)|
    ensures StackRight(g, done + [top.key], stack[..|stack| - 1]) && Settled(g, done + [top.key])
    ensures DistinctIn(done + [top.key])
  {
    hide Path;
    var last := |stack| - 1;
    var now, more := stack[..last], done + [top.key];
    assert FrameRight(g, done, stack[last], BelowAt(stack, last));
    forall i, c | 0 <= i < |more| && Child(g, more[i], c) ensures c in more[..i] {
      if i < |done| { assert more[..i] == done[..i] && more[i] == done[i]; } else { assert more[..i] == done; }
    }
    assert KeysOf(stack) == KeysOf(now) + [top.key];
    MoveEnd(KeysOf(now), top.key, done);
    forall i | 0 <= i < |now| ensures FrameRight(g, more, now[i], BelowAt(now, i)) { assert FrameRight(g, done, stack[i], BelowAt(stack, i)); }
    if now != [] {
      PathPart(g, KeysOf(stack), 0, last);
      assert KeysOf(now) == KeysOf(stack)[0..last];
    }
  }

  lemma {:induction false} MoveEnd(a: seq<Id>, k: Id, b: seq<Id>)
    requires DistinctIn(a + [k] + b)
    ensures DistinctIn(a + (b + [k])) && DistinctIn(b + [k])
  {
    var t, s := a + [k] + b, a + (b + [k]);
    forall i, j | 0 <= i < j < |s| ensures s[i] != s[j] { TwoPlaces(a, k, b, i, j); }
    var u := b + [k];
    forall i, j | 0 <= i < j < |u| ensures u[i] != u[j] { assert u[i] == s[|a| + i] && u[j] == s[|a| + j]; }
  }

  lemma {:induction false} TwoPlaces(a: seq<Id>, k: Id, b: seq<Id>, i: nat, j: nat)
    requires DistinctIn(a + [k] + b) && i < j < |a| + |b| + 1
    ensures (a + (b + [k]))[i] != (a + (b + [k]))[j]
  {
    var t := a + [k] + b;
    var x := if i < |a| then i else if i < |a| + |b| then i + 1 else |a|;
    var y := if j < |a| then j else if j < |a| + |b| then j + 1 else |a|;
    assert (a + (b + [k]))[i] == t[x] && (a + (b + [k]))[j] == t[y];
    assert if x < y then t[x] != t[y] else t[y] != t[x];
  }

  // ----- the values -----

  /** One value a container seen, of its own, with a slot a child. */
  ghost predicate ValuesRight(g: Graph, vals: map<Id, Shown>) {
    && (forall k :: k in vals ==> vals[k].key == k && vals[k].slots.Length == |Kids(g, k)|)
    && (forall k, l :: k in vals && l in vals && k != l ==> vals[k].slots != vals[l].slots)
  }

  ghost predicate SlotRight(g: Graph, vals: map<Id, Shown>, s: ChildSlot) {
    && s.owner.key in vals && vals[s.owner.key] == s.owner && s.index < |Kids(g, s.owner.key)|
    && s.child == Kids(g, s.owner.key)[s.index]
  }

  /** Every slot of every value is listed with its child. */
  ghost predicate SlotsRight(g: Graph, vals: map<Id, Shown>, slots: seq<ChildSlot>) {
    && (forall s :: s in slots ==> SlotRight(g, vals, s))
    && (forall k, i: nat :: k in vals && i < |Kids(g, k)| ==> ChildSlot(vals[k], i, Kids(g, k)[i]) in slots)
  }

  class Resolver {
    const g: Graph
    var vals: map<Id, Shown>
    var state: map<Id, State>
    var slots: seq<ChildSlot>
    ghost var done: seq<Id>

    ghost predicate Walking(roots: seq<Id>, stack: seq<Frame>)
      reads this
    {
      && state.Keys == vals.Keys && StackRight(g, done, stack) && SeenRight(g, roots, state, done, stack)
      && Settled(g, done) && DistinctIn(done) && ValuesRight(g, vals) && SlotsRight(g, vals, slots)
    }

    constructor (g: Graph)
      ensures this.g == g && vals == map[] && Walking([], [])
    {
      this.g := g;
      vals, state, slots, done := map[], map[], [], [];
    }

    /** Values laid out by now stay as they are; those laid out since are new. */
    twostate predicate Grown()
      reads this
    {
      && (forall k :: k in old(vals) ==> k in vals && vals[k] == old(vals)[k])
      && (forall k :: k in vals && k !in old(vals) ==> fresh(vals[k]) && fresh(vals[k].slots))
    }

    /** Lays out a container's value and puts it on the path. */
    method Visit(k: Id, ghost roots: seq<Id>, ghost was: seq<Frame>, stack: seq<Frame>) returns (err: Option<Failure>, now: seq<Frame>)
      requires Walking(roots, was) && k !in state && Reachable(g, roots, k) && k in Universe(g, roots)
      requires KeysOf(stack) == KeysOf(was) && StackRight(g, done, stack + [Frame(k, 0)])
      modifies this`vals, this`state, this`slots
      ensures err.Some? ==> err.value == Unsupported(k) && k in g && g[k].None?
      ensures err.None? ==> now == stack + [Frame(k, 0)] && Walking(roots, now) && Grown() && state.Keys == old(state.Keys) + {k}
    {
      hide StackRight, Reachable, Settled, DistinctIn, Universe, ValuesRight, SlotsRight, SlotRight, SeenRight;
      now := stack;
      if Unshown(g, k) { return Some(Unsupported(k)), now; }
      var kids := Kids(g, k);
      var v := new Shown(k, |kids|);
      var mine := seq(|kids|, i requires 0 <= i < |kids| => ChildSlot(v, i, kids[i]));
      ValuesMore(g, vals, k, v);
      SlotsMore(g, vals, slots, k, v, mine);
      SeenMore(g, roots, state, done, was, stack, k);
      vals := vals[k := v];
      state := state[k := OnPath];
      slots := slots + mine;
      now := stack + [Frame(k, 0)];
      err := None;
    }

    /** How much of the walk is left: containers not seen, frames, children of the top one. */
    ghost function Unseen(roots: seq<Id>): nat
      reads this
    {
      |Universe(g, roots) - state.Keys|
    }

    ghost function TopLeft(stack: seq<Frame>): nat {
      if stack == [] then 0 else Max(0, |Kids(g, stack[|stack| - 1].key)| - stack[|stack| - 1].next)
    }

    /** The top frame, its children all built, is built too. */
    method Pop(roots: seq<Id>, stack: seq<Frame>) returns (now: seq<Frame>)
      requires Walking(roots, stack) && stack != [] && stack[|stack| - 1].next == |Kids(g, stack[|stack| - 1].key)|
      modifies this`state, this`done
      ensures Walking(roots, now) && |now| < |stack| && state.Keys == old(state.Keys)
    {
      hide StackRight, Settled, DistinctIn, ValuesRight, SlotsRight, SeenRight;
      var last := |stack| - 1;
      var f := stack[last];
      Finish(g, done, stack, f);
      SeenDone(g, roots, state, done, stack, f);
      state := state[f.key := Built];
      done := done + [f.key];
      now := stack[..last];
    }

    /** The top frame's next child is built already. */
    method Pass(roots: seq<Id>, stack: seq<Frame>, child: Id) returns (now: seq<Frame>)
      requires Walking(roots, stack) && stack != [] && TopLeft(stack) > 0 && child in state && state[child] == Built
      requires child == Kids(g, stack[|stack| - 1].key)[stack[|stack| - 1].next]
      ensures Walking(roots, now) && |now| == |stack| && TopLeft(now) < TopLeft(stack)
    {
      hide StackRight, Settled, DistinctIn, ValuesRight, SlotsRight, SeenRight;
      var last := |stack| - 1;
      var f := stack[last];
      now := stack[..last] + [Frame(f.key, f.next + 1)];
      BuiltDone(g, roots, state, done, stack, child);
      Advance(g, done, stack, f);
      SameKeys(g, roots, state, done, stack, now);
    }

    /** The top frame's next child is new: its value is laid out and it goes on the path. */
    method Enter(roots: seq<Id>, stack: seq<Frame>, child: Id) returns (err: Option<Failure>, now: seq<Frame>)
      requires Walking(roots, stack) && stack != [] && TopLeft(stack) > 0 && child !in state
      requires child == Kids(g, stack[|stack| - 1].key)[stack[|stack| - 1].next] && Reachable(g, roots, stack[|stack| - 1].key)
      modifies this`vals, this`state, this`slots
      ensures err.Some? ==> Blamed(g, roots, err.value)
      ensures err.None? ==> Walking(roots, now) && Grown() && state.Keys == old(state.Keys) + {child} && Unseen(roots) < old(Unseen(roots))
    {
      hide StackRight, Settled, DistinctIn, ValuesRight, SlotsRight, SeenRight, Reachable, Universe, Unshown;
      var last := |stack| - 1;
      var f := stack[last];
      now := stack[..last] + [Frame(f.key, f.next + 1)];
      NotSeen(g, roots, state, done, stack, child);
      Descend(g, done, stack, f, child);
      KidReached(g, roots, f.key, child);
      SameStack(stack, now);
      OneFewer(Universe(g, roots), state.Keys, child);
      err, now := Visit(child, roots, stack, now);
    }

    /** One turn of the walk. */
    method Turn(roots: seq<Id>, stack: seq<Frame>) returns (err: Option<Failure>, now: seq<Frame>)
      requires Walking(roots, stack) && stack != []
      modifies this
      ensures err.Some? ==> Blamed(g, roots, err.value)
      ensures err.None? ==> Walking(roots, now) && Grown() && old(state.Keys) <= state.Keys
      ensures err.None? ==> Unseen(roots) <= old(Unseen(roots))
      ensures err.None? && Unseen(roots) == old(Unseen(roots)) ==> |now| <= |stack| && (|now| == |stack| ==> TopLeft(now) < TopLeft(stack))
    {
      hide Resolver.Walking, Reachable, Universe, InCycle, Unshown, Blamed;
      Top(roots, stack);
      var f := stack[|stack| - 1];
      err := None;
      if f.next == |Kids(g, f.key)| {
        now := Pop(roots, stack);
      } else {
        var child := Kids(g, f.key)[f.next];
        if child !in state {
          err, now := Enter(roots, stack, child);
        } else if state[child] == OnPath {
          Ancestor(roots, stack, child);
          return Some(OwnAncestor(child)), stack;
        } else {
          now := Pass(roots, stack, child);
        }
      }
    }

    /** Turns until nothing is left on the path. */
    method Walk(roots: seq<Id>, from: seq<Frame>) returns (err: Option<Failure>)
      requires Walking(roots, from)
      modifies this
      ensures err.None? ==> Walking(roots, []) && old(state.Keys) <= state.Keys && Grown()
      ensures err.Some? ==> Blamed(g, roots, err.value)
    {
      hide Resolver.Walking, Blamed, Resolver.TopLeft, Resolver.Unseen;
      var stack := from;
      while |stack| > 0
        invariant Walking(roots, stack) && old(state.Keys) <= state.Keys && Grown()
        decreases Unseen(roots), |stack|, TopLeft(stack)
      {
        err, stack := Turn(roots, stack);
        if err.Some? { return; }
      }
      assert stack == [];
      err := None;
    }

    /** Builds all that one root reaches and no earlier one did. */
    method From(roots: seq<Id>, root: Id) returns (err: Option<Failure>)
      requires Walking(roots, []) && root in roots && root !in state
      modifies this
      ensures err.None? ==> Walking(roots, []) && Grown() && root in state
      ensures err.None? ==> old(state.Keys) <= state.Keys
      ensures err.Some? ==> Blamed(g, roots, err.value)
    {
      hide Resolver.Walking, Blamed;
      var stack: seq<Frame>;
      err, stack := Begin(roots, root);
      if err.None? { err := Walk(roots, stack); }
    }

    /** A root goes on the path. */
    method Begin(roots: seq<Id>, root: Id) returns (err: Option<Failure>, stack: seq<Frame>)
      requires Walking(roots, []) && root in roots && root !in state
      modifies this`vals, this`state, this`slots
      ensures err.Some? ==> Blamed(g, roots, err.value)
      ensures err.None? ==> Walking(roots, stack) && Grown() && state.Keys == old(state.Keys) + {root}
    {
      hide StackRight, Settled, DistinctIn, ValuesRight, SlotsRight, SeenRight, Reachable, Universe, Unshown;
      RootReached(g, roots, root);
      InUniverse(g, roots, root, root);
      NotSeen(g, roots, state, done, [], root);
      FirstFrame(g, done, root);
      assert [] + [Frame(root, 0)] == [Frame(root, 0)];
      err, stack := Visit(root, roots, [], []);
    }

    lemma {:induction false} Top(roots: seq<Id>, stack: seq<Frame>)
      requires Walking(roots, stack) && stack != []
      ensures stack[|stack| - 1].next <= |Kids(g, stack[|stack| - 1].key)| && Reachable(g, roots, stack[|stack| - 1].key)
      ensures state.Keys == vals.Keys
    {
      hide StackRight, Settled, DistinctIn, ValuesRight, SlotsRight, SeenRight, Reachable;
      TopFrame(g, roots, state, done, stack);
    }

    lemma {:induction false} Ancestor(roots: seq<Id>, stack: seq<Frame>, child: Id)
      requires Walking(roots, stack) && stack != [] && child in state && state[child] == OnPath
      requires child in Kids(g, stack[|stack| - 1].key)
      ensures Blamed(g, roots, OwnAncestor(child))
    {
      hide StackRight, Settled, DistinctIn, ValuesRight, SlotsRight, SeenRight, Blamed;
      Blame(g, roots, state, done, stack, child);
    }

    /** Puts every child's value in its parent's slot. */
    method Fill()
      requires ValuesRight(g, vals) && SlotsRight(g, vals, slots)
      requires forall s :: s in slots ==> s.child in vals
      modifies set k | k in vals :: vals[k].slots
      ensures forall k, i: nat :: k in vals && i < |Kids(g, k)| ==> Filled(g, vals, k, i)
    {
      hide ValuesRight, SlotsRight;
      for t := 0 to |slots|
        invariant forall u :: 0 <= u < t ==> SlotFilled(vals, slots[u])
      {
        var s := slots[t];
        OneSlot(g, vals, slots, t);
        assert s in slots;
        s.owner.slots[s.index] := vals[s.child];
      }
      AllFilled();
    }

    lemma {:induction false} AllFilled()
      requires ValuesRight(g, vals) && SlotsRight(g, vals, slots) && forall u :: 0 <= u < |slots| ==> SlotFilled(vals, slots[u])
      ensures forall k, i: nat :: k in vals && i < |Kids(g, k)| ==> Filled(g, vals, k, i)
    {
      forall k, i: nat | k in vals && i < |Kids(g, k)| ensures Filled(g, vals, k, i) {
        var s := ChildSlot(vals[k], i, Kids(g, k)[i]);
        assert s in slots;
        var u :| 0 <= u < |slots| && slots[u] == s;
        assert SlotFilled(vals, slots[u]);
      }
    }

    /** Builds all the roots reach. It fails exactly when they reach a container that holds itself, or one that
        cannot be shown. */
    method Resolve(roots: seq<Id>) returns (err: Option<Failure>)
      requires vals == map[] && Walking([], [])
      modifies this
      ensures err.None? ==> forall k :: k in vals <==> Reachable(g, roots, k)
      ensures err.None? ==> forall k :: Reachable(g, roots, k) ==> !InCycle(g, k) && !(k in g && g[k].None?)
      ensures err.None? ==> forall k :: k in vals ==> ValueRight(g, vals, k)
      ensures err.None? ==> forall k, l :: k in vals && l in vals && k != l ==> vals[k].slots != vals[l].slots
      ensures err.Some? ==> Blamed(g, roots, err.value)
    {
      hide StackRight, Reachable, Settled, DistinctIn, Universe, SlotsRight, SlotRight, InCycle, SeenRight, Filled;
      StartWalk(g, roots, state, done);
      for r := 0 to |roots|
        invariant Walking(roots, []) && Grown()
        invariant forall i :: 0 <= i < r ==> roots[i] in state
      {
        if roots[r] !in state {
          err := From(roots, roots[r]);
          if err.Some? { return; }
        }
      }
      AllBuilt(g, roots, state, done);
      ChildrenBuilt(g, roots, vals, slots);
      err := None;
      Fill();
      forall k | k in vals ensures ValueRight(g, vals, k) { ValueFilled(k); }
    }

    /** What `Fill` leaves of one value. */
    lemma {:induction false} ValueFilled(k: Id)
      requires k in vals && ValuesRight(g, vals) && forall l, i: nat :: l in vals && i < |Kids(g, l)| ==> Filled(g, vals, l, i)
      ensures ValueRight(g, vals, k)
    {
      forall i | 0 <= i < |Kids(g, k)|
        ensures Kids(g, k)[i] in vals && vals[k].slots[i] == vals[Kids(g, k)[i]]
      {
        assert Filled(g, vals, k, i);
      }
    }
  }

  /** Slot i of container k holds the value of its child. */
  ghost predicate Filled(g: Graph, vals: map<Id, Shown>, k: Id, i: nat)
    requires k in vals && i < |Kids(g, k)|
    reads if k in vals then {vals[k].slots} else {}
  {
    i < vals[k].slots.Length && Kids(g, k)[i] in vals && vals[k].slots[i] == vals[Kids(g, k)[i]]
  }

  /** A container's value is its own, with one slot a child, filled with the value built for that child; without children
      there are none. */
  ghost predicate ValueRight(g: Graph, vals: map<Id, Shown>, k: Id)
    requires k in vals
    reads vals[k].slots
  {
    && vals[k].key == k
    && (k in g && g[k].Some? ==>
          vals[k].slots.Length == |g[k].value|
          && forall i :: 0 <= i < |g[k].value| ==> g[k].value[i] in vals && vals[k].slots[i] == vals[g[k].value[i]])
    && (!(k in g && g[k].Some?) ==> vals[k].slots.Length == 0)
  }

  ghost predicate SlotFilled(vals: map<Id, Shown>, s: ChildSlot)
    reads s.owner.slots
  {
    s.index < s.owner.slots.Length && s.child in vals && s.owner.slots[s.index] == vals[s.child]
  }

  /** A reachable container that holds itself, or cannot be shown. */
  ghost predicate Blamed(g: Graph, roots: seq<Id>, f: Failure) {
    match f
    case OwnAncestor(k) => Reachable(g, roots, k) && InCycle(g, k)
    case Unsupported(k) => Reachable(g, roots, k) && k in g && g[k].None?
  }

  // ----- steps of the walk -----

  lemma {:induction false} ValuesMore(g: Graph, vals: map<Id, Shown>, k: Id, v: Shown)
    requires ValuesRight(g, vals) && v.key == k && v.slots.Length == |Kids(g, k)| && k !in vals
    requires forall l :: l in vals ==> vals[l].slots != v.slots
    ensures ValuesRight(g, vals[k := v])
  {
  }

  lemma {:induction false} SlotsMore(g: Graph, vals: map<Id, Shown>, slots: seq<ChildSlot>, k: Id, v: Shown, mine: seq<ChildSlot>)
    requires SlotsRight(g, vals, slots) && ValuesRight(g, vals) && k !in vals && v.key == k && |mine| == |Kids(g, k)|
    requires forall i :: 0 <= i < |mine| ==> mine[i] == ChildSlot(v, i, Kids(g, k)[i])
    ensures SlotsRight(g, vals[k := v], slots + mine)
  {
    var now, all := vals[k := v], slots + mine;
    forall s | s in all ensures SlotRight(g, now, s) {
      if s in slots { assert SlotRight(g, vals, s); }
    }
    forall l, i: nat | l in now && i < |Kids(g, l)| ensures ChildSlot(now[l], i, Kids(g, l)[i]) in all {
      if l == k { assert mine[i] in mine; } else { assert ChildSlot(vals[l], i, Kids(g, l)[i]) in slots; }
    }
  }

  lemma {:induction false} SeenMore(g: Graph, roots: seq<Id>, state: map<Id, State>, done: seq<Id>, was: seq<Frame>, stack: seq<Frame>, k: Id)
    requires SeenRight(g, roots, state, done, was) && KeysOf(stack) == KeysOf(was) && k !in state
    requires Reachable(g, roots, k) && !Unshown(g, k) && k in Universe(g, roots)
    ensures SeenRight(g, roots, state[k := OnPath], done, stack + [Frame(k, 0)])
  {
    hide Reachable, Unshown, Universe;
    assert KeysOf(stack + [Frame(k, 0)]) == KeysOf(stack) + [k];
  }

  lemma {:induction false} NotSeen(g: Graph, roots: seq<Id>, state: map<Id, State>, done: seq<Id>, stack: seq<Frame>, k: Id)
    requires SeenRight(g, roots, state, done, stack) && k !in state
    ensures k !in done && k !in KeysOf(stack)
  {
  }

  lemma {:induction false} TopFrame(g: Graph, roots: seq<Id>, state: map<Id, State>, done: seq<Id>, stack: seq<Frame>)
    requires StackRight(g, done, stack) && SeenRight(g, roots, state, done, stack) && stack != []
    ensures var f := stack[|stack| - 1]; f.next <= |Kids(g, f.key)| && f.key in state && Reachable(g, roots, f.key)
  {
    hide Reachable, Path;
    var i := |stack| - 1;
    assert FrameRight(g, done, stack[i], BelowAt(stack, i));
    assert KeysOf(stack)[i] in KeysOf(stack);
  }

  lemma {:induction false} SeenDone(g: Graph, roots: seq<Id>, state: map<Id, State>, done: seq<Id>, stack: seq<Frame>, f: Frame)
    requires StackRight(g, done, stack) && SeenRight(g, roots, state, done, stack) && stack != [] && f == stack[|stack| - 1]
    ensures SeenRight(g, roots, state[f.key := Built], done + [f.key], stack[..|stack| - 1]) && f.key in state
  {
    hide Reachable, Path, Unshown, Universe, FrameRight;
    var last := |stack| - 1;
    assert KeysOf(stack)[last] in KeysOf(stack);
    assert KeysOf(stack) == KeysOf(stack[..last]) + [f.key];
    NotAmong(KeysOf(stack[..last]), f.key, done);
  }

  lemma {:induction false} NotAmong(a: seq<Id>, k: Id, b: seq<Id>)
    requires DistinctIn(a + [k] + b)
    ensures k !in a && k !in b
  {
    var s := a + [k] + b;
    forall i | 0 <= i < |a| ensures a[i] != k { assert s[i] != s[|a|]; }
    forall i | 0 <= i < |b| ensures b[i] != k { assert s[|a|] != s[|a| + 1 + i]; }
  }

  lemma {:induction false} KidIs(g: Graph, k: Id, c: Id)
    ensures c in Kids(g, k) <==> Child(g, k, c)
  {
  }

  /** A child met again on the path holds itself. */
  lemma {:induction false} Blame(g: Graph, roots: seq<Id>, state: map<Id, State>, done: seq<Id>, stack: seq<Frame>, c: Id)
    requires StackRight(g, done, stack) && SeenRight(g, roots, state, done, stack) && stack != [] && c in state && state[c] == OnPath
    requires c in Kids(g, stack[|stack| - 1].key)
    ensures Blamed(g, roots, OwnAncestor(c))
  {
    hide Reachable, Path, InCycle, StackRight, SeenRight, Kids;
    OnPathIs(g, roots, state, done, stack, c);
    var p := KeysOf(stack);
    var i :| 0 <= i < |p| && p[i] == c;
    KidIs(g, p[|p| - 1], c);
    MetAgain(g, p, i, c);
  }

  lemma {:induction false} OnPathIs(g: Graph, roots: seq<Id>, state: map<Id, State>, done: seq<Id>, stack: seq<Frame>, c: Id)
    requires StackRight(g, done, stack) && SeenRight(g, roots, state, done, stack) && stack != [] && c in state && state[c] == OnPath
    ensures c in KeysOf(stack) && Reachable(g, roots, c) && Path(g, KeysOf(stack))
  {
    hide Reachable, Path, FrameRight;
  }

  lemma {:induction false} BuiltDone(g: Graph, roots: seq<Id>, state: map<Id, State>, done: seq<Id>, stack: seq<Frame>, c: Id)
    requires SeenRight(g, roots, state, done, stack) && c in state && state[c] == Built
    ensures c in done
  {
  }

  lemma {:induction false} SameKeys(g: Graph, roots: seq<Id>, state: map<Id, State>, done: seq<Id>, was: seq<Frame>, stack: seq<Frame>)
    requires SeenRight(g, roots, state, done, was) && was != [] && stack == was[..|was| - 1] + [Frame(was[|was| - 1].key, was[|was| - 1].next + 1)]
    ensures SeenRight(g, roots, state, done, stack)
  {
    hide Reachable, Unshown, Universe;
    SameStack(was, stack);
  }

  lemma {:induction false} SameStack(was: seq<Frame>, stack: seq<Frame>)
    requires was != [] && stack == was[..|was| - 1] + [Frame(was[|was| - 1].key, was[|was| - 1].next + 1)]
    ensures KeysOf(stack) == KeysOf(was)
  {
  }

  lemma {:induction false} KidReached(g: Graph, roots: seq<Id>, k: Id, c: Id)
    requires Reachable(g, roots, k) && c in Kids(g, k)
    ensures Reachable(g, roots, c) && c in Universe(g, roots)
  {
    hide Reachable;
    ChildReached(g, roots, k, c);
    InUniverse(g, roots, k, c);
  }

  lemma {:induction false} OneFewer(all: set<Id>, seen: set<Id>, k: Id)
    requires k in all && k !in seen
    ensures |all - (seen + {k})| < |all - seen|
  {
    assert all - seen == (all - (seen + {k})) + {k};
  }

  lemma {:induction false} StartWalk(g: Graph, roots: seq<Id>, state: map<Id, State>, done: seq<Id>)
    requires SeenRight(g, [], state, done, []) && state == map[]
    ensures SeenRight(g, roots, state, done, [])
  {
    hide Reachable, Unshown, Universe;
  }

  /** With nothing on the path and every root seen, what is seen is what is reachable, and no cycle is. */
  lemma {:induction false} AllBuilt(g: Graph, roots: seq<Id>, state: map<Id, State>, done: seq<Id>)
    requires SeenRight(g, roots, state, done, []) && Settled(g, done) && DistinctIn(done) && forall i :: 0 <= i < |roots| ==> roots[i] in state
    ensures forall k :: k in state <==> Reachable(g, roots, k)
    ensures forall k :: Reachable(g, roots, k) ==> !InCycle(g, k) && !Unshown(g, k)
  {
    hide Reachable, Unshown, Universe, Settled, InCycle, DistinctIn;
    AllDone(g, roots, state, done);
    forall k | Reachable(g, roots, k) ensures k in state && !InCycle(g, k) && !Unshown(g, k) {
      AllListed(g, done, roots, k);
      NoCycleIn(g, done, k);
      assert k in state;
    }
  }

  lemma {:induction false} AllDone(g: Graph, roots: seq<Id>, state: map<Id, State>, done: seq<Id>)
    requires SeenRight(g, roots, state, done, [])
    ensures forall k :: k in state <==> k in done
    ensures forall k :: k in state ==> Reachable(g, roots, k) && !Unshown(g, k)
  {
    hide Reachable, Unshown, Universe;
    forall k | k in state ensures k in done { assert state[k] == OnPath <==> k in KeysOf([]); }
  }

  lemma {:induction false} ChildrenBuilt(g: Graph, roots: seq<Id>, vals: map<Id, Shown>, slots: seq<ChildSlot>)
    requires SlotsRight(g, vals, slots) && forall k :: k in vals <==> Reachable(g, roots, k)
    ensures forall s :: s in slots ==> s.child in vals
  {
    hide Reachable;
    forall s | s in slots ensures s.child in vals {
      assert SlotRight(g, vals, s);
      assert Child(g, s.owner.key, s.child);
      ChildReached(g, roots, s.owner.key, s.child);
    }
  }

  /** Two slots in one place hold one child. */
  lemma {:induction false} OneSlot(g: Graph, vals: map<Id, Shown>, slots: seq<ChildSlot>, t: nat)
    requires ValuesRight(g, vals) && SlotsRight(g, vals, slots) && t < |slots|
    ensures forall u :: 0 <= u < |slots| && slots[u].owner.slots == slots[t].owner.slots && slots[u].index == slots[t].index ==> slots[u].child == slots[t].child
    ensures slots[t].index < slots[t].owner.slots.Length && slots[t].owner.key in vals && vals[slots[t].owner.key] == slots[t].owner
  {
    assert slots[t] in slots && SlotRight(g, vals, slots[t]);
    forall u | 0 <= u < |slots| && slots[u].owner.slots == slots[t].owner.slots && slots[u].index == slots[t].index ensures slots[u].child == slots[t].child {
      assert slots[u] in slots && SlotRight(g, vals, slots[u]);
    }
  }
}
