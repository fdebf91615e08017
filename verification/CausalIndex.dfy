/** Looking up ids among overlapping copies of changes, and computing causal closures as version vectors. */
module CausalIndices {
  import opened Common
  import opened SeqTypes
  import opened CausalHistory
  import opened IdLists

  /** The history is the atoms of the changes, each told alike by every copy. */
  ghost predicate Told(h: History, all: seq<SeqChange>) {
    && Complete(h)
    && (forall c :: c in all ==> Tells(h, c))
    && (forall x :: x in h ==> Held(all, x))
  }

  ghost predicate Held(all: seq<SeqChange>, x: Id) {
    exists c :: c in all && Holds(c, x)
  }

  // ----- the changes of one author, by start -----

  predicate ByStart(s: seq<SeqChange>) {
    forall i, j :: 0 <= i < j < |s| ==> s[i].start <= s[j].start
  }

  /** c goes after those that start no later: the sort is stable. */
  function InsertByStart(s: seq<SeqChange>, c: SeqChange): (r: seq<SeqChange>)
    requires ByStart(s)
    ensures ByStart(r) && forall x :: x in r <==> x in s || x == c
  {
    if s == [] then [c]
    else
      var m := |s| - 1;
      assert s == s[..m] + [s[m]];
      if s[m].start <= c.start then s + [c]
      else
        var t := InsertByStart(s[..m], c);
        assert forall i :: 0 <= i < |t| ==> t[i] in t && (t[i] in s[..m] || t[i] == c);
        t + [s[m]]
  }

  function SortByStart(s: seq<SeqChange>): (r: seq<SeqChange>)
    ensures ByStart(r) && forall x :: x in r <==> x in s
  {
    if s == [] then []
    else
      var m := |s| - 1;
      assert s == s[..m] + [s[m]];
      InsertByStart(SortByStart(s[..m]), s[m])
  }

  /** The running maximum of the ends. */
  function MaxEnds(s: seq<SeqChange>): (r: seq<int>)
    ensures |r| == |s|
    ensures forall i, j :: 0 <= i <= j < |s| ==> s[i].end <= r[j]
  {
    if s == [] then []
    else
      var m := |s| - 1;
      var r := MaxEnds(s[..m]);
      var end := if m == 0 then 0 else r[m - 1];
      assert forall i :: 0 <= i < m ==> s[..m][i].end <= end;
      r + [Max(end, s[m].end)]
  }

  ghost predicate Indexed(all: seq<SeqChange>, byPeer: map<nat, seq<SeqChange>>, maxEnd: map<nat, seq<int>>) {
    && byPeer.Keys == maxEnd.Keys
    && (forall c: SeqChange :: c in all ==> c.ch.id.peer in byPeer && c in byPeer[c.ch.id.peer])
    && (forall p :: p in byPeer ==> ByStart(byPeer[p]) && maxEnd[p] == MaxEnds(byPeer[p]))
    && (forall p, c: SeqChange :: p in byPeer && c in byPeer[p] ==> c in all && c.ch.id.peer == p)
  }

  // ----- one step of the walk -----

  /** x is covered already, or will be through an id still to be looked at, of lamport below l. */
  ghost predicate Reach(h: History, v: map<nat, int>, stack: seq<Id>, x: Id, l: int)
    requires Closed(h)
  {
    Covers(v, x) || exists s: Id :: s in stack && s in h && AtOrPast(h, x, s) && h[s].lamport < l
  }

  /** All that lies in y's past is covered or will be. */
  ghost predicate Pending(h: History, v: map<nat, int>, stack: seq<Id>, y: Id)
    requires Closed(h)
  {
    y in h && forall x :: Past(h, x, y) ==> Reach(h, v, stack, x, h[y].lamport)
  }

  ghost predicate Sound(h: History, v: map<nat, int>, stack: seq<Id>, y: Id)
    requires Closed(h)
  {
    && (forall s: Id :: s in stack ==> Past(h, s, y))
    && (forall p :: p in v ==> v[p] > 0 && Past(h, Id(p, v[p] - 1), y))
  }

  function Raise(v: map<nat, int>, x: Id): map<nat, int> {
    if x.peer in v && v[x.peer] > x.counter then v else v[x.peer := x.counter + 1]
  }

  ghost predicate Grows(v: map<nat, int>, w: map<nat, int>) {
    forall x :: Covers(v, x) ==> Covers(w, x)
  }

  lemma {:induction false} RaiseGrows(v: map<nat, int>, x: Id)
    ensures Grows(v, Raise(v, x)) && Covers(Raise(v, x), x)
    ensures forall y: Id :: y.peer == x.peer && y.counter <= x.counter ==> Covers(Raise(v, x), y)
  {
  }

  /** Popping an id keeps everything pending, given what its change leaves to reach. */
  lemma {:induction false} PopKeeps(h: History, v: map<nat, int>, rest: seq<Id>, s0: Id, c: SeqChange, w: map<nat, int>, stack: seq<Id>, y: Id)
    requires Closed(h) && Tells(h, c) && s0 in h && Holds(c, s0) && Grows(Raise(v, s0), w)
    requires forall s: Id :: s in rest ==> s in stack
    requires Pending(h, v, rest + [s0], y)
    requires forall x :: Past(h, x, First(c)) ==> Reach(h, w, stack, x, h[s0].lamport)
    ensures Pending(h, w, stack, y)
  {
    RaiseGrows(v, s0);
    forall x | Past(h, x, y) ensures Reach(h, w, stack, x, h[y].lamport) {
      if !Covers(w, x) {
        var s :| s in rest + [s0] && s in h && AtOrPast(h, x, s) && h[s].lamport < h[y].lamport;
        if s !in rest {
          assert s == s0;
          if x != s0 { BeforeInside(h, c, x, s0); }
        }
      }
    }
  }

  /** What a change met before leaves to reach. */
  lemma {:induction false} SeenReach(h: History, v: map<nat, int>, rest: seq<Id>, s0: Id, c: SeqChange, w: map<nat, int>)
    requires Closed(h) && Tells(h, c) && s0 in h && Holds(c, s0) && Grows(v, w)
    requires Pending(h, v, rest + [s0], First(c))
    ensures forall x :: Past(h, x, First(c)) ==> Reach(h, w, rest, x, h[s0].lamport)
  {
    LamportInside(h, c, s0);
    forall x | Past(h, x, First(c)) ensures Reach(h, w, rest, x, h[s0].lamport) {
      if !Covers(w, x) {
        var s :| s in rest + [s0] && s in h && AtOrPast(h, x, s) && h[s].lamport < h[First(c)].lamport;
        assert s in rest;
      }
    }
  }

  /** What a change met for the first time leaves to reach, its deps pushed. */
  lemma {:induction false} NewReach(h: History, w: map<nat, int>, stack: seq<Id>, s0: Id, c: SeqChange)
    requires Closed(h) && Tells(h, c) && s0 in h && Holds(c, s0)
    requires forall d :: d in c.ch.deps ==> d in stack
    ensures forall x :: Past(h, x, First(c)) ==> Reach(h, w, stack, x, h[s0].lamport)
    ensures Pending(h, w, stack, First(c))
  {
    LamportInside(h, c, s0);
    forall x | Past(h, x, First(c)) ensures Reach(h, w, stack, x, h[First(c)].lamport) {
      var d :| d in h[First(c)].deps && (x == d || Past(h, x, d));
      assert d in stack && h[d].lamport < h[First(c)].lamport;
    }
    forall x | Past(h, x, First(c)) ensures Reach(h, w, stack, x, h[s0].lamport) {
      var d :| d in h[First(c)].deps && (x == d || Past(h, x, d));
      assert d in stack && h[d].lamport < h[First(c)].lamport;
    }
  }

  lemma {:induction false} PushSound(h: History, v: map<nat, int>, rest: seq<Id>, s0: Id, c: SeqChange, y: Id)
    requires Complete(h) && Tells(h, c) && s0 in h && Holds(c, s0) && Sound(h, v, rest + [s0], y)
    ensures Sound(h, Raise(v, s0), rest, y)
    ensures forall d :: d in c.ch.deps ==> Past(h, d, y)
    ensures c.start > 0 ==> Past(h, Prev(First(c)), y)
  {
    assert s0 in rest + [s0];
    forall s | s in rest ensures Past(h, s, y) { assert s in rest + [s0]; }
    LamportInside(h, c, s0);
    StartPast(h, c, s0, y);
    forall d | d in c.ch.deps ensures Past(h, d, y) {
      var i :| 0 <= i < |c.ch.deps| && c.ch.deps[i] == d;
      assert d in h[First(c)].deps && Past(h, d, First(c));
      AtPast(h, d, First(c), y);
    }
    if c.start > 0 { AtPast(h, Prev(First(c)), First(c), y); }
  }

  lemma {:induction false} StartPast(h: History, c: SeqChange, s0: Id, y: Id)
    requires Complete(h) && Tells(h, c) && s0 in h && Holds(c, s0) && Past(h, s0, y)
    ensures Past(h, First(c), y)
  {
    LamportInside(h, c, s0);
    if s0 != First(c) {
      BeforeInside(h, c, First(c), s0);
      PastTrans(h, First(c), s0, y);
    }
  }

  function Merge(v: map<nat, int>, w: map<nat, int>): map<nat, int> {
    map p | p in v.Keys + w.Keys :: if p in v && p in w then Max(v[p], w[p]) else if p in v then v[p] else w[p]
  }

  lemma {:induction false} MergeCovers(v: map<nat, int>, w: map<nat, int>)
    ensures forall x :: Covers(Merge(v, w), x) <==> Covers(v, x) || Covers(w, x)
  {
  }

  lemma {:induction false} CachedReach(h: History, v: map<nat, int>, zv: map<nat, int>, stack: seq<Id>, s0: Id, c: SeqChange)
    requires Closed(h) && Tells(h, c) && s0 in h && Holds(c, s0) && IsVersion(h, zv, First(c))
    ensures Grows(v, Merge(v, zv))
    ensures forall x :: Past(h, x, First(c)) ==> Reach(h, Merge(v, zv), stack, x, h[s0].lamport)
    ensures Pending(h, Merge(v, zv), stack, First(c))
  {
    LamportInside(h, c, s0);
    MergeCovers(v, zv);
    forall x | Past(h, x, First(c)) ensures Covers(Merge(v, zv), x) {
      PastIn(h, x, First(c));
    }
  }

  lemma {:induction false} VersionTop(h: History, v: map<nat, int>, y: Id, p: nat)
    requires Closed(h) && IsVersion(h, v, y) && p in v
    ensures v[p] > 0 && Past(h, Id(p, v[p] - 1), y)
  {
    assert Covers(v, Id(p, v[p] - 1));
  }

  lemma {:induction false} MergeAt(v: map<nat, int>, w: map<nat, int>, p: nat)
    requires p in Merge(v, w)
    ensures (p in v && Merge(v, w)[p] == v[p]) || (p in w && Merge(v, w)[p] == w[p])
  {
  }

  lemma {:induction false} CachedSound(h: History, v: map<nat, int>, zv: map<nat, int>, rest: seq<Id>, c: SeqChange, y: Id)
    requires Complete(h) && Sound(h, v, rest, y) && IsVersion(h, zv, First(c)) && Past(h, First(c), y)
    ensures Sound(h, Merge(v, zv), rest, y)
  {
    hide Past, IsVersion, First, Merge;
    forall p | p in Merge(v, zv) ensures Merge(v, zv)[p] > 0 && Past(h, Id(p, Merge(v, zv)[p] - 1), y) {
      MergeAt(v, zv, p);
      if p in zv {
        VersionTop(h, zv, First(c), p);
        PastTrans(h, Id(p, zv[p] - 1), First(c), y);
      }
    }
  }

  /** Once nothing is left to look at, the vector is the version. */
  lemma {:induction false} WalkDone(h: History, v: map<nat, int>, y: Id)
    requires Complete(h) && Sound(h, v, [], y) && Pending(h, v, [], y)
    ensures IsVersion(h, v, y)
  {
    forall x | x in h ensures Covers(v, x) <==> Past(h, x, y) {
      if Covers(v, x) { PastDown(h, Id(x.peer, v[x.peer] - 1), x, y); }
      if Past(h, x, y) { assert Reach(h, v, [], x, h[y].lamport); }
    }
    forall p | p in v ensures Id(p, v[p] - 1) in h { PastIn(h, Id(p, v[p] - 1), y); }
  }

  // ----- the index -----

  const VERSION_CACHE_LIMIT := 0x40_0000

  /** A change that depends on one of no lower lamport, which no honest history has. */
  ghost predicate Forward(all: seq<SeqChange>, c: SeqChange, d: Id, z: SeqChange) {
    c in all && z in all && d in c.ch.deps && Holds(z, d) && z.ch.lamport + (d.counter - z.start) >= c.ch.lamport
  }

  ghost predicate DepsHeld(all: seq<SeqChange>, c: SeqChange) {
    && (c.start > 0 ==> Held(all, Prev(First(c))))
    && (forall d :: d in c.ch.deps ==> Held(all, d))
  }

  /** An honest history has no forward dep and nothing missing. */
  lemma {:induction false} ToldComplete(h: History, all: seq<SeqChange>, c: SeqChange)
    requires Told(h, all) && c in all
    ensures DepsHeld(all, c)
    ensures forall d, z :: !Forward(all, c, d, z)
  {
    LamportInside(h, c, First(c));
    if c.start > 0 { PastIn(h, Prev(First(c)), First(c)); }
    forall d | d in c.ch.deps ensures d in h && h[d].lamport < c.ch.lamport && Held(all, d) {
      DepInSet(c.ch.deps, d);
    }
    forall d, z | d in c.ch.deps && z in all && Holds(z, d) ensures !Forward(all, c, d, z) {
      LamportInside(h, z, d);
    }
  }

  ghost predicate Grouped(some: seq<SeqChange>, all: seq<SeqChange>, groups: map<nat, seq<SeqChange>>) {
    && (forall c: SeqChange :: c in some ==> c.ch.id.peer in groups && c in groups[c.ch.id.peer])
    && (forall p, c: SeqChange :: p in groups && c in groups[p] ==> c in all && c.ch.id.peer == p)
  }

  /** Each peer's changes, sorted by where they start. */
  method GroupByPeer(all: seq<SeqChange>) returns (groups: map<nat, seq<SeqChange>>)
    ensures Grouped(all, all, groups)
  {
    groups := map[];
    for i := 0 to |all|
      invariant Grouped(all[..i], all, groups)
    {
      var p := all[i].ch.id.peer;
      assert all[..i + 1] == all[..i] + [all[i]];
      groups := groups[p := (if p in groups then groups[p] else []) + [all[i]]];
    }
    assert all[..|all|] == all;
  }

  /** The first change that starts after c. */
  method FirstAfter(cs: seq<SeqChange>, c: int) returns (i: nat)
    requires ByStart(cs)
    ensures i <= |cs|
    ensures forall k :: 0 <= k < i ==> cs[k].start <= c
    ensures forall k :: i <= k < |cs| ==> cs[k].start > c
  {
    var hi := |cs|;
    i := 0;
    while i < hi
      invariant 0 <= i <= hi <= |cs|
      invariant forall k :: 0 <= k < i ==> cs[k].start <= c
      invariant forall k :: hi <= k < |cs| ==> cs[k].start > c
    {
      var mid := (i + hi) / 2;
      if cs[mid].start > c { hi := mid; } else { i := mid + 1; }
    }
  }

  lemma {:induction false} IndexedAt(all: seq<SeqChange>, byPeer: map<nat, seq<SeqChange>>, maxEnd: map<nat, seq<int>>, p: nat)
    requires Indexed(all, byPeer, maxEnd) && p in byPeer
    ensures p in maxEnd && ByStart(byPeer[p]) && maxEnd[p] == MaxEnds(byPeer[p])
    ensures forall k :: 0 <= k < |byPeer[p]| ==> byPeer[p][k] in all && byPeer[p][k].ch.id.peer == p
  {
  }

  class CausalIndex {
    ghost const h: History
    ghost const told: bool
    const all: seq<SeqChange>
    const byPeer: map<nat, seq<SeqChange>>
    const maxEnd: map<nat, seq<int>>
    var cache: map<SeqChange, map<nat, int>>
    var cached: int
    var complete: bool

    ghost predicate Valid()
      reads this
    {
      && told == Told(h, all)
      && Indexed(all, byPeer, maxEnd)
      && (told ==> forall c :: c in cache ==> c in all && IsVersion(h, cache[c], First(c)))
    }

    constructor (ghost h: History, all: seq<SeqChange>)
      ensures this.h == h && this.all == all && Valid() && cache == map[]
    {
      hide Indexed, Grouped, Sorted, Ends, Told;
      this.h, this.all, told := h, all, Told(h, all);
      cache, cached, complete := map[], 0, true;
      var groups := GroupByPeer(all);
      byPeer := Sorted(groups);
      maxEnd := Ends(Sorted(groups));
      SortedIndexed(all, groups);
    }

    /** A change that holds `id`; none only when no change does. */
    method Find(id: Id) returns (z: Option<SeqChange>)
      requires Indexed(all, byPeer, maxEnd)
      ensures z.Some? ==> z.value in all && Holds(z.value, id)
      ensures z.None? ==> !Held(all, id)
    {
      hide Indexed, Held, ByStart;
      if id.peer !in byPeer {
        NotIndexed(all, byPeer, maxEnd, id);
        return None;
      }
      IndexedAt(all, byPeer, maxEnd, id.peer);
      var cs, ends := byPeer[id.peer], maxEnd[id.peer];
      var after := FirstAfter(cs, id.counter);
      var j: int := (after as int) - 1;
      while j >= 0 && ends[j] > id.counter
        invariant -1 <= j < after
        invariant forall k :: j < k < |cs| ==> !Holds(cs[k], id)
      {
        if id.counter < cs[j].end {
          return Some(cs[j]);
        }
        j := j - 1;
      }
      NoneHolds(all, byPeer, maxEnd, id, j);
      return None;
    }

    /** Whether all that c depends on is held, and some dep of c that is no earlier. */
    method CheckDeps(c: SeqChange) returns (whole: bool, forward: bool)
      requires Indexed(all, byPeer, maxEnd) && c in all
      ensures forward ==> exists d, z :: Forward(all, c, d, z)
      ensures !forward ==> (whole <==> DepsHeld(all, c))
    {
      hide Indexed, Held, Forward;
      whole, forward := true, false;
      if c.start > 0 {
        var z := Find(Prev(First(c)));
        if z.None? { whole := false; } else { HeldBy(all, Prev(First(c)), z.value); }
      }
      ghost var own := whole;
      for i := 0 to |c.ch.deps|
        invariant whole <==> own && forall k :: 0 <= k < i ==> Held(all, c.ch.deps[k])
      {
        var d := c.ch.deps[i];
        var z := Find(d);
        if z.None? {
          whole := false;
        } else {
          HeldBy(all, d, z.value);
          if z.value.ch.lamport + (d.counter - z.value.start) >= c.ch.lamport {
            IsForward(all, c, d, z.value);
            return whole, true;
          }
        }
      }
    }

    /** Says whether every change's deps are here; None is a dep that comes no earlier. Never
        None, and complete, for an honest history. */
    method CheckAll() returns (ok: bool)
      requires Valid()
      modifies this`complete
      ensures Valid()
      ensures !ok ==> exists c, d, z :: Forward(all, c, d, z)
      ensures ok ==> (complete <==> forall c :: c in all ==> DepsHeld(all, c))
      ensures told ==> ok && complete
    {
      hide Indexed, Told, DepsHeld, Forward;
      complete := true;
      for i := 0 to |all|
        invariant Valid() && cache == old(cache)
        invariant complete <==> forall c :: c in all[..i] ==> DepsHeld(all, c)
      {
        assert all[..i + 1] == all[..i] + [all[i]];
        if told { ToldComplete(h, all, all[i]); }
        var whole, forward := CheckDeps(all[i]);
        if forward { return false; }
        if !whole { complete := false; }
      }
      assert all[..|all|] == all;
      if told { forall c | c in all ensures DepsHeld(all, c) { ToldComplete(h, all, c); } }
      return true;
    }

    /** What the author of `sc` had seen when it started `sc`: exactly its causal past. */
    method VersionOf(sc: SeqChange) returns (v: map<nat, int>)
      requires Valid() && sc in all
      modifies this`cache, this`cached
      ensures Valid()
      ensures told ==> IsVersion(h, v, First(sc))
    {
      hide Indexed, Told, IsVersion, Tells, Pending, Sound;
      if sc in cache { return cache[sc]; }
      v := Walk(sc);
      if cached + |v| <= VERSION_CACHE_LIMIT {
        cache := cache[sc := v];
        cached := cached + |v|;
      }
    }

    /** Follows what the stack leads to until nothing is left. */
    method Walk(sc: SeqChange) returns (v: map<nat, int>)
      requires Valid() && sc in all
      ensures told ==> IsVersion(h, v, First(sc))
    {
      hide Indexed, Told, IsVersion, Tells, Pending, Sound, First, Covers;
      v := map[];
      var seen: set<SeqChange> := {};
      var stack := Ahead(sc);
      if told { WalkStarts(h, all, sc); }
      while stack != []
        invariant seen <= Members(all)
        invariant told ==> InWalk(h, v, stack, seen, sc)
        decreases |Members(all) - seen|, |stack|
      {
        var id, rest := stack[|stack| - 1], stack[..|stack| - 1];
        assert stack == rest + [id];
        ghost var v0 := v;
        v := Raise(v, id);
        var z := Find(id);
        if told { WalkHeld(h, all, v0, rest, id, seen, sc); }
        if z.None? || z.value in seen {
          if told { StepSeen(h, all, v0, rest, id, z.value, seen, sc); }
          stack := rest;
        } else {
          var c := z.value;
          MembersShrink(all, seen, c);
          if c in cache {
            if told { StepCached(h, all, v0, rest, id, c, cache[c], seen, sc); }
            v := Merge(v, cache[c]);
            stack := rest;
          } else {
            if told { StepNew(h, all, v0, rest, id, c, seen, sc); }
            stack := rest + Ahead(c);
          }
          seen := seen + {c};
        }
      }
      if told { WalkEnds(h, all, v, seen, sc); }
    }
  }

  function Sorted(groups: map<nat, seq<SeqChange>>): map<nat, seq<SeqChange>> {
    map p | p in groups :: SortByStart(groups[p])
  }

  function Ends(groups: map<nat, seq<SeqChange>>): map<nat, seq<int>> {
    map p | p in groups :: MaxEnds(groups[p])
  }

  lemma {:induction false} SortedIndexed(all: seq<SeqChange>, groups: map<nat, seq<SeqChange>>)
    requires Grouped(all, all, groups)
    ensures Indexed(all, Sorted(groups), Ends(Sorted(groups)))
  {
    var b := Sorted(groups);
    forall p | p in b ensures ByStart(b[p]) && forall c: SeqChange :: c in b[p] <==> c in groups[p] {
      assert b[p] == SortByStart(groups[p]);
    }
  }

  lemma {:induction false} NotIndexed(all: seq<SeqChange>, byPeer: map<nat, seq<SeqChange>>, maxEnd: map<nat, seq<int>>, id: Id)
    requires Indexed(all, byPeer, maxEnd) && id.peer !in byPeer
    ensures !Held(all, id)
  {
  }

  lemma {:induction false} NoneHolds(all: seq<SeqChange>, byPeer: map<nat, seq<SeqChange>>, maxEnd: map<nat, seq<int>>, id: Id, j: int)
    requires Indexed(all, byPeer, maxEnd) && id.peer in byPeer
    requires -1 <= j < |byPeer[id.peer]| && (j >= 0 ==> maxEnd[id.peer][j] <= id.counter)
    requires forall k :: j < k < |byPeer[id.peer]| ==> !Holds(byPeer[id.peer][k], id)
    ensures !Held(all, id)
  {
    var cs := byPeer[id.peer];
    forall c | c in cs ensures !Holds(c, id) {
      var k :| 0 <= k < |cs| && cs[k] == c;
      if k <= j { assert cs[k].end <= MaxEnds(cs)[j]; }
    }
  }

  lemma {:induction false} HeldBy(all: seq<SeqChange>, x: Id, z: SeqChange)
    requires z in all && Holds(z, x)
    ensures Held(all, x)
  {
  }

  lemma {:induction false} IsForward(all: seq<SeqChange>, c: SeqChange, d: Id, z: SeqChange)
    requires c in all && z in all && d in c.ch.deps && Holds(z, d)
    requires z.ch.lamport + (d.counter - z.start) >= c.ch.lamport
    ensures exists d, z :: Forward(all, c, d, z)
  {
    assert Forward(all, c, d, z);
  }

  function Members(all: seq<SeqChange>): set<SeqChange> { set c | c in all }

  lemma {:induction false} MembersShrink(all: seq<SeqChange>, seen: set<SeqChange>, c: SeqChange)
    requires c in all && c !in seen
    ensures |Members(all) - (seen + {c})| < |Members(all) - seen|
  {
    var a, b := Members(all) - seen, Members(all) - (seen + {c});
    assert a == b + {c} && c !in b;
  }

  // ----- the walk -----

  /** What a change leads to: its deps, and its author's atom before it. */
  function Ahead(c: SeqChange): seq<Id> {
    c.ch.deps + if c.start > 0 then [Prev(First(c))] else []
  }

  ghost predicate InWalk(h: History, v: map<nat, int>, stack: seq<Id>, seen: set<SeqChange>, sc: SeqChange)
  {
    && Closed(h)
    && Sound(h, v, stack, First(sc)) && Pending(h, v, stack, First(sc))
    && forall c :: c in seen ==> Pending(h, v, stack, First(c))
  }

  lemma {:induction false} ToldAt(h: History, all: seq<SeqChange>, c: SeqChange)
    requires Told(h, all) && c in all
    ensures Complete(h) && Tells(h, c)
    ensures First(c) in h && Holds(c, First(c))
    ensures h[First(c)].deps == IdSet(c.ch.deps)
    ensures forall d :: d in c.ch.deps ==> Past(h, d, First(c))
    ensures c.start > 0 ==> Past(h, Prev(First(c)), First(c))
  {
    LamportInside(h, c, First(c));
    forall d | d in c.ch.deps ensures Past(h, d, First(c)) { DepInSet(c.ch.deps, d); }
  }

  lemma {:induction false} WalkStarts(h: History, all: seq<SeqChange>, sc: SeqChange)
    requires Told(h, all) && sc in all
    ensures InWalk(h, map[], Ahead(sc), {}, sc)
  {
    hide Told, Tells, Past;
    ToldAt(h, all, sc);
    NewReach(h, map[], Ahead(sc), First(sc), sc);
  }

  lemma {:induction false} WalkHeld(h: History, all: seq<SeqChange>, v: map<nat, int>, rest: seq<Id>, id: Id, seen: set<SeqChange>, sc: SeqChange)
    requires Told(h, all) && InWalk(h, v, rest + [id], seen, sc)
    ensures Held(all, id)
  {
    hide Pending, Held, Past;
    assert id in rest + [id];
    PastIn(h, id, First(sc));
  }

  lemma {:induction false} WalkEnds(h: History, all: seq<SeqChange>, v: map<nat, int>, seen: set<SeqChange>, sc: SeqChange)
    requires Told(h, all) && InWalk(h, v, [], seen, sc)
    ensures IsVersion(h, v, First(sc))
  {
    hide IsVersion, Sound, Pending;
    WalkDone(h, v, First(sc));
  }

  /** A change met before adds nothing to look at. */
  lemma {:induction false} StepSeen(h: History, all: seq<SeqChange>, v: map<nat, int>, rest: seq<Id>, id: Id, c: SeqChange, seen: set<SeqChange>, sc: SeqChange)
    requires Told(h, all) && InWalk(h, v, rest + [id], seen, sc) && c in seen && c in all && Holds(c, id)
    ensures InWalk(h, Raise(v, id), rest, seen, sc)
  {
    hide Told, Tells, Pending, Sound, Past, Reach, Raise, Holds;
    ToldAt(h, all, c);
    HeldIn(h, c, id);
    RaiseGrows(v, id);
    RaiseKeeps(v, id);
    SeenReach(h, v, rest, id, c, Raise(v, id));
    PushSound(h, v, rest, id, c, First(sc));
    PopAll(h, v, rest, id, c, Raise(v, id), rest, seen, sc);
  }

  lemma {:induction false} HeldIn(h: History, c: SeqChange, x: Id)
    requires Tells(h, c) && Holds(c, x)
    ensures x in h
  {
    LamportInside(h, c, x);
  }

  lemma {:induction false} RaiseKeeps(v: map<nat, int>, x: Id)
    ensures Grows(v, Raise(v, x)) && Grows(Raise(v, x), Raise(v, x))
  {
  }

  lemma {:induction false} PopAll(h: History, v: map<nat, int>, rest: seq<Id>, id: Id, c: SeqChange, w: map<nat, int>, stack: seq<Id>, seen: set<SeqChange>, sc: SeqChange)
    requires Closed(h) && Tells(h, c) && id in h && Holds(c, id) && Grows(Raise(v, id), w)
    requires forall s: Id :: s in rest ==> s in stack
    requires forall x :: Past(h, x, First(c)) ==> Reach(h, w, stack, x, h[id].lamport)
    requires InWalk(h, v, rest + [id], seen, sc) && Sound(h, w, stack, First(sc))
    ensures InWalk(h, w, stack, seen, sc)
  {
    hide Tells, Pending, Sound, Past, Reach, Raise, Holds, Closed, Grows;
    PopKeeps(h, v, rest, id, c, w, stack, First(sc));
    forall d | d in seen ensures Pending(h, w, stack, First(d)) {
      PopKeeps(h, v, rest, id, c, w, stack, First(d));
    }
  }

  /** A change whose version is known brings it whole. */
  lemma {:induction false} StepCached(h: History, all: seq<SeqChange>, v: map<nat, int>, rest: seq<Id>, id: Id, c: SeqChange, zv: map<nat, int>,
                   seen: set<SeqChange>, sc: SeqChange)
    requires Told(h, all) && InWalk(h, v, rest + [id], seen, sc) && c in all && Holds(c, id)
    requires Closed(h) && IsVersion(h, zv, First(c))
    ensures InWalk(h, Merge(Raise(v, id), zv), rest, seen + {c}, sc)
  {
    hide Told, Tells, Pending, Sound, Past, Reach, Raise, Holds, IsVersion, Merge, Closed, Grows;
    ToldAt(h, all, c);
    HeldIn(h, c, id);
    var w := Raise(v, id);
    CachedReach(h, w, zv, rest, id, c);
    PushSound(h, v, rest, id, c, First(sc));
    StartAhead(h, c, id, rest, First(sc), v);
    CachedSound(h, w, zv, rest, c, First(sc));
    PopAll(h, v, rest, id, c, Merge(w, zv), rest, seen, sc);
  }

  lemma {:induction false} StartAhead(h: History, c: SeqChange, id: Id, rest: seq<Id>, y: Id, v: map<nat, int>)
    requires Complete(h) && Tells(h, c) && Holds(c, id) && Sound(h, v, rest + [id], y)
    ensures Past(h, First(c), y)
  {
    assert id in rest + [id];
    HeldIn(h, c, id);
    StartPast(h, c, id, y);
  }

  /** A change met for the first time leaves its deps to look at. */
  lemma {:induction false} StepNew(h: History, all: seq<SeqChange>, v: map<nat, int>, rest: seq<Id>, id: Id, c: SeqChange, seen: set<SeqChange>, sc: SeqChange)
    requires Told(h, all) && InWalk(h, v, rest + [id], seen, sc) && c in all && Holds(c, id)
    ensures InWalk(h, Raise(v, id), rest + Ahead(c), seen + {c}, sc)
  {
    hide Told, Tells, Pending, Past, Reach, Raise, Holds, Closed, Grows;
    ToldAt(h, all, c);
    HeldIn(h, c, id);
    var w, stack := Raise(v, id), rest + Ahead(c);
    RaiseKeeps(v, id);
    NewReach(h, w, stack, id, c);
    PushSound(h, v, rest, id, c, First(sc));
    PopAll(h, v, rest, id, c, w, stack, seen, sc);
  }
}
