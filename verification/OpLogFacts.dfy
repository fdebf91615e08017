/** What importing keeps: the facts behind the op log's methods. */
module OpLogFacts {
  import opened Common
  import opened SeqTypes
  import opened CausalHistory
  import opened IdLists
  import opened Ops
  import opened Folding
  import opened Changes
  import opened Blocks
  import opened ChangeStores
  import opened LogHistory
  import opened Frontiers
  import opened LamportSort

  // ----- what is applied -----

  predicate Reached(vv: map<nat, int>, x: Id) { x.peer in vv && 0 <= x.counter < vv[x.peer] }

  ghost function Applied(w: World, vv: map<nat, int>): set<Id> {
    set x | x in w.h && Reached(vv, x)
  }

  /** The store holds the applied atoms of one peer, from its first on. */
  ghost predicate PeerStored(w: World, log: seq<Entry>, from: int, p: nat, end: int) {
    && end > 0 && from == 0 && |log| == end
    && forall k :: 0 <= k < end ==> StoredAtom(w, log, p, k)
  }

  ghost predicate StoredAtom(w: World, log: seq<Entry>, p: nat, k: nat)
    requires k < |log|
  {
    Id(p, k) in w.h && Id(p, k) in w.does && log[k] == EntryOf(w, Id(p, k))
  }

  ghost predicate Stored(w: World, peers: map<nat, seq<Block>>, vv: map<nat, int>) {
    && peers.Keys == vv.Keys
    && forall p :: p in vv ==> PeerStored(w, LogIn(peers, p), FromIn(peers, p), p, vv[p])
  }

  // ----- what waits -----

  type Pending = map<Id, seq<Change>>

  ghost predicate Filed(pending: Pending, m: Id, c: Change) { m in pending && c in pending[m] }

  /** The changes filed, whatever they wait for. */
  ghost function Waiting(pending: Pending): set<Change> { set m, c | m in pending && c in pending[m] :: c }

  ghost function ChangeSet(cs: seq<Change>): set<Change> { set c | c in cs }

  /** c waits for m: m comes before it, and all its atoms have arrived. */
  ghost predicate WaitsFor(w: World, received: set<Id>, m: Id, c: Change)
    requires Honest(w)
  {
    Told(w, c) && AtomsOf(c) <= received && Past(w.h, m, c.id)
  }

  /** An id to be looked at that will bring up what waits for m. */
  ghost predicate Queued(ids: seq<Id>, m: Id) {
    exists i: Id :: i in ids && i.peer == m.peer && i.counter >= m.counter
  }

  /** Everything filed waits for an atom that is not applied, or that is queued. */
  ghost predicate FiledRight(w: World, vv: map<nat, int>, pending: Pending, received: set<Id>, ids: seq<Id>)
    requires Honest(w)
  {
    forall m, c :: Filed(pending, m, c) ==> WaitsFor(w, received, m, c) && (Reached(vv, m) ==> Queued(ids, m))
  }

  /** Each atom received is applied, or in a change that is filed or still to be settled. */
  ghost predicate NoneLost(vv: map<nat, int>, pending: Pending, received: set<Id>, todo: seq<Change>) {
    forall x :: x in received ==> Reached(vv, x) || Awaits(pending, todo, x)
  }

  ghost predicate Awaits(pending: Pending, todo: seq<Change>, x: Id) {
    (exists c :: c in todo && Within(c, x)) || (exists m, c :: Filed(pending, m, c) && Within(c, x))
  }

  ghost predicate TodoRight(w: World, received: set<Id>, todo: seq<Change>) {
    forall c :: c in todo ==> Told(w, c) && AtomsOf(c) <= received
  }

  // ----- the largest causally complete part -----

  /** When nothing is queued or to be settled, every causally complete part of what was received is
      applied. */
  lemma {:induction false} LargestPart(w: World, vv: map<nat, int>, pending: Pending, received: set<Id>, s: set<Id>, x: Id)
    requires Honest(w) && FiledRight(w, vv, pending, received, []) && NoneLost(vv, pending, received, [])
    requires DownClosed(w.h, s) && s <= received && x in s
    ensures Reached(vv, x)
    decreases w.h[x].lamport
  {
    hide Past, Told;
    if !Reached(vv, x) {
      assert Awaits(pending, [], x);
      var m, c :| Filed(pending, m, c) && Within(c, x);
      assert WaitsFor(w, received, m, c);
      WaitedPast(w, c, m, x);
      ClosedPast(w.h, s, m, x);
      PastIn(w.h, m, x);
      LargestPart(w, vv, pending, received, s, m);
    }
  }

  lemma {:induction false} WaitedPast(w: World, c: Change, m: Id, x: Id)
    requires Honest(w) && Told(w, c) && Past(w.h, m, c.id) && Within(c, x)
    ensures Past(w.h, m, x)
  {
    hide Past, Told;
    ToldTells(w, c);
    if x != c.id {
      BeforeInside(w.h, AsSeq(c), c.id, x);
      PastTrans(w.h, m, c.id, x);
    }
  }

  // ----- applying a change -----

  function EndOf(vv: map<nat, int>, p: nat): int { if p in vv then vv[p] else 0 }

  lemma {:induction false} ReachedIn(w: World, peers: map<nat, seq<Block>>, vv: map<nat, int>, x: Id)
    requires Stored(w, peers, vv)
    ensures Reached(vv, x) <==> x in Applied(w, vv)
    ensures Reached(vv, x) ==> x in w.h && x in w.does && 0 <= x.counter < |LogIn(peers, x.peer)|
    ensures Reached(vv, x) ==> LogIn(peers, x.peer)[x.counter] == EntryOf(w, x)
  {
    hide LogIn, FromIn;
    if Reached(vv, x) { assert StoredAtom(w, LogIn(peers, x.peer), x.peer, x.counter); }
  }

  /** A change that starts where its peer's log ends, its deps applied. */
  ghost predicate Appends(w: World, vv: map<nat, int>, c: Change) {
    && Honest(w) && Told(w, c) && c.id.counter == EndOf(vv, c.id.peer)
    && forall d :: d in c.deps ==> Reached(vv, d)
  }

  lemma {:induction false} AppendsReady(w: World, peers: map<nat, seq<Block>>, vv: map<nat, int>, c: Change)
    requires Stored(w, peers, vv) && DownClosed(w.h, Applied(w, vv)) && Appends(w, vv, c)
    ensures Ready(w, Applied(w, vv), c)
  {
    hide Told, LogIn, FromIn;
    forall d | d in c.deps ensures d in Applied(w, vv) { ReachedIn(w, peers, vv, d); }
    ReachedIn(w, peers, vv, c.id);
  }

  lemma {:induction false} AppendsTaken(w: World, peers: map<nat, seq<Block>>, vv: map<nat, int>, c: Change)
    requires Stored(w, peers, vv) && Appends(w, vv, c)
    ensures TakenBy(peers, c)
  {
    hide LogIn, FromIn, ToldAtom, Honest;
    var p := c.id.peer;
    if p in peers {
      assert PeerStored(w, LogIn(peers, p), FromIn(peers, p), p, vv[p]);
      if |c.deps| == 1 && c.deps[0].peer == p {
        OwnDep(w, c);
        ReachedIn(w, peers, vv, Prev(c.id));
      }
    }
  }

  lemma {:induction false} AppliedGrows(w: World, vv: map<nat, int>, c: Change)
    requires Appends(w, vv, c) && (c.id.peer in vv ==> vv[c.id.peer] > 0)
    ensures Applied(w, vv[c.id.peer := ChangeEnd(c)]) == Applied(w, vv) + AtomsOf(c)
  {
    hide Told, Honest;
    ToldTells(w, c);
    var s, t := Applied(w, vv[c.id.peer := ChangeEnd(c)]), Applied(w, vv) + AtomsOf(c);
    forall x ensures x in s <==> x in t {
      AtomsAre(c, x);
      if Within(c, x) { LamportInside(w.h, AsSeq(c), x); }
    }
  }

  lemma {:induction false} StoredGrows(w: World, was: map<nat, seq<Block>>, now: map<nat, seq<Block>>, vv: map<nat, int>, c: Change)
    requires Stored(w, was, vv) && Appends(w, vv, c) && Grown(was, now, c, |Entries(c)|)
    ensures Stored(w, now, vv[c.id.peer := ChangeEnd(c)])
  {
    hide Told, Honest, Entries, LogOf, Flat, Origin, PeerStored;
    ToldTells(w, c);
    var p := c.id.peer;
    forall q | q in now && q != p ensures PeerStored(w, LogIn(now, q), FromIn(now, q), q, vv[q]) {
      assert PeerStored(w, LogIn(was, q), FromIn(was, q), q, vv[q]);
    }
    assert Entries(c)[..|Entries(c)|] == Entries(c);
    PeerGrows(w, LogIn(was, p), if p in was then FromIn(was, p) else 0, vv, c);
  }

  lemma {:induction false} PeerGrows(w: World, log: seq<Entry>, from: int, vv: map<nat, int>, c: Change)
    requires Told(w, c) && c.id.counter == EndOf(vv, c.id.peer) && |Entries(c)| == ChangeEnd(c) - c.id.counter > 0
    requires if c.id.peer in vv then PeerStored(w, log, from, c.id.peer, vv[c.id.peer]) else log == [] && from == 0
    ensures PeerStored(w, log + Entries(c), from, c.id.peer, ChangeEnd(c))
  {
    hide Formed, Entries;
    var l, p := log + Entries(c), c.id.peer;
    forall k | 0 <= k < |l| ensures StoredAtom(w, l, p, k) {
      if k < |log| { assert StoredAtom(w, log, p, k); }
      else { assert ToldAtom(w, c, k - |log|); }
    }
  }

  lemma {:induction false} DepWithin(w: World, c: Change, x: Id, d: Id)
    requires Told(w, c) && Within(c, x) && x in w.h && d in w.h[x].deps
    ensures d in c.deps || Within(c, d)
  {
    hide Told, Past;
    ToldTells(w, c);
    assert TellsAtom(w.h, AsSeq(c), x.counter);
    DepInSet(c.deps, d);
  }

  lemma {:induction false} ClosedGrows(w: World, s: set<Id>, c: Change)
    requires Ready(w, s, c)
    ensures DownClosed(w.h, s + AtomsOf(c))
  {
    hide Told, Honest, Within;
    var t := s + AtomsOf(c);
    forall x | x in t ensures x in w.h { AtomsAre(c, x); if x !in s { ReadyAtoms(w, s, c, x); } }
    forall x, d | x in t && d in w.h[x].deps ensures d in t {
      AtomsAre(c, x);
      AtomsAre(c, d);
      if x !in s { DepWithin(w, c, x, d); }
    }
  }

  lemma {:induction false} NotReached(w: World, peers: map<nat, seq<Block>>, vv: map<nat, int>, id: Id)
    requires Stored(w, peers, vv)
    requires id.peer !in peers || id.counter < FromIn(peers, id.peer) || id.counter >= FromIn(peers, id.peer) + |LogIn(peers, id.peer)|
    ensures !Reached(vv, id)
  {
    hide LogIn, FromIn;
    if id.peer in vv { assert PeerStored(w, LogIn(peers, id.peer), FromIn(peers, id.peer), id.peer, vv[id.peer]); }
  }

  lemma {:induction false} FoundLamport(w: World, peers: map<nat, seq<Block>>, vv: map<nat, int>, c: Change, id: Id)
    requires Stored(w, peers, vv) && id.peer in peers && StoredIn(c, LogIn(peers, id.peer), FromIn(peers, id.peer), id)
    ensures Reached(vv, id) && id in w.h && c.lamport + (id.counter - c.id.counter) == w.h[id].lamport
  {
    hide LogIn, FromIn, Formed, Entries, Joined;
    var log, k := LogIn(peers, id.peer), id.counter - c.id.counter;
    assert PeerStored(w, log, FromIn(peers, id.peer), id.peer, vv[id.peer]);
    ReachedIn(w, peers, vv, id);
    EntryCount(c);
    EntryAt(c, k);
    assert log[c.id.counter..c.id.counter + |Entries(c)|][k] == log[id.counter];
  }

  /** The least l above every dep's lamport. */
  ghost predicate PastDeps(h: History, deps: seq<Id>, l: int) {
    && (forall d :: d in deps ==> d in h && h[d].lamport < l)
    && (if deps == [] then l == 0 else exists d :: d in deps && l == h[d].lamport + 1)
  }

  lemma {:induction false} PastMore(h: History, deps: seq<Id>, i: nat, l: int)
    requires i < |deps| && PastDeps(h, deps[..i], l) && deps[i] in h
    ensures PastDeps(h, deps[..i + 1], Max(l, h[deps[i]].lamport + 1))
  {
    var a, b := deps[..i], deps[..i + 1];
    assert b == a + [deps[i]];
    assert deps[i] in b;
  }

  /** An honest change starts one past the highest lamport among its deps. */
  lemma {:induction false} OwnLamport(w: World, c: Change, l: int)
    requires Honest(w) && Told(w, c) && PastDeps(w.h, c.deps, l)
    ensures l == c.lamport
  {
    hide Told, Past, Closed, CausalHistory.OwnSeen, Tight, PastDeps;
    ToldTells(w, c);
    TightAt(w.h, c.id);
    TightLamport(w.h, c.deps, c.id, l);
  }

  lemma {:induction false} TightAt(h: History, x: Id)
    requires Closed(h) && Tight(h) && x in h
    ensures if h[x].deps == {} then h[x].lamport == 0 else exists d :: d in h[x].deps && d in h && h[x].lamport == h[d].lamport + 1
    ensures forall d :: d in h[x].deps ==> d in h && h[d].lamport < h[x].lamport
  {
    if h[x].deps != {} { assert TopDep(h, x); }
  }

  lemma {:induction false} TightLamport(h: History, deps: seq<Id>, x: Id, l: int)
    requires x in h && h[x].deps == IdSet(deps) && PastDeps(h, deps, l)
    requires if h[x].deps == {} then h[x].lamport == 0 else exists d :: d in h[x].deps && d in h && h[x].lamport == h[d].lamport + 1
    requires forall d :: d in h[x].deps ==> d in h && h[d].lamport < h[x].lamport
    ensures l == h[x].lamport
  {
    forall d ensures d in h[x].deps <==> d in deps { DepInSet(deps, d); }
    if deps != [] {
      assert deps[0] in h[x].deps;
      var d :| d in h[x].deps && d in h && h[x].lamport == h[d].lamport + 1;
      var e :| e in deps && l == h[e].lamport + 1;
    }
  }

  /** r is what c says from r's first atom on. */
  ghost predicate IsTail(w: World, c: Change, r: Change) {
    Told(w, r) && r.id.peer == c.id.peer && c.id.counter <= r.id.counter && ChangeEnd(r) == ChangeEnd(c)
    && r.deps == (if r.id == c.id then c.deps else [Prev(r.id)])
  }

  lemma {:induction false} LastLamport(w: World, c: Change)
    requires Honest(w) && Told(w, c)
    ensures c.lamport + (ChangeEnd(c) - c.id.counter) <= MAX_LAMPORT
  {
    hide Told, Past;
    ToldTells(w, c);
    LamportInside(w.h, AsSeq(c), LastId(c));
  }

  lemma {:induction false} FewDeps(w: World, c: Change)
    requires Told(w, c)
    ensures DistinctIds(c.deps)
  {
  }

  lemma {:induction false} StoredEnds(w: World, peers: map<nat, seq<Block>>, vv: map<nat, int>, p: nat)
    requires Stored(w, peers, vv)
    ensures p in vv ==> vv[p] > 0
  {
    if p in vv { assert PeerStored(w, LogIn(peers, p), FromIn(peers, p), p, vv[p]); }
  }

  lemma {:induction false} OwnBefore(h: History, x: Id)
    requires Complete(h) && x in h && x.counter > 0
    ensures Past(h, Prev(x), x)
  {
  }

  lemma {:induction false} DepBelow(w: World, c: Change, d: Id)
    requires Honest(w) && Told(w, c) && d in c.deps
    ensures d in w.h && d.counter >= 0 && w.h[d].lamport < c.lamport && Past(w.h, d, c.id)
  {
    ToldTells(w, c);
    DepInSet(c.deps, d);
  }

  lemma {:induction false} ToldSame(w: World, c: Change)
    requires Told(w, c)
    ensures SetLamport(c, c.lamport) == c
  {
    SameLamport(c);
  }

  lemma {:induction false} TailAppends(w: World, vv: map<nat, int>, c: Change, r: Change)
    requires Honest(w) && IsTail(w, c, r) && r.id.counter == EndOf(vv, c.id.peer) && c.id.counter >= 0
    requires forall d :: d in c.deps ==> Reached(vv, d)
    ensures Appends(w, vv, r) && AtomsOf(r) <= AtomsOf(c)
  {
    hide Told, Honest;
    forall x | x in AtomsOf(r) ensures x in AtomsOf(c) { AtomsAre(r, x); AtomsAre(c, x); }
  }

  lemma {:induction false} TodoFirst(w: World, received: set<Id>, c: Change, todo: seq<Change>)
    requires TodoRight(w, received, [c] + todo)
    ensures Told(w, c) && AtomsOf(c) <= received && TodoRight(w, received, todo)
  {
    assert c in [c] + todo;
    assert forall d :: d in todo ==> d in [c] + todo;
  }

  lemma {:induction false} FiledMore(pending: Pending, m: Id, c: Change, q: Pending)
    requires q == pending[m := (if m in pending then pending[m] else []) + [c]]
    ensures forall n, d :: Filed(q, n, d) <==> Filed(pending, n, d) || (n == m && d == c)
  {
  }

  lemma {:induction false} SettleParked(w: World, vv: map<nat, int>, pending: Pending, received: set<Id>, todo: seq<Change>, ids: seq<Id>,
                                        c: Change, m: Id)
    requires Honest(w) && FiledRight(w, vv, pending, received, ids) && NoneLost(vv, pending, received, [c] + todo)
    requires WaitsFor(w, received, m, c) && !Reached(vv, m)
    ensures var q := pending[m := (if m in pending then pending[m] else []) + [c]];
      FiledRight(w, vv, q, received, ids) && NoneLost(vv, q, received, todo)
  {
    hide WaitsFor, Reached, Queued, Within, Filed, Honest;
    var q := pending[m := (if m in pending then pending[m] else []) + [c]];
    FiledMore(pending, m, c, q);
    forall x | x in received ensures Reached(vv, x) || Awaits(q, todo, x) {
      if !Reached(vv, x) {
        assert Awaits(pending, [c] + todo, x);
        if Within(c, x) { assert Filed(q, m, c); }
      }
    }
  }

  lemma {:induction false} SettleDone(w: World, vv: map<nat, int>, pending: Pending, received: set<Id>, todo: seq<Change>, c: Change)
    requires NoneLost(vv, pending, received, [c] + todo) && Told(w, c) && ChangeEnd(c) <= EndOf(vv, c.id.peer)
    ensures NoneLost(vv, pending, received, todo)
  {
    hide Told, Filed;
    FromZero(w, c);
    forall x | x in received ensures Reached(vv, x) || Awaits(pending, todo, x) {
      if !Reached(vv, x) { assert Awaits(pending, [c] + todo, x); }
    }
  }

  lemma {:induction false} FromZero(w: World, c: Change)
    requires Told(w, c)
    ensures 0 <= c.id.counter < ChangeEnd(c)
  {
    FormedSize(c);
  }

  lemma {:induction false} SettleApplied(w: World, vv: map<nat, int>, pending: Pending, received: set<Id>, todo: seq<Change>, ids: seq<Id>, c: Change)
    requires Honest(w) && FiledRight(w, vv, pending, received, ids) && NoneLost(vv, pending, received, [c] + todo)
    requires Told(w, c) && EndOf(vv, c.id.peer) < ChangeEnd(c)
    ensures var now := vv[c.id.peer := ChangeEnd(c)];
      FiledRight(w, now, pending, received, ids + [LastId(c)]) && NoneLost(now, pending, received, todo)
  {
    hide Told, Filed, WaitsFor, Honest;
    FromZero(w, c);
    var now := vv[c.id.peer := ChangeEnd(c)];
    forall x | Reached(vv, x) ensures Reached(now, x) { }
    forall m, d | Filed(pending, m, d) && Reached(now, m) ensures Queued(ids + [LastId(c)], m) {
      if Reached(vv, m) { StillQueued(ids, LastId(c), m); } else { assert LastId(c) in ids + [LastId(c)]; }
    }
    forall x | x in received ensures Reached(now, x) || Awaits(pending, todo, x) {
      if !Reached(now, x) { assert Awaits(pending, [c] + todo, x); }
    }
  }

  lemma {:induction false} StillQueued(ids: seq<Id>, last: Id, m: Id)
    requires Queued(ids, m)
    ensures Queued(ids + [last], m)
  {
    var i: Id :| i in ids && i.peer == m.peer && i.counter >= m.counter;
    assert i in ids + [last];
  }

  lemma {:induction false} MoreApplied(w: World, vv: map<nat, int>, c: Change)
    requires Told(w, c) && EndOf(vv, c.id.peer) < ChangeEnd(c)
    ensures Applied(w, vv) < Applied(w, vv[c.id.peer := ChangeEnd(c)])
  {
    hide Told;
    FromZero(w, c);
    ToldTells(w, c);
    LamportInside(w.h, AsSeq(c), LastId(c));
    assert LastId(c) in Applied(w, vv[c.id.peer := ChangeEnd(c)]) && LastId(c) !in Applied(w, vv);
  }

  // ----- releasing what waits -----

  predicate AtOrBelow(m: Id, id: Id) { m.peer == id.peer && m.counter <= id.counter }

  /** What is filed under the keys, in their order. */
  function Gather(pending: Pending, keys: seq<Id>): (due: seq<Change>)
    requires forall m :: m in keys ==> m in pending
    ensures forall c :: c in due <==> exists m :: m in keys && c in pending[m]
  {
    if keys == [] then []
    else
      var n := |keys| - 1;
      assert keys == keys[..n] + [keys[n]];
      Gather(pending, keys[..n]) + pending[keys[n]]
  }

  /** The atoms of the history not applied. */
  ghost function Left(w: World, vv: map<nat, int>): set<Id> { w.h.Keys - Applied(w, vv) }

  lemma {:induction false} LeftShrinks(w: World, was: map<nat, int>, now: map<nat, int>)
    requires Applied(w, was) < Applied(w, now)
    ensures |Left(w, now)| < |Left(w, was)|
  {
    var x :| x in Applied(w, now) && x !in Applied(w, was);
    Smaller(Left(w, now), Left(w, was), x);
  }

  ghost predicate VersionGrows(was: map<nat, int>, now: map<nat, int>) {
    forall x :: Reached(was, x) ==> Reached(now, x)
  }

  lemma {:induction false} TakenUp(w: World, vv: map<nat, int>, was: Pending, pending: Pending, received: set<Id>, id: Id, rest: seq<Id>,
                                   due: seq<Change>, todo: seq<Change>)
    requires Honest(w) && FiledRight(w, vv, was, received, rest + [id])
    requires NoneLost(vv, was, received, todo) && TodoRight(w, received, todo)
    requires forall m, c :: Filed(pending, m, c) <==> Filed(was, m, c) && !AtOrBelow(m, id)
    requires forall c :: c in due <==> exists m :: Filed(was, m, c) && AtOrBelow(m, id)
    ensures FiledRight(w, vv, pending, received, rest)
    ensures NoneLost(vv, pending, received, due + todo) && TodoRight(w, received, due + todo)
  {
    hide Filed, WaitsFor, Reached, Within, Honest, Told, AtomsOf;
    forall m, c | Filed(pending, m, c) ensures WaitsFor(w, received, m, c) && (Reached(vv, m) ==> Queued(rest, m)) {
      if Reached(vv, m) { QueuedRest(rest, id, m); }
    }
    forall x | x in received ensures Reached(vv, x) || Awaits(pending, due + todo, x) {
      if !Reached(vv, x) {
        assert Awaits(was, todo, x);
        StillAwaits(was, pending, id, due, todo, x);
      }
    }
    forall c | c in due + todo ensures Told(w, c) && AtomsOf(c) <= received {
      if c in due {
        var m :| Filed(was, m, c) && AtOrBelow(m, id);
        WaitsTold(w, received, m, c);
      }
    }
  }

  lemma {:induction false} WaitsTold(w: World, received: set<Id>, m: Id, c: Change)
    requires Honest(w) && WaitsFor(w, received, m, c)
    ensures Told(w, c) && AtomsOf(c) <= received
  {
  }

  lemma {:induction false} QueuedRest(rest: seq<Id>, id: Id, m: Id)
    requires Queued(rest + [id], m) && !AtOrBelow(m, id)
    ensures Queued(rest, m)
  {
    var i: Id :| i in rest + [id] && i.peer == m.peer && i.counter >= m.counter;
    assert i in rest;
  }

  lemma {:induction false} StillAwaits(was: Pending, pending: Pending, id: Id, due: seq<Change>, todo: seq<Change>, x: Id)
    requires Awaits(was, todo, x)
    requires forall m, c :: Filed(pending, m, c) <==> Filed(was, m, c) && !AtOrBelow(m, id)
    requires forall c :: c in due <==> exists m :: Filed(was, m, c) && AtOrBelow(m, id)
    ensures Awaits(pending, due + todo, x)
  {
    hide Filed, Within, AtOrBelow;
    if c :| c in todo && Within(c, x) {
      assert c in due + todo;
    } else {
      var m, c :| Filed(was, m, c) && Within(c, x);
      if AtOrBelow(m, id) { assert c in due + todo; } else { assert Filed(pending, m, c); }
    }
  }

  // ----- the first pass -----

  /** Each dep of the i-th change is applied, or in a change before it. */
  ghost predicate Ahead(vv: map<nat, int>, changes: seq<Change>, i: nat)
    requires i < |changes|
  {
    forall d :: d in changes[i].deps ==> Reached(vv, d) || exists j :: 0 <= j < i && Within(changes[j], d)
  }

  ghost predicate AllAhead(vv: map<nat, int>, changes: seq<Change>) {
    forall i :: 0 <= i < |changes| ==> Ahead(vv, changes, i)
  }

  ghost predicate AllReached(vv: map<nat, int>, changes: seq<Change>) {
    forall i, x :: 0 <= i < |changes| && Within(changes[i], x) ==> Reached(vv, x)
  }

  /** A log that has received nothing. */
  lemma {:induction false} NothingYet(w: World)
    requires Honest(w)
    ensures Stored(w, map[], map[]) && DownClosed(w.h, Applied(w, map[])) && FrontierIs(w.h, Applied(w, map[]), map[])
    ensures Applied(w, map[]) == {} && FiledRight(w, map[], map[], {}, []) && NoneLost(map[], map[], {}, []) && TodoRight(w, {}, [])
  {
    hide Honest;
  }

  lemma {:induction false} NoneReached(vv: map<nat, int>, changes: seq<Change>)
    ensures AllReached(vv, changes[..0])
  {
  }

  lemma {:induction false} AllReachedGrows(was: map<nat, int>, now: map<nat, int>, sorted: seq<Change>, changes: seq<Change>)
    requires AllReached(was, sorted) && VersionGrows(was, now) && forall c :: c in sorted <==> c in changes
    ensures AllReached(now, changes)
  {
    hide Reached, Within;
    forall i, x | 0 <= i < |changes| && Within(changes[i], x) ensures Reached(now, x) {
      assert changes[i] in changes;
      var j :| 0 <= j < |sorted| && sorted[j] == changes[i];
      assert Reached(was, x);
    }
  }

  lemma {:induction false} ReorderReached(vv: map<nat, int>, sorted: seq<Change>, changes: seq<Change>)
    requires forall c :: c in sorted <==> c in changes
    ensures AllReached(vv, sorted) ==> AllReached(vv, changes)
    ensures ChangeSet(sorted) == ChangeSet(changes)
  {
    hide Reached, Within;
    if AllReached(vv, sorted) {
      forall i, x | 0 <= i < |changes| && Within(changes[i], x) ensures Reached(vv, x) {
        assert changes[i] in changes;
        var j :| 0 <= j < |sorted| && sorted[j] == changes[i];
      }
    }
  }

  /** Filing c adds it to what waits. */
  lemma {:induction false} WaitingMore(was: Pending, m: Id, c: Change)
    ensures Waiting(was[m := (if m in was then was[m] else []) + [c]]) == Waiting(was) + {c}
  {
    var now := was[m := (if m in was then was[m] else []) + [c]];
    forall d ensures d in Waiting(now) <==> d in Waiting(was) || d == c {
      if k :| k in was && d in was[k] { assert k in now && d in now[k]; }
      assert m in now && c in now[m];
    }
  }

  lemma {:induction false} WaitingTaken(was: Pending, now: Pending, id: Id, due: seq<Change>)
    requires forall m, c :: Filed(now, m, c) <==> Filed(was, m, c) && !AtOrBelow(m, id)
    requires forall c :: c in due <==> exists m :: Filed(was, m, c) && AtOrBelow(m, id)
    ensures Waiting(now) + ChangeSet(due) == Waiting(was)
  {
    hide AtOrBelow;
    forall c ensures c in Waiting(now) || c in due <==> c in Waiting(was) {
      if m :| m in was && c in was[m] { assert Filed(was, m, c); }
      if m :| m in now && c in now[m] { assert Filed(now, m, c); }
    }
  }

  lemma {:induction false} SetOfTail(due: seq<Change>, i: nat)
    requires i < |due|
    ensures due[i] in ChangeSet(due)
  {
  }

  lemma {:induction false} AheadNext(v0: map<nat, int>, was: map<nat, int>, now: map<nat, int>, changes: seq<Change>, i: nat)
    requires i < |changes| && VersionGrows(v0, was) && VersionGrows(was, now)
    ensures AllAhead(v0, changes) && AllReached(was, changes[..i]) ==> forall d :: d in changes[i].deps ==> Reached(was, d)
    ensures AllReached(was, changes[..i]) && (forall x :: Within(changes[i], x) ==> Reached(now, x)) ==> AllReached(now, changes[..i + 1])
  {
    hide Reached, Within;
    var s, t := changes[..i], changes[..i + 1];
    if AllAhead(v0, changes) && AllReached(was, s) {
      assert Ahead(v0, changes, i);
      forall d | d in changes[i].deps ensures Reached(was, d) {
        if !Reached(v0, d) {
          var j :| 0 <= j < i && Within(changes[j], d);
          assert s[j] == changes[j];
        }
      }
    }
    if AllReached(was, s) && forall x :: Within(changes[i], x) ==> Reached(now, x) {
      forall j, x | 0 <= j < |t| && Within(t[j], x) ensures Reached(now, x) {
        if j < i { assert s[j] == t[j]; }
      }
    }
  }

  lemma {:induction false} TodoAt(w: World, received: set<Id>, before: seq<Change>, c: Change, rest: seq<Change>)
    requires TodoRight(w, received, before + ([c] + rest))
    ensures Told(w, c) && AtomsOf(c) <= received && TodoRight(w, received, before + rest)
  {
    var all := before + ([c] + rest);
    assert all[|before|] == c;
    forall d | d in before + rest ensures d in all {
      if d !in before { assert d in [c] + rest; }
    }
  }

  lemma {:induction false} TodoSame(vv: map<nat, int>, pending: Pending, received: set<Id>, before: seq<Change>, c: Change, rest: seq<Change>)
    requires NoneLost(vv, pending, received, before + ([c] + rest))
    ensures NoneLost(vv, pending, received, [c] + (before + rest))
  {
    hide Filed, Within, Reached;
    forall x | x in received ensures Reached(vv, x) || Awaits(pending, [c] + (before + rest), x) {
      if !Reached(vv, x) { assert Awaits(pending, before + ([c] + rest), x); }
    }
  }

  lemma {:induction false} QueueMore(w: World, vv: map<nat, int>, pending: Pending, received: set<Id>, ids: seq<Id>, id: Id)
    requires Honest(w) && FiledRight(w, vv, pending, received, ids)
    ensures FiledRight(w, vv, pending, received, ids + [id])
  {
    hide Filed, WaitsFor, Reached, Honest;
    forall m, c | Filed(pending, m, c) && Reached(vv, m) ensures Queued(ids + [id], m) { StillQueued(ids, id, m); }
  }

  /** With its deps applied, a change's own earlier atoms are applied. */
  lemma {:induction false} OwnReached(w: World, peers: map<nat, seq<Block>>, vv: map<nat, int>, c: Change)
    requires Honest(w) && Told(w, c) && Stored(w, peers, vv) && DownClosed(w.h, Applied(w, vv))
    requires forall d :: d in c.deps ==> Reached(vv, d)
    ensures c.id.counter <= EndOf(vv, c.id.peer)
  {
    hide Told, Past, Closed, CausalHistory.OwnSeen, Tight, LogIn, FromIn;
    if c.id.counter > 0 {
      ToldTells(w, c);
      OwnBefore(w.h, c.id);
      BeforeDeps(w.h, Prev(c.id), c.id, c.deps, Applied(w, vv)) by {
        forall d | d in c.deps ensures d in Applied(w, vv) { ReachedIn(w, peers, vv, d); }
      }
      ReachedIn(w, peers, vv, Prev(c.id));
    } else {
      StoredEnds(w, peers, vv, c.id.peer);
      FromZero(w, c);
    }
  }

  lemma {:induction false} BeforeDeps(h: History, x: Id, y: Id, deps: seq<Id>, s: set<Id>)
    requires Closed(h) && DownClosed(h, s) && Past(h, x, y) && y in h && h[y].deps == IdSet(deps)
    requires forall d :: d in deps ==> d in s
    ensures x in s
  {
    var d :| d in h[y].deps && (x == d || Past(h, x, d));
    DepInSet(deps, d);
    if x != d { ClosedPast(h, s, x, d); }
  }

  // ----- what an import brings -----

  ghost function AllAtoms(changes: seq<Change>): set<Id> {
    if changes == [] then {} else AllAtoms(changes[..|changes| - 1]) + AtomsOf(changes[|changes| - 1])
  }

  lemma {:induction false} AllAtomsAre(changes: seq<Change>, x: Id)
    ensures x in AllAtoms(changes) <==> exists c :: c in changes && Within(c, x)
  {
    hide Within;
    if changes != [] {
      var m := |changes| - 1;
      AllAtomsAre(changes[..m], x);
      AtomsAre(changes[m], x);
      assert changes == changes[..m] + [changes[m]];
    }
  }

  lemma {:induction false} SameChanges(changes: seq<Change>, sorted: seq<Change>)
    requires multiset(sorted) == multiset(changes)
    ensures (forall c :: c in sorted <==> c in changes) && AllAtoms(sorted) == AllAtoms(changes)
  {
    hide AllAtoms, Within;
    forall c ensures c in sorted <==> c in changes {
      assert c in sorted <==> c in multiset(sorted);
      assert c in changes <==> c in multiset(changes);
    }
    forall x ensures x in AllAtoms(sorted) <==> x in AllAtoms(changes) { AllAtomsAre(sorted, x); AllAtomsAre(changes, x); }
  }

  lemma {:induction false} Receive(w: World, vv: map<nat, int>, pending: Pending, was: set<Id>, changes: seq<Change>, now: set<Id>)
    requires Honest(w) && FiledRight(w, vv, pending, was, []) && NoneLost(vv, pending, was, [])
    requires now == was + AllAtoms(changes) && forall c :: c in changes ==> Told(w, c)
    ensures FiledRight(w, vv, pending, now, []) && NoneLost(vv, pending, now, changes) && TodoRight(w, now, changes)
  {
    hide Filed, Reached, Within, Honest, Told, AllAtoms, Past;
    forall x | x in now ensures Reached(vv, x) || Awaits(pending, changes, x) {
      if x in was {
        if !Reached(vv, x) { assert Awaits(pending, [], x); }
      } else {
        AllAtomsAre(changes, x);
      }
    }
    forall c | c in changes ensures AtomsOf(c) <= now {
      forall x | x in AtomsOf(c) ensures x in now { AtomsAre(c, x); AllAtomsAre(changes, x); }
    }
    forall m, c | Filed(pending, m, c) ensures WaitsFor(w, now, m, c) { assert WaitsFor(w, was, m, c); }
  }

  /** Each dep of a change is applied, or in another of them of lower lamport. */
  ghost predicate AheadByLamport(vv: map<nat, int>, changes: seq<Change>) {
    forall c, d: Id :: c in changes && d in c.deps ==>
      Reached(vv, d) || exists e :: e in changes && Within(e, d) && e.lamport < c.lamport
  }

  lemma {:induction false} SortedAhead(vv: map<nat, int>, changes: seq<Change>, sorted: seq<Change>)
    requires ByLamport(sorted) && forall c :: c in sorted <==> c in changes
    ensures AheadByLamport(vv, changes) ==> AllAhead(vv, sorted)
  {
    hide Reached, Within;
    if AheadByLamport(vv, changes) {
      forall i | 0 <= i < |sorted| ensures Ahead(vv, sorted, i) {
        assert sorted[i] in changes;
        forall d | d in sorted[i].deps && !Reached(vv, d) ensures exists j :: 0 <= j < i && Within(sorted[j], d) {
          var e :| e in changes && Within(e, d) && e.lamport < sorted[i].lamport;
          var j :| 0 <= j < |sorted| && sorted[j] == e;
          if j > i { assert sorted[i].lamport <= sorted[j].lamport; }
        }
      }
    }
  }

  lemma {:induction false} SameAhead(vv: map<nat, int>, changes: seq<Change>, sorted: seq<Change>)
    requires forall c :: c in sorted <==> c in changes
    ensures AheadByLamport(vv, changes) ==> AheadByLamport(vv, sorted)
  {
  }

  // ----- known atoms -----

  /** What the atom at counter k of a change depends on. */
  function DepsAt(c: Change, k: int): seq<Id> {
    if k == c.id.counter then c.deps else [Id(c.id.peer, k - 1)]
  }

  /** The change says of its atom k what the history says. */
  ghost predicate SameAtom(w: World, c: Change, k: int) {
    var x := Id(c.id.peer, k);
    && x in w.h && x in w.does && c.id.counter <= k < ChangeEnd(c)
    && Joined(c.ops)[k - c.id.counter] == w.does[x] && IdSet(DepsAt(c, k)) == w.h[x].deps
  }

  lemma {:induction false} EntryDeps(c: Change, k: nat)
    requires k < |Joined(c.ops)|
    ensures |Entries(c)| == |Joined(c.ops)| && Entries(c)[k].deps == IdSet(DepsAt(c, c.id.counter + k))
    ensures Entries(c)[k].what == Joined(c.ops)[k]
  {
    hide Joined;
    if k > 0 { OneId(Id(c.id.peer, c.id.counter + k - 1)); }
  }

  /** A stored change says what the history says of all its atoms. */
  lemma {:induction false} LocalAtoms(w: World, peers: map<nat, seq<Block>>, vv: map<nat, int>, l: Change, id: Id)
    requires Stored(w, peers, vv) && id.peer in peers && StoredIn(l, LogIn(peers, id.peer), FromIn(peers, id.peer), id)
    ensures l.id.peer == id.peer && l.id.counter <= id.counter < ChangeEnd(l)
    ensures forall k :: l.id.counter <= k < ChangeEnd(l) ==> SameAtom(w, l, k)
  {
    hide LogIn, FromIn, Formed, Joined, Entries, IdSet, DepsAt;
    var log, p := LogIn(peers, id.peer), id.peer;
    assert PeerStored(w, log, FromIn(peers, p), p, vv[p]);
    EntryCount(l);
    forall k | l.id.counter <= k < ChangeEnd(l) ensures SameAtom(w, l, k) {
      EntryDeps(l, k - l.id.counter);
      assert log[l.id.counter..l.id.counter + |Entries(l)|][k - l.id.counter] == log[k];
      assert StoredAtom(w, log, p, k);
    }
  }

  lemma {:induction false} DepsDiffer(w: World, c: Change, l: Change, k: int)
    requires SameAtom(w, l, k) && l.id.peer == c.id.peer && IdSet(DepsAt(c, k)) != IdSet(DepsAt(l, k))
    ensures !SameAtom(w, c, k)
  {
  }

  /** Inside a stored change only content can differ: deps were compared where it starts. */
  lemma {:induction false} SegmentAtom(w: World, c: Change, l: Change, from: int, k: int)
    requires l.id.peer == c.id.peer && SameAtom(w, l, k) && c.id.counter <= from <= k < ChangeEnd(c) && l.id.counter <= from
    requires IdSet(DepsAt(c, from)) == IdSet(DepsAt(l, from))
    ensures SameAtom(w, c, k) <==> Joined(c.ops)[k - c.id.counter] == Joined(l.ops)[k - l.id.counter]
  {
  }

  lemma {:induction false} ToldFormed(w: World, c: Change)
    requires Told(w, c)
    ensures Formed(c)
  {
  }

  lemma {:induction false} ToldSameAtoms(w: World, c: Change)
    requires Told(w, c)
    ensures forall k :: c.id.counter <= k < ChangeEnd(c) ==> SameAtom(w, c, k)
  {
    hide Formed, Joined, Entries, IdSet, DepsAt;
    EntryCount(c);
    forall k | c.id.counter <= k < ChangeEnd(c) ensures SameAtom(w, c, k) {
      EntryDeps(c, k - c.id.counter);
      assert ToldAtom(w, c, k - c.id.counter);
    }
  }

  // ----- skipped counters -----

  ghost predicate NatEnds(ends: map<nat, int>) { forall p :: p in ends ==> ends[p] > 0 }

  /** All deps of the change lie below the ends. */
  predicate DepsBelow(ends: map<nat, int>, c: Change) {
    forall k :: 0 <= k < |c.deps| ==> c.deps[k].counter < EndOf(ends, c.deps[k].peer)
  }

  /** What one change does to the ends in a pass that looks at counters alone. */
  function Count(ends: map<nat, int>, c: Change): map<nat, int> {
    if ChangeEnd(c) > EndOf(ends, c.id.peer) && DepsBelow(ends, c) then ends[c.id.peer := ChangeEnd(c)] else ends
  }

  ghost function Counted(ends: map<nat, int>, cs: seq<Change>): map<nat, int> {
    if cs == [] then ends else Count(Counted(ends, cs[..|cs| - 1]), cs[|cs| - 1])
  }

  /** The change is due, and starts past the end of its peer. */
  predicate SkipsAt(ends: map<nat, int>, c: Change) {
    ChangeEnd(c) > EndOf(ends, c.id.peer) && DepsBelow(ends, c) && c.id.counter > EndOf(ends, c.id.peer)
  }

  /** When its turn comes, some change with all its deps counted leaves out counters of its peer. */
  ghost predicate Skips(ends: map<nat, int>, cs: seq<Change>) {
    exists i :: 0 <= i < |cs| && SkipsAt(Counted(ends, cs[..i]), cs[i])
  }

  lemma {:induction false} CountNext(ends: map<nat, int>, cs: seq<Change>, i: nat)
    requires i < |cs|
    ensures Counted(ends, cs[..i + 1]) == Count(Counted(ends, cs[..i]), cs[i])
  {
    assert cs[..i + 1][..i] == cs[..i];
  }

  lemma {:induction false} NoneCounted(ends: map<nat, int>, cs: seq<Change>)
    ensures Counted(ends, cs[..0]) == ends
  {
  }

  lemma {:induction false} CountIs(ends: map<nat, int>, c: Change)
    ensures Count(ends, c) == if ChangeEnd(c) > EndOf(ends, c.id.peer) && DepsBelow(ends, c) then ends[c.id.peer := ChangeEnd(c)] else ends
    ensures SkipsAt(ends, c) <==> ChangeEnd(c) > EndOf(ends, c.id.peer) && DepsBelow(ends, c) && c.id.counter > EndOf(ends, c.id.peer)
  {
  }

  lemma {:induction false} SomeSkips(ends: map<nat, int>, cs: seq<Change>, i: nat)
    requires i < |cs| && SkipsAt(Counted(ends, cs[..i]), cs[i])
    ensures Skips(ends, cs)
  {
  }

  lemma {:induction false} NoneSkips(ends: map<nat, int>, cs: seq<Change>)
    requires forall j :: 0 <= j < |cs| ==> !SkipsAt(Counted(ends, cs[..j]), cs[j])
    ensures !Skips(ends, cs)
  {
  }

  /** Some change brings an atom the version does not reach. */
  ghost predicate News(vv: map<nat, int>, cs: seq<Change>) {
    exists i :: 0 <= i < |cs| && ChangeEnd(cs[i]) > EndOf(vv, cs[i].id.peer)
  }

  /** What the change says of the atoms the version reaches is what the history says. */
  ghost predicate KnownRight(w: World, vv: map<nat, int>, c: Change) {
    forall k :: c.id.counter <= k < Min(ChangeEnd(c), EndOf(vv, c.id.peer)) ==> SameAtom(w, c, k)
  }

  ghost predicate AllKnownRight(w: World, vv: map<nat, int>, cs: seq<Change>) {
    forall i :: 0 <= i < |cs| ==> KnownRight(w, vv, cs[i])
  }

  lemma {:induction false} NothingKnown(w: World, vv: map<nat, int>, c: Change)
    ensures c.id.counter >= EndOf(vv, c.id.peer) ==> KnownRight(w, vv, c)
  {
  }

  lemma {:induction false} KnownIs(w: World, vv: map<nat, int>, c: Change)
    ensures KnownRight(w, vv, c) <==> forall k :: c.id.counter <= k < Min(ChangeEnd(c), EndOf(vv, c.id.peer)) ==> SameAtom(w, c, k)
  {
  }

  lemma {:induction false} ToldStarts(w: World, cs: seq<Change>)
    requires forall c :: c in cs ==> Told(w, c)
    ensures forall c :: c in cs ==> Formed(c) && c.id.counter >= 0
  {
    hide Told, Formed;
    forall c | c in cs ensures Formed(c) && c.id.counter >= 0 {
      FromZero(w, c);
      ToldFormed(w, c);
    }
  }

  lemma {:induction false} ToldKnownRight(w: World, vv: map<nat, int>, cs: seq<Change>)
    requires forall c :: c in cs ==> Told(w, c)
    ensures AllKnownRight(w, vv, cs)
  {
    hide Told, SameAtom;
    forall i | 0 <= i < |cs| ensures KnownRight(w, vv, cs[i]) {
      assert cs[i] in cs;
      ToldSameAtoms(w, cs[i]);
    }
  }

  /** Honest changes never leave out counters: an author's earlier atoms lie below its deps. */
  lemma {:induction false} ToldNeverSkips(w: World, vv: map<nat, int>, cs: seq<Change>)
    requires Honest(w) && DownClosed(w.h, Applied(w, vv)) && NatEnds(vv) && forall c :: c in cs ==> Told(w, c)
    ensures !Skips(vv, cs)
  {
    hide Told, Honest, DownClosed, Applied, SkipsAt;
    forall i | 0 <= i < |cs| ensures !SkipsAt(Counted(vv, cs[..i]), cs[i]) {
      CountedClosed(w, vv, cs[..i]);
      assert cs[i] in cs;
      ToldCounts(w, Counted(vv, cs[..i]), cs[i]);
    }
  }

  lemma {:induction false} CountedClosed(w: World, vv: map<nat, int>, cs: seq<Change>)
    requires Honest(w) && DownClosed(w.h, Applied(w, vv)) && NatEnds(vv) && forall c :: c in cs ==> Told(w, c)
    ensures DownClosed(w.h, Applied(w, Counted(vv, cs))) && NatEnds(Counted(vv, cs))
  {
    hide Told, Honest, DownClosed, Applied, NatEnds, Count, SkipsAt;
    if cs != [] {
      var n := |cs| - 1;
      CountedClosed(w, vv, cs[..n]);
      assert cs[n] in cs;
      ToldCounts(w, Counted(vv, cs[..n]), cs[n]);
    }
  }

  lemma {:induction false} ToldCounts(w: World, ends: map<nat, int>, c: Change)
    requires Honest(w) && DownClosed(w.h, Applied(w, ends)) && NatEnds(ends) && Told(w, c)
    ensures !SkipsAt(ends, c) && DownClosed(w.h, Applied(w, Count(ends, c))) && NatEnds(Count(ends, c))
  {
    hide Told, Honest, DownClosed, Applied, NatEnds;
    if ChangeEnd(c) > EndOf(ends, c.id.peer) && DepsBelow(ends, c) {
      DepsCounted(w, ends, c);
      OwnCounted(w, ends, c);
      EndsRaised(w, ends, c);
    }
  }

  lemma {:induction false} StoredNat(w: World, peers: map<nat, seq<Block>>, vv: map<nat, int>)
    requires Stored(w, peers, vv)
    ensures NatEnds(vv)
  {
    forall p | p in vv ensures vv[p] > 0 { StoredEnds(w, peers, vv, p); }
  }

  lemma {:induction false} DepsCounted(w: World, ends: map<nat, int>, c: Change)
    requires Honest(w) && Told(w, c) && forall k :: 0 <= k < |c.deps| ==> c.deps[k].counter < EndOf(ends, c.deps[k].peer)
    ensures forall d :: d in c.deps ==> Reached(ends, d) && d in Applied(w, ends)
  {
    hide Told, Honest;
    forall d | d in c.deps ensures Reached(ends, d) && d in Applied(w, ends) {
      DepBelow(w, c, d);
      var k :| 0 <= k < |c.deps| && c.deps[k] == d;
    }
  }

  lemma {:induction false} OwnCounted(w: World, ends: map<nat, int>, c: Change)
    requires Honest(w) && Told(w, c) && DownClosed(w.h, Applied(w, ends)) && NatEnds(ends)
    requires forall d :: d in c.deps ==> d in Applied(w, ends)
    ensures c.id.counter <= EndOf(ends, c.id.peer)
  {
    hide Told, Past, Closed, CausalHistory.OwnSeen, Tight;
    if c.id.counter > 0 {
      ToldTells(w, c);
      OwnBefore(w.h, c.id);
      BeforeDeps(w.h, Prev(c.id), c.id, c.deps, Applied(w, ends));
    }
  }

  lemma {:induction false} EndsRaised(w: World, ends: map<nat, int>, c: Change)
    requires Honest(w) && Told(w, c) && DownClosed(w.h, Applied(w, ends)) && NatEnds(ends)
    requires (forall d :: d in c.deps ==> d in Applied(w, ends)) && c.id.counter <= EndOf(ends, c.id.peer) < ChangeEnd(c)
    ensures var now := ends[c.id.peer := ChangeEnd(c)]; DownClosed(w.h, Applied(w, now)) && NatEnds(now)
  {
    hide Told, Honest;
    var now := ends[c.id.peer := ChangeEnd(c)];
    FromZero(w, c);
    forall x, d | x in Applied(w, now) && d in w.h[x].deps ensures d in Applied(w, now) {
      if x !in Applied(w, ends) {
        assert Within(c, x);
        DepWithin(w, c, x, d);
        if Within(c, d) { LamportIn(w, c, d); }
      }
    }
  }

  lemma {:induction false} LamportIn(w: World, c: Change, x: Id)
    requires Told(w, c) && Within(c, x)
    ensures x in w.h
  {
    hide Told;
    ToldTells(w, c);
    LamportInside(w.h, AsSeq(c), x);
  }

  // ----- local changes -----

  lemma {:induction false} DepsApplied(w: World, peers: map<nat, seq<Block>>, vv: map<nat, int>, deps: seq<Id>)
    requires Honest(w) && Stored(w, peers, vv) && forall x :: x in deps ==> Maximal(w.h, Applied(w, vv), x)
    ensures forall d :: d in deps ==> Reached(vv, d)
  {
    hide Past, Honest;
  }

  /** One past the frontiers' lamports is past every applied lamport. */
  lemma {:induction false} AllBelow(w: World, vv: map<nat, int>, deps: seq<Id>, l: int)
    requires Honest(w) && PastDeps(w.h, deps, l) && forall x :: Maximal(w.h, Applied(w, vv), x) ==> x in deps
    ensures forall x :: x in Applied(w, vv) ==> w.h[x].lamport < l
  {
    hide Past, Maximal;
    forall x | x in Applied(w, vv) ensures w.h[x].lamport < l {
      var m := BelowMaximal(w.h, Applied(w, vv), x);
      if x != m { PastIn(w.h, x, m); }
    }
  }

  /** A change made on all frontiers leaves its last atom as the only one. */
  lemma {:induction false} OnlyLastLeft(w: World, s: set<Id>, c: Change, fr: Frontier)
    requires Ready(w, s, c) && FrontierIs(w.h, s, fr) && forall x :: x in c.deps <==> Maximal(w.h, s, x)
    ensures FrontierIs(w.h, s + AtomsOf(c), map[c.id.peer := LastId(c).counter])
  {
    hide Past, Told, Maximal, DownClosed;
    var r: Frontier := map[c.id.peer := LastId(c).counter];
    forall x: Id | x.peer != c.id.peer ensures Has(r, x) <==> Has(fr, x) && x !in c.deps { }
    if c.id.peer in fr { assert Has(fr, Id(c.id.peer, fr[c.id.peer])); }
    FrontierKept(w, s, c, fr, r);
  }

  lemma {:induction false} CommitFiled(w: World, vv: map<nat, int>, pending: Pending, received: set<Id>, c: Change)
    requires Honest(w) && Told(w, c) && FiledRight(w, vv, pending, received, []) && NoneLost(vv, pending, received, [])
    requires c.id.counter == EndOf(vv, c.id.peer) && forall m, d :: Filed(pending, m, d) ==> !Within(c, m)
    ensures var now, more := vv[c.id.peer := ChangeEnd(c)], received + AtomsOf(c);
      FiledRight(w, now, pending, more, []) && NoneLost(now, pending, more, [])
  {
    hide Told, Filed, Honest, Past;
    FromZero(w, c);
    var now, more := vv[c.id.peer := ChangeEnd(c)], received + AtomsOf(c);
    forall m, d | Filed(pending, m, d) ensures WaitsFor(w, more, m, d) && !Reached(now, m) {
      assert WaitsFor(w, received, m, d) && (Reached(vv, m) ==> Queued([], m));
    }
    forall x | x in more ensures Reached(now, x) || Awaits(pending, [], x) {
      AtomsAre(c, x);
      if x in received && !Reached(vv, x) { assert Awaits(pending, [], x); }
    }
  }
}
