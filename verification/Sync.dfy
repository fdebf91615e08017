/** Exporting what a peer lacks and importing it: one round is enough. */
module Sync {
  import opened Common
  import opened SeqTypes
  import opened CausalHistory
  import opened IdLists
  import opened Ops
  import opened Folding
  import opened Changes
  import opened Blocks
  import opened BlockSearch
  import opened ChangeStores
  import opened LogHistory
  import opened Frontiers
  import opened OpLogFacts
  import opened OpLogs

  // ----- what import amounts to -----

  /** What is applied is the largest causally complete part of what was received. */
  lemma {:induction false} LargestApplied(l: OpLog, s: set<Id>)
    requires l.Valid()
    ensures DownClosed(l.w.h, Applied(l.w, l.vv)) && Applied(l.w, l.vv) <= l.received
    ensures DownClosed(l.w.h, s) && s <= l.received ==> s <= Applied(l.w, l.vv)
  {
    hide Past, Told, Stored, FrontierIs, Honest, FiledRight, NoneLost, Maximal;
    if DownClosed(l.w.h, s) && s <= l.received {
      forall x | x in s ensures x in Applied(l.w, l.vv) { LargestPart(l.w, l.vv, l.pending, l.received, s, x); }
    }
  }

  lemma {:induction false} EndsDetermined(w: World, xs: map<nat, seq<Block>>, ys: map<nat, seq<Block>>, v: map<nat, int>, u: map<nat, int>, p: nat)
    requires Stored(w, xs, v) && Stored(w, ys, u) && Applied(w, v) <= Applied(w, u)
    ensures EndOf(v, p) <= EndOf(u, p)
  {
    hide LogIn, FromIn;
    StoredEnds(w, xs, v, p);
    StoredEnds(w, ys, u, p);
    if EndOf(v, p) > EndOf(u, p) {
      var x := Id(p, v[p] - 1);
      ReachedIn(w, xs, v, x);
      ReachedIn(w, ys, u, x);
    }
  }

  /** Two logs that received the same atoms, in any order and any grouping, stand at the same
      version and frontiers, with the same log of every peer. */
  lemma {:induction false} SameReceived(a: OpLog, b: OpLog)
    requires a.Valid() && b.Valid() && a.w == b.w && a.received == b.received
    ensures a.vv == b.vv && a.fr == b.fr
    ensures forall p :: p in a.vv ==> LogIn(a.store.peers, p) == LogIn(b.store.peers, p)
  {
    hide Past, Told, Stored, FrontierIs, Honest, FiledRight, NoneLost, Maximal, DownClosed, LogIn;
    LargestApplied(a, Applied(b.w, b.vv));
    LargestApplied(b, Applied(a.w, a.vv));
    SameVersions(a.w, a.store.peers, b.store.peers, a.vv, b.vv);
    SameFrontiers(a.w, Applied(a.w, a.vv), a.fr, b.fr);
    forall p | p in a.vv ensures LogIn(a.store.peers, p) == LogIn(b.store.peers, p) {
      SameLogs(a.w, a.store.peers, b.store.peers, a.vv, p);
    }
  }

  lemma {:induction false} SameVersions(w: World, xs: map<nat, seq<Block>>, ys: map<nat, seq<Block>>, v: map<nat, int>, u: map<nat, int>)
    requires Stored(w, xs, v) && Stored(w, ys, u) && Applied(w, v) == Applied(w, u)
    ensures v == u
  {
    hide Stored, Applied;
    forall p ensures EndOf(v, p) == EndOf(u, p) && (p in v ==> v[p] > 0) && (p in u ==> u[p] > 0) {
      EndsDetermined(w, xs, ys, v, u, p);
      EndsDetermined(w, ys, xs, u, v, p);
      StoredEnds(w, xs, v, p);
      StoredEnds(w, ys, u, p);
    }
    assert forall p :: p in v <==> p in u;
  }

  lemma {:induction false} SameFrontiers(w: World, s: set<Id>, f: Frontier, g: Frontier)
    requires Honest(w) && FrontierIs(w.h, s, f) && FrontierIs(w.h, s, g)
    ensures f == g
  {
    hide Maximal, Honest;
    forall p | p in f ensures p in g && g[p] == f[p] { assert Has(f, Id(p, f[p])) && Has(g, Id(p, f[p])); }
    forall p | p in g ensures p in f { assert Has(g, Id(p, g[p])) && Has(f, Id(p, g[p])); }
  }

  lemma {:induction false} SameLogs(w: World, xs: map<nat, seq<Block>>, ys: map<nat, seq<Block>>, v: map<nat, int>, p: nat)
    requires Stored(w, xs, v) && Stored(w, ys, v) && p in v
    ensures LogIn(xs, p) == LogIn(ys, p)
  {
    hide LogIn, FromIn;
    var a, b := LogIn(xs, p), LogIn(ys, p);
    assert PeerStored(w, a, FromIn(xs, p), p, v[p]) && PeerStored(w, b, FromIn(ys, p), p, v[p]);
    forall k | 0 <= k < v[p] ensures a[k] == b[k] { assert StoredAtom(w, a, p, k) && StoredAtom(w, b, p, k); }
  }

  // ----- exporting -----

  /** A counter of 0 or below is counted as 0. */
  function StartOf(from: map<nat, int>, p: nat): nat { Max(EndOf(from, p), 0) }

  /** c, or the slice of it past `start`. */
  function CutChange(c: Change, start: nat): Change
    requires c.id.counter >= 0
  {
    if c.id.counter >= start then c else Slice(c, start - c.id.counter, |Joined(c.ops)|)
  }

  /** Peer p's atoms [start, e) have been copied, and nothing else. */
  ghost predicate Copied(was: map<nat, seq<Block>>, now: map<nat, seq<Block>>, log: seq<Entry>, p: nat, start: nat, e: nat)
    requires e <= |log|
  {
    if e <= start then now == was
    else
      && now.Keys == was.Keys + {p} && (forall q :: q in was && q != p ==> now[q] == was[q])
      && FromIn(now, p) == start && LogIn(now, p) == log[start..e]
  }

  /** A stored change is where it is in its peer's log, and tells the history. */
  ghost predicate At(w: World, c: Change, log: seq<Entry>, p: nat) {
    && Told(w, c) && c.id.peer == p && ChangeEnd(c) <= |log| && |Entries(c)| == ChangeEnd(c) - c.id.counter
    && log[c.id.counter..ChangeEnd(c)] == Entries(c)
  }

  lemma {:induction false} StoredAt(w: World, peers: map<nat, seq<Block>>, vv: map<nat, int>, p: nat, i: nat)
    requires Stored(w, peers, vv) && p in vv && BlocksRight(peers[p], p) && i < |Flat(peers[p])|
    ensures At(w, Flat(peers[p])[i], LogIn(peers, p), p)
    ensures Flat(peers[p])[i].id.counter == |LogOf(Flat(peers[p])[..i])|
  {
    hide LogOf, Formed, Entries, Flat;
    var cs, log := Flat(peers[p]), LogIn(peers, p);
    FlatRight(peers[p], p);
    ChangeAt(cs, p, i);
    assert PeerStored(w, log, FromIn(peers, p), p, vv[p]);
    LogTold(w, cs[i], log, p);
  }

  lemma {:induction false} LogTold(w: World, c: Change, log: seq<Entry>, p: nat)
    requires Formed(c) && c.id.peer == p && c.id.counter >= 0 && c.id.counter + |Entries(c)| <= |log|
    requires log[c.id.counter..c.id.counter + |Entries(c)|] == Entries(c)
    requires forall k :: 0 <= k < |log| ==> StoredAtom(w, log, p, k)
    ensures Told(w, c)
  {
    hide Formed, Entries;
    forall k | 0 <= k < |Entries(c)| ensures ToldAtom(w, c, k) {
      assert StoredAtom(w, log, p, c.id.counter + k);
      assert log[c.id.counter..c.id.counter + |Entries(c)|][k] == log[c.id.counter + k];
    }
  }

  lemma {:induction false} CutKeeps(w: World, c: Change, log: seq<Entry>, p: nat, start: nat)
    requires At(w, c, log, p) && ChangeEnd(c) > start
    ensures c.id.counter >= 0 && At(w, CutChange(c, start), log, p)
    ensures CutChange(c, start).id.counter == Max(c.id.counter, start) && ChangeEnd(CutChange(c, start)) == ChangeEnd(c)
  {
    hide Formed, Entries;
    EntryCount(c);
    if c.id.counter < start { SliceTold(w, c, start - c.id.counter); }
  }

  /** A copied change goes where the copy ends. */
  lemma {:induction false} CutTaken(w: World, was: map<nat, seq<Block>>, now: map<nat, seq<Block>>, c: Change, log: seq<Entry>, p: nat, start: nat)
    requires Honest(w) && At(w, c, log, p) && c.id.counter >= start && p !in was
    requires c.id.counter > start ==> StoredAtom(w, log, p, c.id.counter - 1)
    requires Copied(was, now, log, p, start, c.id.counter) || (c.id.counter == start && now == was)
    ensures TakenBy(now, c)
  {
    hide Entries, LogIn, FromIn, Honest, IdSet, ToldAtom;
    if p in now && |c.deps| == 1 && c.deps[0].peer == p { OwnDep(w, c); }
  }

  lemma {:induction false} CopyGrows(was: map<nat, seq<Block>>, now: map<nat, seq<Block>>, after: map<nat, seq<Block>>, c: Change,
                                     log: seq<Entry>, p: nat, start: nat, from: nat)
    requires c.id.peer == p && from <= ChangeEnd(c) <= |log| && |Entries(c)| == ChangeEnd(c) - c.id.counter > 0 && p !in was
    requires c.id.counter == Max(from, start) && log[c.id.counter..ChangeEnd(c)] == Entries(c)
    requires Copied(was, now, log, p, start, from) && Grown(now, after, c, |Entries(c)|)
    ensures Copied(was, after, log, p, start, ChangeEnd(c))
  {
    hide Entries, LogOf, Flat, Origin;
    assert Entries(c)[..|Entries(c)|] == Entries(c);
    if from > start { assert log[start..from] + log[from..ChangeEnd(c)] == log[start..ChangeEnd(c)]; }
  }

  /** Copies one change of a peer, cut where the copy starts. */
  method PutCut(ghost w: World, fresh_: ChangeStore, ghost was: map<nat, seq<Block>>, c: Change, ghost log: seq<Entry>, ghost p: nat, start: nat)
    requires Honest(w) && fresh_.Valid() && At(w, c, log, p) && p !in was
    requires forall k :: 0 <= k < |log| ==> StoredAtom(w, log, p, k)
    requires c.id.counter >= 0 && Copied(was, fresh_.peers, log, p, start, c.id.counter)
    modifies fresh_
    ensures fresh_.Valid() && ChangeEnd(c) >= 0 && Copied(was, fresh_.peers, log, p, start, ChangeEnd(c))
  {
    hide Formed, Entries, Told, Honest, Copied, TakenBy, Grown, LogIn, FromIn;
    ToldTells(w, c);
    if ChangeEnd(c) <= start {
      NotYet(was, fresh_.peers, log, p, start, c.id.counter, ChangeEnd(c));
      return;
    }
    CutKeeps(w, c, log, p, start);
    var cut := CutChange(c, start);
    CutPlace(was, fresh_.peers, log, p, start, c.id.counter);
    CutTaken(w, was, fresh_.peers, cut, log, p, start);
    ghost var now := fresh_.peers;
    FormedTold(w, cut);
    fresh_.Insert(cut, false);
    CopyGrows(was, now, fresh_.peers, cut, log, p, start, c.id.counter);
  }

  lemma {:induction false} FormedTold(w: World, c: Change)
    requires Told(w, c)
    ensures |Entries(c)| > 0
  {
    FormedSize(c);
  }

  lemma {:induction false} NotYet(was: map<nat, seq<Block>>, now: map<nat, seq<Block>>, log: seq<Entry>, p: nat, start: nat, from: nat, e: nat)
    requires from <= e <= |log| && e <= start && Copied(was, now, log, p, start, from)
    ensures Copied(was, now, log, p, start, e)
  {
  }

  lemma {:induction false} CutPlace(was: map<nat, seq<Block>>, now: map<nat, seq<Block>>, log: seq<Entry>, p: nat, start: nat, from: nat)
    requires from <= |log| && Copied(was, now, log, p, start, from)
    ensures from <= start ==> now == was
  {
  }

  /** Copies what peer p holds from `start` on, change by change, block by block. */
  method ExportPeer(l: OpLog, p: nat, start: nat, out: ChangeStore)
    requires l.Core() && p in l.vv && start < l.vv[p] && out.Valid() && p !in out.peers && out != l.store
    modifies out
    ensures out.Valid() && Copied(old(out.peers), out.peers, LogIn(l.store.peers, p), p, start, |LogIn(l.store.peers, p)|)
    ensures |LogIn(l.store.peers, p)| == l.vv[p]
  {
    hide Formed, Entries, Told, Honest, Copied, LogOf, Flat, FrontierIs, DownClosed, Stored, BlocksRight, Applied, LogIn;
    ghost var was, log := out.peers, LogIn(l.store.peers, p);
    LogStored(l.w, l.store.peers, l.vv, p);
    var blocks := l.store.peers[p];
    CopyStarts(was, log, p, start);
    FlatStarts(blocks);
    ghost var e: nat := 0;
    for i := 0 to |blocks|
      invariant out.Valid() && l.Core() && e <= |log| && Copied(was, out.peers, log, p, start, e)
      invariant e == |LogOf(Flat(blocks[..i]))|
    {
      e := ExportBlock(l, p, start, out, blocks, i, was, log);
    }
    assert blocks[..|blocks|] == blocks;
    LogWhole(l.store.peers, p);
  }

  /** Copies one block of a peer. */
  method ExportBlock(l: OpLog, p: nat, start: nat, out: ChangeStore, blocks: seq<Block>, i: nat, ghost was: map<nat, seq<Block>>,
                     ghost log: seq<Entry>) returns (ghost e: nat)
    requires l.Core() && p in l.vv && p in l.store.peers && out.Valid() && p !in was && out != l.store
    requires blocks == l.store.peers[p] && i < |blocks| && log == LogIn(l.store.peers, p) && |LogOf(Flat(blocks[..i]))| <= |log|
    requires forall k :: 0 <= k < |log| ==> StoredAtom(l.w, log, p, k)
    requires Copied(was, out.peers, log, p, start, |LogOf(Flat(blocks[..i]))|)
    modifies out
    ensures out.Valid() && e == |LogOf(Flat(blocks[..i + 1]))| && e <= |log| && Copied(was, out.peers, log, p, start, e)
  {
    hide Formed, Entries, Told, Honest, Copied, LogOf, Flat, FrontierIs, DownClosed, Stored, BlocksRight, Applied, LogIn, StoredAtom;
    var b := blocks[i];
    e := |LogOf(Flat(blocks[..i]))|;
    BlockEnds(l.w, l.store.peers, l.vv, p, i);
    if b.end <= start {
      NotYet(was, out.peers, log, p, start, e, |LogOf(Flat(blocks[..i + 1]))|);
      e := |LogOf(Flat(blocks[..i + 1]))|;
      return;
    }
    for j := 0 to |b.changes|
      invariant out.Valid() && l.Core() && e <= |log| && Copied(was, out.peers, log, p, start, e)
      invariant e == if j == 0 then |LogOf(Flat(blocks[..i]))| else ChangeEnd(b.changes[j - 1])
    {
      ChangePlace(l.w, l.store.peers, l.vv, p, i, j);
      PutCut(l.w, out, was, b.changes[j], log, p, start);
      e := ChangeEnd(b.changes[j]);
    }
  }

  lemma {:induction false} LogStored(w: World, peers: map<nat, seq<Block>>, vv: map<nat, int>, p: nat)
    requires Stored(w, peers, vv) && p in vv
    ensures |LogIn(peers, p)| == vv[p] && FromIn(peers, p) == 0 && p in peers
    ensures forall k :: 0 <= k < |LogIn(peers, p)| ==> StoredAtom(w, LogIn(peers, p), p, k)
  {
    hide LogIn, FromIn;
    assert PeerStored(w, LogIn(peers, p), FromIn(peers, p), p, vv[p]);
  }

  lemma {:induction false} CopyStarts(was: map<nat, seq<Block>>, log: seq<Entry>, p: nat, start: nat)
    ensures Copied(was, was, log, p, start, 0)
  {
  }

  lemma {:induction false} FlatStarts(blocks: seq<Block>)
    ensures |LogOf(Flat(blocks[..0]))| == 0
  {
  }

  lemma {:induction false} LogWhole(peers: map<nat, seq<Block>>, p: nat)
    requires p in peers
    ensures LogIn(peers, p) == LogOf(Flat(peers[p]))
  {
  }

  lemma {:induction false} PrefixLog(cs: seq<Change>, n: nat)
    requires n <= |cs|
    ensures |LogOf(cs[..n])| <= |LogOf(cs)|
  {
    hide Entries, LogOf;
    assert cs == cs[..n] + cs[n..];
    LogConcat(cs[..n], cs[n..]);
  }

  lemma {:induction false} FlatPrefix(blocks: seq<Block>, i: nat)
    requires i <= |blocks|
    ensures |Flat(blocks[..i])| <= |Flat(blocks)| && Flat(blocks[..i]) == Flat(blocks)[..|Flat(blocks[..i])|]
    decreases |blocks| - i
  {
    if i == |blocks| {
      assert blocks[..i] == blocks;
    } else {
      FlatPrefix(blocks, i + 1);
      assert blocks[..i + 1] == blocks[..i] + [blocks[i]];
      FlatStep(blocks[..i], blocks[i]);
    }
  }

  /** A block ends where the log of it and the blocks before it ends. */
  lemma {:induction false} BlockEnds(w: World, peers: map<nat, seq<Block>>, vv: map<nat, int>, p: nat, i: nat)
    requires Stored(w, peers, vv) && p in vv && p in peers && BlocksRight(peers[p], p) && i < |peers[p]|
    ensures var b := peers[p][i]; var e := |LogOf(Flat(peers[p][..i + 1]))|;
      && b.changes != [] && b.end == e == ChangeEnd(b.changes[|b.changes| - 1])
      && |LogOf(Flat(peers[p][..i]))| <= e <= |LogIn(peers, p)|
  {
    hide Entries, LogOf, Flat, Formed, Stored, BlocksRight;
    var blocks := peers[p];
    LogStored(w, peers, vv, p);
    BlockEnd(blocks, p, i);
    var k := LastOf(blocks, i);
    StoredAt(w, peers, vv, p, k);
    FlatPrefix(blocks, i);
    FlatPrefix(blocks, i + 1);
    assert blocks[..i + 1] == blocks[..i] + [blocks[i]];
    FlatStep(blocks[..i], blocks[i]);
    var f := Flat(blocks);
    assert f[..k + 1] == f[..k] + [f[k]];
    LogStep(f[..k], f[k]);
    PrefixLog(f, k + 1);
    PrefixLog(f[..k + 1], |Flat(blocks[..i])|);
    assert f[..k + 1][..|Flat(blocks[..i])|] == f[..|Flat(blocks[..i])|];
  }

  /** Where the j-th change of a block is. */
  lemma {:induction false} ChangePlace(w: World, peers: map<nat, seq<Block>>, vv: map<nat, int>, p: nat, i: nat, j: nat)
    requires Stored(w, peers, vv) && p in vv && p in peers && BlocksRight(peers[p], p) && i < |peers[p]| && j < |peers[p][i].changes|
    ensures var b := peers[p][i];
      && At(w, b.changes[j], LogIn(peers, p), p)
      && b.changes[j].id.counter == if j == 0 then |LogOf(Flat(peers[p][..i]))| else ChangeEnd(b.changes[j - 1])
  {
    hide Entries, LogOf, Flat, Formed, Stored, BlocksRight, At, ChangeEnd;
    var blocks := peers[p];
    var f, n := Flat(blocks), |Flat(blocks[..i])|;
    BlockAt(blocks, i, j);
    StoredAt(w, peers, vv, p, n + j);
    if j == 0 {
      FlatPrefix(blocks, i);
    } else {
      BlockAt(blocks, i, j - 1);
      NextInFlat(blocks, p, n + j);
    }
  }

  lemma {:induction false} NextInFlat(blocks: seq<Block>, p: nat, k: nat)
    requires BlocksRight(blocks, p) && 0 < k < |Flat(blocks)|
    ensures Flat(blocks)[k].id.counter == ChangeEnd(Flat(blocks)[k - 1])
  {
    hide Formed, Entries, Flat, LogOf;
    FlatRight(blocks, p);
    NextTo(Flat(blocks), p, k);
  }

  lemma {:induction false} NextTo(cs: seq<Change>, p: nat, i: nat)
    requires Consecutive(cs, p) && 0 < i < |cs|
    ensures cs[i].id.counter == ChangeEnd(cs[i - 1])
  {
    hide Formed;
    assert Next(cs[i - 1], cs[i]);
  }

  // ----- the whole export -----

  /** The fresh store holds exactly what the log holds of the peers done, past where each starts. */
  ghost predicate CopiedAll(peers: map<nat, seq<Block>>, vv: map<nat, int>, from: map<nat, int>, out: map<nat, seq<Block>>, done: set<nat>) {
    forall p :: if p in done && p in vv && vv[p] > StartOf(from, p)
      then CopiedPeer(peers, vv, from, out, p) else p !in out
  }

  ghost predicate CopiedPeer(peers: map<nat, seq<Block>>, vv: map<nat, int>, from: map<nat, int>, out: map<nat, seq<Block>>, p: nat)
  {
    var start := StartOf(from, p);
    p in out && FromIn(out, p) == start && start < |LogIn(peers, p)| && LogIn(out, p) == LogIn(peers, p)[start..]
  }

  /** The changes that hold what `from` does not. */
  method ExportBlocksFrom(l: OpLog, from: map<nat, int>) returns (cs: seq<Change>)
    requires l.Core()
    ensures Exported(l.w, l.vv, from, cs)
  {
    hide Formed, Entries, Told, Honest, Copied, LogOf, Flat, FrontierIs, DownClosed, Stored, BlocksRight, Applied, LogIn, CopiedPeer, Exported;
    var out := new ChangeStore();
    var left := l.vv.Keys;
    ghost var done: set<nat> := {};
    while left != {}
      invariant out.Valid() && l.Core() && fresh(out)
      invariant left <= l.vv.Keys && done == l.vv.Keys - left
      invariant CopiedAll(l.store.peers, l.vv, from, out.peers, done)
      decreases left
    {
      var p :| p in left;
      left := left - {p};
      var start := StartOf(from, p);
      ghost var was := out.peers;
      if l.vv[p] > start {
        ExportPeer(l, p, start, out);
        CopiedOne(l.store.peers, l.vv, from, was, out.peers, done, p);
      }
      done := done + {p};
    }
    cs := Listing(out);
    AllExported(l.w, l.store.peers, l.vv, from, out.peers, cs);
  }

  lemma {:induction false} CopiedOne(peers: map<nat, seq<Block>>, vv: map<nat, int>, from: map<nat, int>, was: map<nat, seq<Block>>,
                                     now: map<nat, seq<Block>>, done: set<nat>, p: nat)
    requires CopiedAll(peers, vv, from, was, done) && p in vv && vv[p] > StartOf(from, p) && p !in done
    requires |LogIn(peers, p)| == vv[p] && Copied(was, now, LogIn(peers, p), p, StartOf(from, p), |LogIn(peers, p)|)
    ensures CopiedAll(peers, vv, from, now, done + {p})
  {
    hide LogOf, Flat, Origin, Entries;
    forall q ensures if q in done + {p} && q in vv && vv[q] > StartOf(from, q) then CopiedPeer(peers, vv, from, now, q) else q !in now {
      if q in done && q in vv && vv[q] > StartOf(from, q) { assert CopiedPeer(peers, vv, from, was, q); }
    }
  }

  /** All changes of a store, peer by peer. */
  method Listing(store: ChangeStore) returns (cs: seq<Change>)
    requires store.Valid()
    ensures forall c :: c in cs <==> InStore(store.peers, c)
    ensures EachOnce(cs)
  {
    hide BlocksRight, InStore, EachOnce, Consecutive;
    cs := [];
    var left := store.peers.Keys;
    ghost var done: set<nat> := {};
    ListStarts(store.peers);
    while left != {}
      invariant left <= store.peers.Keys && done == store.peers.Keys - left
      invariant Listed(store.peers, done, cs) && EachOnce(cs)
      decreases left
    {
      var p :| p in left;
      left := left - {p};
      var more := PeerListing(store.peers[p], p);
      ListedOne(store.peers, done, cs, p, more);
      cs := cs + more;
      done := done + {p};
    }
    ListedAll(store.peers, done, cs);
  }

  /** A peer's changes in order. */
  method PeerListing(blocks: seq<Block>, ghost p: nat) returns (cs: seq<Change>)
    requires BlocksRight(blocks, p)
    ensures cs == Flat(blocks)
  {
    cs := [];
    for i := 0 to |blocks|
      invariant cs == Flat(blocks[..i])
    {
      assert blocks[..i + 1] == blocks[..i] + [blocks[i]];
      FlatStep(blocks[..i], blocks[i]);
      cs := cs + blocks[i].changes;
    }
    assert blocks[..|blocks|] == blocks;
  }

  ghost predicate InStore(peers: map<nat, seq<Block>>, c: Change) { exists p :: p in peers && c in Flat(peers[p]) }

  ghost predicate Listed(peers: map<nat, seq<Block>>, done: set<nat>, cs: seq<Change>) {
    forall c :: c in cs <==> exists p :: p in done && p in peers && c in Flat(peers[p])
  }

  /** No atom is in two of the changes. */
  ghost predicate EachOnce(cs: seq<Change>) {
    forall i, j, x :: 0 <= i < j < |cs| && Within(cs[i], x) ==> !Within(cs[j], x)
  }

  lemma {:induction false} ListStarts(peers: map<nat, seq<Block>>)
    ensures Listed(peers, {}, []) && EachOnce([])
  {
  }

  lemma {:induction false} ListedAll(peers: map<nat, seq<Block>>, done: set<nat>, cs: seq<Change>)
    requires done == peers.Keys && Listed(peers, done, cs)
    ensures forall c :: c in cs <==> InStore(peers, c)
  {
    hide Flat;
  }

  lemma {:induction false} ListedOne(peers: map<nat, seq<Block>>, done: set<nat>, cs: seq<Change>, p: nat, more: seq<Change>)
    requires Listed(peers, done, cs) && EachOnce(cs) && p in peers && p !in done && more == Flat(peers[p])
    requires forall q :: q in peers ==> BlocksRight(peers[q], q)
    ensures Listed(peers, done + {p}, cs + more) && EachOnce(cs + more)
  {
    hide Flat, BlocksRight, EachOnce;
    forall c ensures c in cs + more <==> exists q :: q in done + {p} && q in peers && c in Flat(peers[q]) {
      if c in cs + more && c !in more { var q :| q in done && q in peers && c in Flat(peers[q]); }
    }
    PeerOnce(peers[p], p);
    forall c | c in cs ensures c.id.peer != p {
      var q :| q in done && q in peers && c in Flat(peers[q]);
      PeerOf(peers[q], q, c);
    }
    forall c | c in more ensures c.id.peer == p { PeerOf(peers[p], p, c); }
    OnceConcat(cs, more, p);
  }

  lemma {:induction false} PeerOf(blocks: seq<Block>, p: nat, c: Change)
    requires BlocksRight(blocks, p) && c in Flat(blocks)
    ensures c.id.peer == p
  {
    hide Flat, Formed;
    var f := Flat(blocks);
    var i :| 0 <= i < |f| && f[i] == c;
  }

  lemma {:induction false} PeerOnce(blocks: seq<Block>, p: nat)
    requires BlocksRight(blocks, p)
    ensures EachOnce(Flat(blocks))
  {
    hide Flat, Consecutive, ChangeEnd;
    FlatRight(blocks, p);
    var f := Flat(blocks);
    forall i, j, x | 0 <= i < j < |f| && Within(f[i], x) ensures !Within(f[j], x) { EndsRise(f, p, i, j); }
  }

  lemma {:induction false} OnceConcat(a: seq<Change>, b: seq<Change>, p: nat)
    requires EachOnce(a) && EachOnce(b) && (forall c :: c in a ==> c.id.peer != p) && (forall c :: c in b ==> c.id.peer == p)
    ensures EachOnce(a + b)
  {
    var s := a + b;
    forall i, j, x | 0 <= i < j < |s| && Within(s[i], x) ensures !Within(s[j], x) {
      if j < |a| { assert s[i] == a[i] && s[j] == a[j]; }
      else if i >= |a| { assert s[i] == b[i - |a|] && s[j] == b[j - |a|]; }
      else { assert s[i] in a && s[j] in b; }
    }
  }

  /** The export holds exactly the atoms at or past `from`, each once, as the history has them. */
  ghost predicate Exported(w: World, vv: map<nat, int>, from: map<nat, int>, cs: seq<Change>) {
    && (forall c :: c in cs ==> Told(w, c)) && EachOnce(cs)
    && (forall x: Id :: InSome(cs, x) <==> Reached(vv, x) && !(x.peer in from && x.counter < from[x.peer]))
  }

  ghost predicate InSome(cs: seq<Change>, x: Id) { exists c :: c in cs && Within(c, x) }

  /** Consecutive changes hold exactly the atoms of their log. */
  lemma {:induction false} Covering(cs: seq<Change>, p: nat, x: Id)
    requires Consecutive(cs, p) && cs != [] && x.peer == p
    ensures InSome(cs, x) <==> cs[0].id.counter <= x.counter < cs[0].id.counter + |LogOf(cs)|
  {
    hide Formed, Entries, Within;
    var m := |cs| - 1;
    assert cs == cs[..m] + [cs[m]];
    LogEnd(cs, p);
    LastWithin(cs, p, x);
    if m > 0 {
      ConsecutiveStart(cs, p);
      Covering(cs[..m], p, x);
      LogEnd(cs[..m], p);
      NextTo(cs, p, m);
    } else {
      assert cs[..0] == [];
    }
  }

  lemma {:induction false} LastWithin(cs: seq<Change>, p: nat, x: Id)
    requires Consecutive(cs, p) && cs != [] && x.peer == p
    ensures Within(cs[|cs| - 1], x) <==> cs[|cs| - 1].id.counter <= x.counter < ChangeEnd(cs[|cs| - 1])
    ensures cs[|cs| - 1].id.counter <= ChangeEnd(cs[|cs| - 1])
  {
    FormedSize(cs[|cs| - 1]);
  }

  lemma {:induction false} AtOrPast(vv: map<nat, int>, from: map<nat, int>, x: Id)
    requires Reached(vv, x)
    ensures x.counter >= StartOf(from, x.peer) <==> !(x.peer in from && x.counter < from[x.peer])
  {
  }

  lemma {:induction false} AllExported(w: World, peers: map<nat, seq<Block>>, vv: map<nat, int>, from: map<nat, int>,
                                       out: map<nat, seq<Block>>, cs: seq<Change>)
    requires Stored(w, peers, vv) && CopiedAll(peers, vv, from, out, vv.Keys) && EachOnce(cs)
    requires (forall q :: q in out ==> BlocksRight(out[q], q)) && forall c :: c in cs <==> InStore(out, c)
    ensures Exported(w, vv, from, cs)
  {
    hide Stored, BlocksRight, EachOnce, Told, CopiedPeer, Within, Flat;
    forall c | c in cs ensures Told(w, c) {
      var q :| q in out && c in Flat(out[q]);
      OutTold(w, peers, vv, from, out, q, c);
    }
    forall x: Id ensures InSome(cs, x) <==> Reached(vv, x) && !(x.peer in from && x.counter < from[x.peer]) {
      OutCovers(w, peers, vv, from, out, cs, x);
      if Reached(vv, x) { AtOrPast(vv, from, x); }
    }
  }

  lemma {:induction false} OutTold(w: World, peers: map<nat, seq<Block>>, vv: map<nat, int>, from: map<nat, int>, out: map<nat, seq<Block>>,
                                   q: nat, c: Change)
    requires Stored(w, peers, vv) && q in vv && CopiedPeer(peers, vv, from, out, q) && BlocksRight(out[q], q) && c in Flat(out[q])
    ensures Told(w, c)
  {
    hide Formed, Entries, LogOf, Flat, Stored, StoredAtom;
    var f, log, start := Flat(out[q]), LogIn(peers, q), StartOf(from, q);
    var i :| 0 <= i < |f| && f[i] == c;
    FlatRight(out[q], q);
    ChangeAt(f, q, i);
    LogStored(w, peers, vv, q);
    var n, e := |LogOf(f[..i])|, Entries(c);
    assert log[start..][n..n + |e|] == log[start + n..start + n + |e|];
    LogTold(w, c, log, q);
  }

  lemma {:induction false} OutCovers(w: World, peers: map<nat, seq<Block>>, vv: map<nat, int>, from: map<nat, int>, out: map<nat, seq<Block>>,
                                     cs: seq<Change>, x: Id)
    requires Stored(w, peers, vv) && CopiedAll(peers, vv, from, out, vv.Keys)
    requires (forall q :: q in out ==> BlocksRight(out[q], q)) && forall c :: c in cs <==> InStore(out, c)
    ensures InSome(cs, x) <==> Reached(vv, x) && x.counter >= StartOf(from, x.peer)
  {
    hide Formed, Entries, LogOf, Flat, Stored, StoredAtom, BlocksRight, Within;
    var p := x.peer;
    if InSome(cs, x) {
      var c :| c in cs && Within(c, x);
      var q :| q in out && c in Flat(out[q]);
      PeerOf(out[q], q, c);
      WithinPeer(c, x);
      assert InSome(Flat(out[p]), x);
    }
    if p in out {
      assert CopiedPeer(peers, vv, from, out, p);
      FlatRight(out[p], p);
      BlocksEnd(out[p], p);
      LogStored(w, peers, vv, p);
      NonemptyFlat(out[p], p);
      Covering(Flat(out[p]), p, x);
      if InSome(Flat(out[p]), x) {
        var c :| c in Flat(out[p]) && Within(c, x);
        assert InStore(out, c) && c in cs;
      }
    }
  }

  lemma {:induction false} NonemptyFlat(blocks: seq<Block>, p: nat)
    requires BlocksRight(blocks, p)
    ensures Flat(blocks) != [] && Origin(Flat(blocks)) == Flat(blocks)[0].id.counter
  {
    hide Formed;
    LastIs(blocks, p);
  }

  lemma {:induction false} WithinPeer(c: Change, x: Id)
    requires Within(c, x)
    ensures x.peer == c.id.peer
  {
  }

  // ----- one round -----

  /** Every dep of an exported change is already at the receiver, or exported at a lower lamport. */
  lemma {:induction false} ExportAhead(w: World, v: map<nat, int>, xs: map<nat, seq<Block>>, u: map<nat, int>, cs: seq<Change>)
    requires Honest(w) && Stored(w, xs, v) && DownClosed(w.h, Applied(w, v)) && Exported(w, v, u, cs)
    ensures AheadByLamport(u, cs)
  {
    hide Told, Honest, Stored, Reached, EachOnce, Within;
    forall c, d: Id | c in cs && d in c.deps ensures Reached(u, d) || exists e :: e in cs && Within(e, d) && e.lamport < c.lamport {
      DepAhead(w, v, xs, u, cs, c, d);
    }
  }

  lemma {:induction false} DepAhead(w: World, v: map<nat, int>, xs: map<nat, seq<Block>>, u: map<nat, int>, cs: seq<Change>, c: Change, d: Id)
    requires Honest(w) && Stored(w, xs, v) && DownClosed(w.h, Applied(w, v)) && Exported(w, v, u, cs) && c in cs && d in c.deps
    ensures Reached(u, d) || exists e :: e in cs && Within(e, d) && e.lamport < c.lamport
  {
    hide Told, Honest, Stored, EachOnce, Within, Past;
    DepBelow(w, c, d);
    ToldTells(w, c);
    assert InSome(cs, c.id);
    ReachedIn(w, xs, v, c.id);
    DepInSet(c.deps, d);
    ReachedIn(w, xs, v, d);
    if !Reached(u, d) {
      assert InSome(cs, d);
      var e :| e in cs && Within(e, d);
      FirstBelow(w, e, d);
    }
  }

  lemma {:induction false} FirstBelow(w: World, c: Change, x: Id)
    requires Told(w, c) && Within(c, x)
    ensures x in w.h && c.lamport <= w.h[x].lamport
  {
    hide Told;
    ToldTells(w, c);
    LamportInside(w.h, AsSeq(c), x);
  }

  lemma {:induction false} BothClosed(h: History, s: set<Id>, t: set<Id>)
    requires DownClosed(h, s) && DownClosed(h, t)
    ensures DownClosed(h, s + t)
  {
  }

  /** The receiver sends its version, and imports what the sender exports from it. Everything
      exported goes in at once, and the receiver then has all that either had; with nothing
      waiting before, exactly that. */
  method SyncRound(sender: OpLog, receiver: OpLog) returns (ok: bool)
    requires sender.Valid() && receiver.Valid() && sender.w == receiver.w
    requires sender != receiver && sender.store != receiver.store
    modifies receiver`vv, receiver`fr, receiver`pending, receiver`received, receiver.store
    ensures ok && receiver.Valid() && Waiting(receiver.pending) <= old(Waiting(receiver.pending))
    ensures Applied(sender.w, sender.vv) + old(Applied(receiver.w, receiver.vv)) <= Applied(receiver.w, receiver.vv)
    ensures old(receiver.received) == old(Applied(receiver.w, receiver.vv)) ==>
      forall p :: EndOf(receiver.vv, p) == Max(EndOf(sender.vv, p), old(EndOf(receiver.vv, p)))
  {
    hide Told, Honest, Stored, FrontierIs, FiledRight, NoneLost, TodoRight, DownClosed, Applied, Exported, AheadByLamport, AllAtoms, Reached;
    ghost var w, v, u, had := sender.w, sender.vv, receiver.vv, receiver.received;
    ghost var xs, ys := sender.store.peers, receiver.store.peers;
    var blob := ExportBlocksFrom(sender, receiver.vv);
    ExportedTold(w, v, u, blob);
    ExportAhead(w, v, xs, u, blob);
    ok := receiver.Import(blob);
    BothClosed(w.h, Applied(w, v), Applied(w, u));
    ArrivedAll(w, v, xs, u, ys, blob, had);
    LargestApplied(receiver, Applied(w, v) + Applied(w, u));
    if had == Applied(w, u) {
      forall p ensures EndOf(receiver.vv, p) == Max(EndOf(v, p), EndOf(u, p)) {
        ExactEnds(w, v, xs, u, ys, receiver.vv, receiver.store.peers, blob, p);
      }
    }
  }

  lemma {:induction false} ExportedTold(w: World, v: map<nat, int>, u: map<nat, int>, cs: seq<Change>)
    requires Exported(w, v, u, cs)
    ensures forall c :: c in cs ==> Told(w, c)
  {
    hide Told, EachOnce, Within, Reached;
  }

  /** All that either had has been received. */
  lemma {:induction false} ArrivedAll(w: World, v: map<nat, int>, xs: map<nat, seq<Block>>, u: map<nat, int>, ys: map<nat, seq<Block>>,
                                      cs: seq<Change>, had: set<Id>)
    requires Stored(w, xs, v) && Stored(w, ys, u) && Exported(w, v, u, cs) && Applied(w, u) <= had
    ensures Applied(w, v) + Applied(w, u) <= had + AllAtoms(cs)
    ensures AllAtoms(cs) <= Applied(w, v)
  {
    hide Told, EachOnce, Within, Stored, AllAtoms;
    forall x | x in Applied(w, v) ensures x in had + AllAtoms(cs) {
      ReachedIn(w, xs, v, x);
      ReachedIn(w, ys, u, x);
      AllAtomsAre(cs, x);
      if !Reached(u, x) { assert InSome(cs, x); }
    }
    forall x | x in AllAtoms(cs) ensures x in Applied(w, v) {
      AllAtomsAre(cs, x);
      assert InSome(cs, x);
      ReachedIn(w, xs, v, x);
    }
  }

  lemma {:induction false} ExactEnds(w: World, v: map<nat, int>, xs: map<nat, seq<Block>>, u: map<nat, int>, ys: map<nat, seq<Block>>,
                                     n: map<nat, int>, zs: map<nat, seq<Block>>, cs: seq<Change>, p: nat)
    requires Stored(w, xs, v) && Stored(w, ys, u) && Stored(w, zs, n) && Exported(w, v, u, cs)
    requires Applied(w, v) + Applied(w, u) <= Applied(w, n) <= Applied(w, u) + AllAtoms(cs)
    ensures EndOf(n, p) == Max(EndOf(v, p), EndOf(u, p))
  {
    hide Told, EachOnce, Within, Stored, AllAtoms, Exported, Applied, Reached;
    ArrivedAll(w, v, xs, u, ys, cs, Applied(w, u));
    EndsDetermined(w, xs, zs, v, n, p);
    EndsDetermined(w, ys, zs, u, n, p);
    NoMore(w, v, xs, u, ys, n, zs, p);
  }

  lemma {:induction false} NoMore(w: World, v: map<nat, int>, xs: map<nat, seq<Block>>, u: map<nat, int>, ys: map<nat, seq<Block>>,
                                  n: map<nat, int>, zs: map<nat, seq<Block>>, p: nat)
    requires Stored(w, xs, v) && Stored(w, ys, u) && Stored(w, zs, n) && Applied(w, n) <= Applied(w, v) + Applied(w, u)
    ensures EndOf(n, p) <= Max(EndOf(v, p), EndOf(u, p))
  {
    hide Stored;
    StoredEnds(w, xs, v, p);
    StoredEnds(w, ys, u, p);
    StoredEnds(w, zs, n, p);
    if p in n {
      var x := Id(p, n[p] - 1);
      ReachedIn(w, zs, n, x);
      ReachedIn(w, xs, v, x);
      ReachedIn(w, ys, u, x);
    }
  }
}
