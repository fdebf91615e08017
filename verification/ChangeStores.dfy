/** The change store: whatever it merges, folds or splits, each peer's log is exactly the atoms put
    in, in order. */
module ChangeStores {
  import opened Common
  import opened SeqTypes
  import opened CausalHistory
  import opened IdLists
  import opened Ops
  import opened Folding
  import opened Changes
  import opened Blocks
  import opened BlockSearch

  // ----- the store -----

  ghost function LogIn(peers: map<nat, seq<Block>>, p: nat): seq<Entry> {
    if p in peers then LogOf(Flat(peers[p])) else []
  }

  ghost function FromIn(peers: map<nat, seq<Block>>, p: nat): int {
    if p in peers then Origin(Flat(peers[p])) else 0
  }

  /** The first n atoms of c are put in, and nothing else. */
  ghost predicate Grown(was: map<nat, seq<Block>>, now: map<nat, seq<Block>>, c: Change, n: nat)
    requires n <= |Entries(c)|
  {
    var p := c.id.peer;
    && now.Keys == was.Keys + (if n > 0 then {p} else {})
    && (forall q :: q in was && q != p ==> now[q] == was[q])
    && LogIn(now, p) == LogIn(was, p) + Entries(c)[..n]
    && (p in now ==> FromIn(now, p) == if p in was then FromIn(was, p) else c.id.counter)
  }

  ghost predicate TakenBy(peers: map<nat, seq<Block>>, c: Change) {
    && Formed(c)
    && (c.id.peer in peers ==>
         var l := LogIn(peers, c.id.peer);
         l != [] && c.id.counter == FromIn(peers, c.id.peer) + |l| && Follows(c, l[|l| - 1]))
  }

  /** The atoms [n, k) of c, collected op by op. */
  ghost predicate Part(c: Change, piece: Change, n: nat, k: nat) {
    && n <= k <= |Joined(c.ops)|
    && piece.id == Id(c.id.peer, c.id.counter + n) && piece.lamport == c.lamport + n
    && piece.deps == (if n == 0 then c.deps else [Id(c.id.peer, c.id.counter + n - 1)])
    && |piece.deps| <= MAX_DEPS && DistinctIds(piece.deps)
    && Row(piece.ops, piece.id, piece.lamport) && Joined(piece.ops) == Joined(c.ops)[n..k]
  }

  lemma {:induction false} PartEntries(c: Change, piece: Change, n: nat, k: nat)
    requires Part(c, piece, n, k) && piece.ops != []
    ensures Formed(piece) && |Entries(c)| == |Joined(c.ops)| && Entries(piece) == Entries(c)[n..k] && n < k
  {
    hide Row, Joined, Entries, IdSet;
    EntryCount(c);
    EntryCount(piece);
    FormedSize(piece);
    forall i | 0 <= i < k - n ensures Entries(piece)[i] == Entries(c)[n..k][i] {
      EntryAt(piece, i);
      EntryAt(c, n + i);
      if i == 0 && n > 0 { OneId(piece.deps[0]); }
    }
  }

  /** A part goes where the parts before it end. */
  lemma {:induction false} PartTaken(was: map<nat, seq<Block>>, now: map<nat, seq<Block>>, c: Change, piece: Change, n: nat, k: nat)
    requires TakenBy(was, c) && n <= |Entries(c)| && Grown(was, now, c, n) && Part(c, piece, n, k) && piece.ops != []
    ensures TakenBy(now, piece)
  {
    hide Entries, LogOf, Flat, Origin, Row, Joined;
    PartEntries(c, piece, n, k);
    if n > 0 {
      EntryAt(c, n - 1);
      assert LogIn(now, c.id.peer)[|LogIn(now, c.id.peer)| - 1] == Entries(c)[n - 1];
    } else {
      assert LogIn(was, c.id.peer) + [] == LogIn(was, c.id.peer);
    }
  }

  lemma {:induction false} NextPart(c: Change, piece: Change, n: nat, k: nat)
    requires Part(c, piece, n, k) && piece.ops != []
    ensures var end := ChangeEnd(piece);
      && end == c.id.counter + k && end > piece.id.counter
      && Part(c, Change(Id(piece.id.peer, end), piece.lamport + (end - piece.id.counter), [Id(piece.id.peer, end - 1)], []), k, k)
  {
    hide Row, Joined, Entries, Formed;
    PartEntries(c, piece, n, k);
    EntryCount(piece);
    NoPart(c, k);
  }

  lemma {:induction false} NoPart(c: Change, k: nat)
    requires 0 < k <= |Joined(c.ops)|
    ensures Part(c, Change(Id(c.id.peer, c.id.counter + k), c.lamport + k, [Id(c.id.peer, c.id.counter + k - 1)], []), k, k)
  {
  }

  /** What is left of an op of c: its atoms [k, e) of c. */
  ghost predicate Rest(c: Change, op: Op, k: nat, e: nat) {
    && k < e <= |Joined(c.ops)| && RightLen(op) && Atoms(op) == Joined(c.ops)[k..e]
    && op.id == Id(c.id.peer, c.id.counter + k) && op.lamport == c.lamport + k
  }

  lemma {:induction false} RestCut(c: Change, op: Op, k: nat, e: nat, fit: nat)
    requires Rest(c, op, k, e) && 0 < fit <= op.len
    ensures op.len == e - k && Clip(op, 0, fit).Some? && Rest(c, Clip(op, 0, fit).value, k, k + fit)
    ensures fit < op.len ==> Clip(op, fit, op.len - fit).Some? && Rest(c, Clip(op, fit, op.len - fit).value, k + fit, e)
  {
    hide Atoms, Joined, Clip;
    ClipKeeps(op, 0, fit);
    if fit < op.len { ClipKeeps(op, fit, op.len - fit); }
  }

  lemma {:induction false} PartPush(c: Change, piece: Change, n: nat, k: nat, op: Op, e: nat, fold: bool)
    requires Part(c, piece, n, k) && Rest(c, op, k, e)
    ensures var r := piece.(ops := Push(piece.ops, op, fold)); Part(c, r, n, e) && r.ops != []
  {
    hide Atoms, Joined, Row, Push;
    PushJoins(piece.ops, op, fold, piece.id, piece.lamport);
  }

  lemma {:induction false} OpRest(c: Change, i: nat)
    requires Formed(c) && i < |c.ops|
    ensures Rest(c, c.ops[i], |Joined(c.ops[..i])|, |Joined(c.ops[..i + 1])|)
  {
    hide Atoms;
    OpPlace(c, i);
    assert c.ops[..i + 1] == c.ops[..i] + [c.ops[i]];
    JoinedStep(c.ops[..i], c.ops[i]);
  }

  lemma {:induction false} GrownMore(was: map<nat, seq<Block>>, now: map<nat, seq<Block>>, after: map<nat, seq<Block>>,
                                     c: Change, piece: Change, n: nat, k: nat)
    requires n <= |Entries(c)| && Grown(was, now, c, n) && Part(c, piece, n, k) && piece.ops != []
    requires Grown(now, after, piece, |Entries(piece)|)
    ensures k <= |Entries(c)| && Grown(was, after, c, k)
  {
    hide Entries, LogIn, FromIn, Row, Joined;
    PartEntries(c, piece, n, k);
    LogMore(was, now, after, c, piece, n, k);
    var p := c.id.peer;
    assert piece.id.peer == p && piece.id.counter == c.id.counter + n;
  }

  lemma {:induction false} LogMore(was: map<nat, seq<Block>>, now: map<nat, seq<Block>>, after: map<nat, seq<Block>>,
                                   c: Change, piece: Change, n: nat, k: nat)
    requires n <= k <= |Entries(c)| && Entries(piece) == Entries(c)[n..k] && piece.id.peer == c.id.peer
    requires Grown(was, now, c, n) && Grown(now, after, piece, |Entries(piece)|)
    ensures LogIn(after, c.id.peer) == LogIn(was, c.id.peer) + Entries(c)[..k]
  {
    hide Entries, LogIn, FromIn;
    assert Entries(piece)[..|Entries(piece)|] == Entries(piece);
    assert Entries(c)[..n] + Entries(c)[n..k] == Entries(c)[..k];
  }

  lemma {:induction false} MayFollow(peers: map<nat, seq<Block>>, c: Change)
    requires TakenBy(peers, c) && c.id.peer in peers && BlocksRight(peers[c.id.peer], c.id.peer)
    ensures var blocks := peers[c.id.peer];
      blocks != [] && blocks[|blocks| - 1].changes != [] && Continues(LastChange(blocks), c)
      && blocks[|blocks| - 1].end == c.id.counter
  {
    hide Formed, Entries, LogOf, Flat, Origin, BlocksRight, Continues, Follows;
    PeerEnd(peers[c.id.peer], c.id.peer);
    FollowsContinues(LastChange(peers[c.id.peer]), c);
  }

  lemma {:induction false} GrownBlocks(was: map<nat, seq<Block>>, c: Change, blocks: seq<Block>)
    requires Formed(c) && LogOf(Flat(blocks)) == LogIn(was, c.id.peer) + Entries(c)
    requires Origin(Flat(blocks)) == if c.id.peer in was then FromIn(was, c.id.peer) else c.id.counter
    ensures Grown(was, was[c.id.peer := blocks], c, |Entries(c)|)
  {
    hide Formed, Entries, LogOf, Flat, Origin;
    FormedSize(c);
    GrownWhole(was, was[c.id.peer := blocks], c);
  }

  /** c holds the atom, and its atoms are those of the log from its start on. */
  ghost predicate StoredIn(c: Change, log: seq<Entry>, from: int, id: Id) {
    var n, e := c.id.counter - from, Entries(c);
    && Formed(c) && c.id.peer == id.peer && c.id.counter <= id.counter < ChangeEnd(c) && ChangeEnd(c) == c.id.counter + |e|
    && 0 <= n && n + |e| <= |log| && log[n..n + |e|] == e
  }

  lemma {:induction false} InBlock(blocks: seq<Block>, p: nat, i: nat, j: nat, c: int)
    requires BlocksRight(blocks, p) && i < |blocks| && blocks[i].end > c && j <= |blocks[i].changes|
    requires forall k :: 0 <= k < j ==> ChangeEnd(blocks[i].changes[k]) <= c
    ensures j < |blocks[i].changes|
  {
    assert BlockRight(blocks[i]);
  }

  lemma {:induction false} FoundTells(blocks: seq<Block>, p: nat, i: nat, j: nat, c: int)
    requires BlocksRight(blocks, p) && i < |blocks| && j < |blocks[i].changes|
    requires Hold(blocks, c, |Flat(blocks[..i])| + j)
    ensures StoredIn(blocks[i].changes[j], LogOf(Flat(blocks)), Origin(Flat(blocks)), Id(p, c))
  {
    hide LogOf, Flat, Origin, Entries, Formed;
    BlockAt(blocks, i, j);
    ChangeAt(Flat(blocks), p, |Flat(blocks[..i])| + j);
  }

  class ChangeStore {
    var peers: map<nat, seq<Block>>

    ghost predicate Valid()
      reads this
    {
      forall p :: p in peers ==> BlocksRight(peers[p], p)
    }

    /** Peer p's atoms in id order. */
    ghost function Log(p: nat): seq<Entry>
      reads this
    {
      LogIn(peers, p)
    }

    /** The counter of the first of them. */
    ghost function From(p: nat): int
      reads this
    {
      FromIn(peers, p)
    }

    constructor ()
      ensures Valid() && peers == map[]
    {
      peers := map[];
    }

    /** What may be put in next for its peer. */
    ghost predicate Takes(c: Change)
      reads this
    {
      TakenBy(peers, c)
    }

    /** Puts a change in: merged into the last change of the peer's last block, after it, or in a
        block of its own. A big change is split first when `split` says so. Its peer's log grows by
        exactly its atoms; no other log changes. */
    method Insert(c: Change, split: bool)
      requires Valid() && Takes(c)
      modifies this
      ensures Valid() && Grown(old(peers), peers, c, |Entries(c)|)
      ensures Log(c.id.peer) == old(Log(c.id.peer)) + Entries(c)
      ensures forall p :: p != c.id.peer ==> Log(p) == old(Log(p))
      decreases split, 1
    {
      hide Formed, Entries, LogOf, Flat, Origin, BlocksRight, TakenBy;
      assert Entries(c)[..|Entries(c)|] == Entries(c);
      var size := BaseSize(c.deps) + OpsSize(c.ops);
      if size > BLOCK_LIMIT && split {
        SplitThenInsert(c);
        return;
      }
      InsertWhole(c, size);
    }

    /** Puts a change into its peer's last block, or a new one. */
    method InsertWhole(c: Change, size: nat)
      requires Valid() && Takes(c)
      modifies this
      ensures Valid() && Grown(old(peers), peers, c, |Entries(c)|)
    {
      hide Formed, Entries, LogOf, Flat, Origin, BlocksRight, Follows, Continues, Pushed, BlockRight, Grown;
      var p := c.id.peer;
      var blocks := if p in peers then peers[p] else [];
      if p in peers {
        PeerEnd(blocks, p);
        MayFollow(peers, c);
      }
      if blocks != [] && blocks[|blocks| - 1].end == c.id.counter {
        var ok, r := PushInto(blocks[|blocks| - 1], c, size);
        if ok {
          PushedBlocks(blocks, c, r);
          GrownBlocks(peers, c, blocks[..|blocks| - 1] + [r]);
          peers := peers[p := blocks[..|blocks| - 1] + [r]];
          return;
        }
      }
      NewBlock(blocks, c, size);
      NoLog();
      GrownBlocks(peers, c, blocks + [Block([c], size, ChangeEnd(c))]);
      peers := peers[p := blocks + [Block([c], size, ChangeEnd(c))]];
    }

    /** Puts in what is collected so far, and starts the next piece after it. */
    method Flush(ghost c: Change, ghost was: map<nat, seq<Block>>, piece: Change, size: int, ghost n: nat, ghost k: nat)
      returns (next: Change, left: int, ghost m: nat)
      requires Valid() && TakenBy(was, c) && n <= |Entries(c)| && Grown(was, peers, c, n) && Part(c, piece, n, k)
      modifies this
      ensures Valid() && m <= |Entries(c)| && Grown(was, peers, c, m) && Part(c, next, m, k) && next.ops == []
      ensures if piece.ops == [] then next == piece && left == size else left == BaseSize(next.deps) == 4
      decreases false, 2
    {
      hide Entries, LogIn, FromIn, BlocksRight, TakenBy, Grown, Row, Joined;
      if piece.ops == [] { return piece, size, n; }
      PartEntries(c, piece, n, k);
      var end := ChangeEnd(piece);
      next := Change(Id(piece.id.peer, end), piece.lamport + (end - piece.id.counter), [Id(piece.id.peer, end - 1)], []);
      left := BaseSize(next.deps);
      m := k;
      NextPart(c, piece, n, k);
      PartTaken(was, peers, c, piece, n, k);
      ghost var now := peers;
      Insert(piece, false);
      GrownMore(was, now, peers, c, piece, n, k);
    }

    /** Appends c's entries through several blocks, dividing ops at block limits; the log grows by them all the same. */
    method SplitThenInsert(c: Change)
      requires Valid() && Takes(c)
      modifies this
      ensures Valid() && Grown(old(peers), peers, c, |Entries(c)|)
      decreases true, 0
    {
      hide Formed, Entries, LogIn, FromIn, BlocksRight, TakenBy, Grown, Row, Joined, Part, Rest;
      ghost var was := peers;
      ghost var n: nat, k: nat := 0, 0;
      TakenFormed(was, c);
      var piece := Change(c.id, c.lamport, c.deps, []);
      var size: int := BaseSize(c.deps);
      SplitStarts(was, c);
      for i := 0 to |c.ops|
        invariant Valid() && n <= |Entries(c)| && Grown(was, peers, c, n) && Part(c, piece, n, k)
        invariant k == |Joined(c.ops[..i])|
        invariant piece.ops == [] ==> Roomy(piece, size)
      {
        OpRest(c, i);
        piece, size, n, k := SplitOp(c, was, piece, size, c.ops[i], n, k, |Joined(c.ops[..i + 1])|);
      }
      assert c.ops[..|c.ops|] == c.ops;
      if piece.ops != [] {
        ghost var now := peers;
        PartTaken(was, peers, c, piece, n, k);
        Insert(piece, false);
        GrownMore(was, now, peers, c, piece, n, k);
      } else {
        EmptyPart(c, piece, n, k);
      }
      EntryCount(c);
    }

    /** The change that holds an atom; none only when the log does not reach it. */
    method Find(id: Id) returns (r: Option<Change>)
      requires Valid()
      ensures r.None? ==> id.peer !in peers || id.counter < From(id.peer) || id.counter >= From(id.peer) + |Log(id.peer)|
      ensures r.Some? ==> id.peer in peers && StoredIn(r.value, Log(id.peer), From(id.peer), id)
    {
      hide BlocksRight, Consecutive, LogOf, Flat, Origin, Entries, Formed;
      if id.peer !in peers { return None; }
      var blocks, p, c := peers[id.peer], id.peer, id.counter;
      var i := FirstBlock(blocks, c, p);
      BlocksEnd(blocks, p);
      if i == |blocks| { return None; }
      BlockConsecutive(blocks, p, i);
      var cs := blocks[i].changes;
      var j := FirstChange(cs, c, p);
      InBlock(blocks, p, i, j, c);
      FoundAt(blocks, p, i, j, c);
      if cs[j].id.counter > c { return None; }
      FoundTells(blocks, p, i, j, c);
      return Some(cs[j]);
    }

    /** Puts one op in pieces of the room there is. */
    method SplitOp(ghost c: Change, ghost was: map<nat, seq<Block>>, piece0: Change, size0: int, op: Op, ghost n0: nat, ghost k0: nat,
                   ghost e: nat) returns (piece: Change, size: int, ghost n: nat, ghost k: nat)
      requires Valid() && TakenBy(was, c) && n0 <= |Entries(c)| && Grown(was, peers, c, n0) && Part(c, piece0, n0, k0)
      requires Rest(c, op, k0, e) && (piece0.ops == [] ==> Roomy(piece0, size0))
      modifies this
      ensures Valid() && n <= |Entries(c)| && Grown(was, peers, c, n) && Part(c, piece, n, k) && k == e
      ensures piece.ops == [] ==> Roomy(piece, size)
      decreases false, 3
    {
      hide Formed, Entries, LogIn, FromIn, BlocksRight, TakenBy, Grown, Row, Joined, Part, Rest;
      piece, size, n, k := piece0, size0, n0, k0;
      var cur := op;
      if StoredOpSize(op) >= BLOCK_LIMIT - size { piece, size, n := Flush(c, was, piece, size, n, k); }
      while true
        invariant Valid() && n <= |Entries(c)| && Grown(was, peers, c, n) && Part(c, piece, n, k) && Rest(c, cur, k, e)
        invariant piece.ops == [] ==> Roomy(piece, size)
        invariant piece.ops != [] ==> StoredOpSize(cur) < BLOCK_LIMIT - size
        decreases cur.len
      {
        var fits := FitsIn(cur, BLOCK_LIMIT - size);
        if fits.None? { break; }
        RestLen(c, cur, k, e);
        var fit := fits.value;
        RestCut(c, cur, k, e, fit);
        var fold: bool := *;
        PartPush(c, piece, n, k, Clip(cur, 0, fit).value, k + fit, fold);
        piece := piece.(ops := Push(piece.ops, Clip(cur, 0, fit).value, fold));
        k := k + fit;
        piece, size, n := Flush(c, was, piece, size, n, k);
        if fit >= cur.len { return; }
        cur := Clip(cur, fit, cur.len - fit).value;
        RestLen(c, cur, k, e);
      }
      size := size + StoredOpSize(cur);
      // A piece that holds ops has room left here, so it is never too late to flush it.
      assert !(size > BLOCK_LIMIT && piece.ops != []);
      var fold: bool := *;
      PartPush(c, piece, n, k, cur, e, fold);
      piece := piece.(ops := Push(piece.ops, cur, fold));
      k := e;
    }
  }

  /** A piece that holds no op yet has room for an atom. */
  ghost predicate Roomy(piece: Change, size: int) {
    size == BaseSize(piece.deps) && |piece.deps| <= MAX_DEPS
  }

  lemma {:induction false} RestLen(c: Change, op: Op, k: nat, e: nat)
    requires Rest(c, op, k, e)
    ensures op.len == e - k && op.len >= 1
  {
  }

  lemma {:induction false} TakenFormed(peers: map<nat, seq<Block>>, c: Change)
    requires TakenBy(peers, c)
    ensures Formed(c)
  {
  }

  lemma {:induction false} EmptyPart(c: Change, piece: Change, n: nat, k: nat)
    requires Part(c, piece, n, k) && piece.ops == []
    ensures n == k
  {
  }

  lemma {:induction false} SplitStarts(was: map<nat, seq<Block>>, c: Change)
    requires Formed(c)
    ensures Grown(was, was, c, 0) && Part(c, Change(c.id, c.lamport, c.deps, []), 0, 0) && |Joined(c.ops[..0])| == 0
  {
  }

  lemma {:induction false} NoLog()
    ensures LogOf(Flat([])) == []
  {
  }

  lemma {:induction false} GrownWhole(was: map<nat, seq<Block>>, now: map<nat, seq<Block>>, c: Change)
    requires LogIn(now, c.id.peer) == LogIn(was, c.id.peer) + Entries(c) && Entries(c) != []
    requires FromIn(now, c.id.peer) == if c.id.peer in was then FromIn(was, c.id.peer) else c.id.counter
    requires now.Keys == was.Keys + {c.id.peer}
    requires forall p :: p in was && p != c.id.peer ==> now[p] == was[p]
    ensures Grown(was, now, c, |Entries(c)|)
  {
    assert Entries(c)[..|Entries(c)|] == Entries(c);
  }
}
