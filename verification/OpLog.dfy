/** Importing changes: whatever arrives, in whatever order and grouping, what is applied is the
    largest part of it that is causally complete. */
module OpLogs {
  import opened Common
  import opened SeqTypes
  import opened CausalHistory
  import opened IdLists
  import opened Ops
  import opened Folding
  import opened Changes
  import opened Blocks
  import opened ChangeStores
  import opened LogHistory
  import opened Frontiers
  import opened LamportSort
  import opened OpLogFacts

  class OpLog {
    ghost const w: World
    const store: ChangeStore
    var vv: map<nat, int>
    var fr: Frontier
    var pending: Pending
    ghost var received: set<Id>

    /** The store, version and frontiers agree on what is applied, which is causally complete. */
    ghost predicate Core()
      reads this, store
    {
      && Honest(w) && store.Valid() && Stored(w, store.peers, vv)
      && DownClosed(w.h, Applied(w, vv)) && FrontierIs(w.h, Applied(w, vv), fr)
      && Applied(w, vv) <= received
    }

    ghost predicate Settling(todo: seq<Change>, ids: seq<Id>)
      reads this, store
    {
      && Core() && FiledRight(w, vv, pending, received, ids)
      && NoneLost(vv, pending, received, todo) && TodoRight(w, received, todo)
    }

    ghost predicate Valid()
      reads this, store
    {
      Settling([], [])
    }

    constructor (ghost w: World)
      requires Honest(w)
      ensures Valid() && this.w == w && vv == map[] && received == {} && fresh(store)
    {
      hide Honest, Stored, DownClosed, FrontierIs, FiledRight, NoneLost, TodoRight, Applied;
      this.w, vv, fr, pending, received := w, map[], map[], map[], {};
      store := new ChangeStore();
      NothingYet(w);
    }

    /** The lamport of an applied atom. */
    method LamportOf(id: Id) returns (r: Option<int>)
      requires Core()
      ensures r.Some? <==> Reached(vv, id)
      ensures r.Some? ==> id in w.h && r.value == w.h[id].lamport
    {
      hide Honest, FrontierIs, DownClosed, Formed, Entries;
      var c := store.Find(id);
      ReachedIn(w, store.peers, vv, id);
      if c.None? {
        NotReached(w, store.peers, vv, id);
        return None;
      }
      FoundLamport(w, store.peers, vv, c.value, id);
      return Some(c.value.lamport + (id.counter - c.value.id.counter));
    }

    /** The lamport PastDeps gives these deps, if the log holds them all. */
    method LamportFromDeps(deps: seq<Id>) returns (r: Option<int>)
      requires Core()
      ensures r.Some? <==> forall d :: d in deps ==> Reached(vv, d)
      ensures r.Some? ==> PastDeps(w.h, deps, r.value)
    {
      hide Honest, FrontierIs, DownClosed, Stored;
      var lam := 0;
      for i := 0 to |deps|
        invariant forall k :: 0 <= k < i ==> Reached(vv, deps[k])
        invariant PastDeps(w.h, deps[..i], lam)
      {
        var l := LamportOf(deps[i]);
        if l.None? { return None; }
        PastMore(w.h, deps, i, lam);
        lam := Max(lam, l.value + 1);
      }
      assert deps[..|deps|] == deps;
      return Some(lam);
    }

    /** c's entries from the version's end of its peer on. */
    method TrimKnown(c: Change) returns (r: Option<Change>)
      requires Core() && Told(w, c)
      ensures r.None? <==> ChangeEnd(c) <= EndOf(vv, c.id.peer)
      ensures r.Some? ==> IsTail(w, c, r.value) && r.value.id.counter == Max(c.id.counter, EndOf(vv, c.id.peer))
    {
      hide Formed, Entries, Told, Honest, FrontierIs, DownClosed, Stored;
      ToldTells(w, c);
      var end := EndOf(vv, c.id.peer);
      if c.id.counter >= end { return Some(c); }
      if ChangeEnd(c) <= end { return None; }
      SliceTold(w, c, end - c.id.counter);
      EntryCount(c);
      return Some(Slice(c, end - c.id.counter, ChangeEnd(c) - c.id.counter));
    }

    /** Extends the log by a Ready change; a Told one passes. */
    method InsertRemote(c: Change) returns (ok: bool)
      requires Core() && Appends(w, vv, c) && AtomsOf(c) <= received
      modifies this`vv, this`fr, store
      ensures ok && Core() && vv == old(vv)[c.id.peer := ChangeEnd(c)]
    {
      hide Formed, Entries, Told, Honest, FrontierIs, DownClosed, Stored, Ready, TakenBy, Grown;
      AppendsReady(w, store.peers, vv, c);
      AppendsTaken(w, store.peers, vv, c);
      ToldTells(w, c);
      if |c.deps| == 1 && c.deps[0].peer == c.id.peer {
        OwnDep(w, c);
        var prev := LamportOf(c.deps[0]);
        if prev.Some? && c.lamport != prev.value + 1 { return false; }
      }
      LastLamport(w, c);
      if c.lamport + (ChangeEnd(c) - c.id.counter) > MAX_LAMPORT { return false; }
      FewDeps(w, c);
      ghost var was, s := store.peers, Applied(w, vv);
      fr := UpdateOnNewChange(fr, LastId(c), c.deps);
      FrontierKept(w, s, c, old(fr), fr);
      ClosedGrows(w, s, c);
      StoredEnds(w, was, vv, c.id.peer);
      AppliedGrows(w, vv, c);
      store.Insert(c, true);
      StoredGrows(w, was, store.peers, vv, c);
      vv := vv[c.id.peer := ChangeEnd(c)];
      return true;
    }

    /** Raises a change's lamport past its deps', trims its known part and applies the rest. */
    method ApplyRemote(c: Change) returns (ok: bool)
      requires Core() && Told(w, c) && AtomsOf(c) <= received
      requires c.id.counter <= EndOf(vv, c.id.peer) < ChangeEnd(c) && forall d :: d in c.deps ==> Reached(vv, d)
      modifies this`vv, this`fr, store
      ensures ok && Core() && vv == old(vv)[c.id.peer := ChangeEnd(c)]
    {
      hide Formed, Entries, Told, FrontierIs, DownClosed, Stored, Appends, Complete, Tight;
      var lam := Raised(c);
      ok := PutTail(SetLamport(c, lam), c);
    }

    /** A change's lamport raised past its deps': an honest one stays where it is. */
    method Raised(c: Change) returns (lam: nat)
      requires Core() && Told(w, c)
      ensures lam == c.lamport
    {
      hide Formed, Entries, Told, FrontierIs, DownClosed, Stored, Complete, Tight;
      lam := c.lamport;
      for i := 0 to |c.deps|
        invariant lam == c.lamport
      {
        var l := LamportOf(c.deps[i]);
        if l.Some? {
          DepBelow(w, c, c.deps[i]);
          lam := Max(lam, l.value + 1);
        }
      }
    }

    /** Applies what is not known of a change that has its lamport. */
    method PutTail(c: Change, ghost was: Change) returns (ok: bool)
      requires Core() && Told(w, was) && AtomsOf(was) <= received && c == SetLamport(was, was.lamport)
      requires was.id.counter <= EndOf(vv, was.id.peer) < ChangeEnd(was) && forall d :: d in was.deps ==> Reached(vv, d)
      modifies this`vv, this`fr, store
      ensures ok && Core() && vv == old(vv)[was.id.peer := ChangeEnd(was)]
    {
      hide Formed, Entries, Told, FrontierIs, DownClosed, Stored, Appends, Complete, Tight, SetLamport;
      ToldSame(w, was);
      var tail := TrimKnown(c);
      if tail.None? { return true; }
      FromZero(w, c);
      TailAppends(w, vv, c, tail.value);
      ok := InsertRemote(tail.value);
    }

    /** Which of the three c is: covered by the version, Ready once trimmed, or blocked; then `missing` is an
        unapplied atom that comes before it. */
    method WaitsForAtom(c: Change) returns (applied: bool, missing: Option<Id>)
      requires Core() && Told(w, c)
      ensures applied ==> missing.None? && ChangeEnd(c) <= EndOf(vv, c.id.peer)
      ensures missing.Some? ==> !Reached(vv, missing.value) && Past(w.h, missing.value, c.id)
      ensures !applied && missing.None? ==>
        c.id.counter <= EndOf(vv, c.id.peer) < ChangeEnd(c) && forall d :: d in c.deps ==> Reached(vv, d)
    {
      hide Formed, Entries, Told, FrontierIs, DownClosed, Stored, Tight, Past;
      ToldTells(w, c);
      var p := c.id.peer;
      var have := EndOf(vv, p);
      if have >= ChangeEnd(c) { return true, None; }
      StoredEnds(w, store.peers, vv, p);
      if c.id.counter > 0 { OwnBefore(w.h, c.id); }
      if have < c.id.counter { return false, Some(Id(p, c.id.counter - 1)); }
      for i := 0 to |c.deps|
        invariant forall k :: 0 <= k < i ==> Reached(vv, c.deps[k])
      {
        var d := c.deps[i];
        DepBelow(w, c, d);
        if EndOf(vv, d.peer) - 1 < d.counter { return false, Some(d); }
      }
      return false, None;
    }

    /** Files a change under the atom it waits for. */
    method Park(m: Id, c: Change)
      modifies this`pending
      ensures pending == old(pending)[m := (if m in old(pending) then old(pending)[m] else []) + [c]]
    {
      pending := pending[m := (if m in pending then pending[m] else []) + [c]];
    }

    /** Keeps Settling while c leaves the to-do list: parked, dropped, or in the log with its id queued. */
    method Settle(c: Change, ghost todo: seq<Change>, ids: seq<Id>) returns (queue: seq<Id>)
      requires Settling([c] + todo, ids)
      modifies this`vv, this`fr, this`pending, store
      ensures Settling(todo, queue)
      ensures queue == ids + [LastId(c)] || (queue == ids && vv == old(vv))
      ensures queue != ids ==> Applied(w, old(vv)) < Applied(w, vv)
      ensures VersionGrows(old(vv), vv) && Waiting(pending) <= Waiting(old(pending)) + {c}
    {
      hide Formed, Entries, Told, FrontierIs, DownClosed, Stored, Complete, Tight, Past, FiledRight, NoneLost, Waiting;
      TodoFirst(w, received, c, todo);
      var applied, missing := WaitsForAtom(c);
      queue := ids;
      if missing.Some? {
        SettleParked(w, vv, pending, received, todo, ids, c, missing.value);
        WaitingMore(pending, missing.value, c);
        Park(missing.value, c);
      } else if applied {
        SettleDone(w, vv, pending, received, todo, c);
      } else {
        SettleApplied(w, vv, pending, received, todo, ids, c);
        MoreApplied(w, vv, c);
        queue := ids + [LastId(c)];
        var ok := ApplyRemote(c);
      }
    }

    /** Takes up all that waits for an atom of the id's peer at or below it, in counter order. */
    method TakeUp(id: Id) returns (due: seq<Change>)
      modifies this`pending
      ensures forall m, c :: Filed(pending, m, c) <==> Filed(old(pending), m, c) && !AtOrBelow(m, id)
      ensures forall c :: c in due <==> exists m :: Filed(old(pending), m, c) && AtOrBelow(m, id)
    {
      ghost var was := pending;
      var left, keys := set m | m in pending && AtOrBelow(m, id), [];
      var ripe := left;
      while left != {}
        invariant pending == was && left <= ripe && forall m :: m in keys <==> m in ripe && m !in left
        decreases left
      {
        var m :| m in left;
        left := left - {m};
        keys := keys + [m];
      }
      keys := SortIds(keys);
      due := Gather(pending, keys);
      pending := pending - ripe;
    }

    /** Retries what the queued ids bring up, last id first, until none is left. */
    method ApplyPending(queue: seq<Id>, ghost todo: seq<Change>)
      requires Settling(todo, queue)
      modifies this`vv, this`fr, this`pending, store
      ensures Settling(todo, []) && VersionGrows(old(vv), vv) && Waiting(pending) <= Waiting(old(pending))
    {
      hide Formed, Entries, Told, Honest, FrontierIs, DownClosed, Stored, FiledRight, NoneLost, TodoRight, Applied, Waiting;
      var ids := queue;
      while ids != []
        invariant Settling(todo, ids) && VersionGrows(old(vv), vv) && Waiting(pending) <= Waiting(old(pending))
        decreases |Left(w, vv)|, |ids|
      {
        var n := |ids| - 1;
        var id := ids[n];
        assert ids == ids[..n] + [id];
        ids := TakeTurn(id, ids[..n], todo);
      }
    }

    /** One queued id: everything it brings up is settled. */
    method TakeTurn(id: Id, rest: seq<Id>, ghost todo: seq<Change>) returns (ids: seq<Id>)
      requires Settling(todo, rest + [id])
      modifies this`vv, this`fr, this`pending, store
      ensures Settling(todo, ids) && VersionGrows(old(vv), vv)
      ensures |Left(w, vv)| < |Left(w, old(vv))| || (vv == old(vv) && ids == rest)
      ensures Waiting(pending) <= Waiting(old(pending))
    {
      hide Formed, Entries, Told, Honest, FrontierIs, DownClosed, Stored, FiledRight, NoneLost, TodoRight, Applied, Waiting, ChangeSet;
      ghost var was := pending;
      var due := TakeUp(id);
      WaitingTaken(was, pending, id, due);
      TakenUp(w, vv, was, pending, received, id, rest, due, todo);
      ids := SettleAll(due, todo, rest);
    }

    /** Settles changes one by one. */
    method SettleAll(due: seq<Change>, ghost todo: seq<Change>, queue: seq<Id>) returns (ids: seq<Id>)
      requires Settling(due + todo, queue)
      modifies this`vv, this`fr, this`pending, store
      ensures Settling(todo, ids) && VersionGrows(old(vv), vv)
      ensures |Left(w, vv)| < |Left(w, old(vv))| || (vv == old(vv) && ids == queue)
      ensures Waiting(pending) <= Waiting(old(pending)) + ChangeSet(due)
    {
      hide Formed, Entries, Told, Honest, FrontierIs, DownClosed, Stored, FiledRight, NoneLost, TodoRight, Applied, Waiting, ChangeSet;
      ids := queue;
      for i := 0 to |due|
        invariant Settling(due[i..] + todo, ids) && VersionGrows(old(vv), vv)
        invariant |Left(w, vv)| < |Left(w, old(vv))| || (vv == old(vv) && ids == queue)
        invariant Waiting(pending) <= Waiting(old(pending)) + ChangeSet(due)
      {
        SetOfTail(due, i);
        assert due[i..] + todo == [due[i]] + (due[i + 1..] + todo);
        ghost var before := vv;
        var next := Settle(due[i], due[i + 1..] + todo, ids);
        if next != ids { LeftShrinks(w, before, vv); }
        ids := next;
      }
      assert due[|due|..] + todo == todo;
    }

    /** Empties the to-do list and the queue, so that FiledRight and NoneLost hold of what is left pending. */
    method ParkOrApply(changes: seq<Change>)
      requires Settling(changes, [])
      modifies this`vv, this`fr, this`pending, store
      ensures Valid() && VersionGrows(old(vv), vv) && Waiting(pending) <= Waiting(old(pending)) + ChangeSet(changes)
    {
      hide Formed, Entries, Told, Honest, FrontierIs, DownClosed, Stored, FiledRight, NoneLost, TodoRight, Applied, Waiting, ChangeSet;
      assert changes + [] == changes;
      var applied := SettleAll(changes, [], []);
      if |applied| > 0 { ApplyPending(applied, []); }
    }

    /** Takes the changes once, in lamport order. Those that do not go in are returned; none are when each one's
        deps are Ahead. */
    method FirstPass(changes: seq<Change>) returns (ok: bool, latest: seq<Id>, waiting: seq<Change>)
      requires Settling(changes, [])
      modifies this`vv, this`fr, store
      ensures ok && Settling(waiting, latest) && VersionGrows(old(vv), vv)
      ensures AllAhead(old(vv), changes) ==> waiting == [] && AllReached(vv, changes)
      ensures forall c :: c in waiting ==> c in changes
    {
      hide Formed, Entries, Told, Honest, FrontierIs, DownClosed, Stored, FiledRight, NoneLost, TodoRight, Applied, AllReached, AllAhead;
      latest, waiting := [], [];
      NoneReached(vv, changes);
      assert changes[0..] == changes && waiting + changes == changes;
      for i := 0 to |changes|
        invariant Settling(waiting + changes[i..], latest) && VersionGrows(old(vv), vv)
        invariant AllAhead(old(vv), changes) ==> waiting == [] && AllReached(vv, changes[..i])
        invariant forall c :: c in waiting ==> c in changes
      {
        assert changes[i..] == [changes[i]] + changes[i + 1..];
        assert changes[..i + 1] == changes[..i] + [changes[i]];
        ghost var was := vv;
        var wait, put;
        ok, wait, put := TryFirst(changes[i], waiting, changes[i + 1..], latest);
        AheadNext(old(vv), was, vv, changes, i);
        if wait {
          waiting := waiting + [changes[i]];
        }
        if put { latest := latest + [LastId(changes[i])]; }
      }
      assert waiting + changes[|changes|..] == waiting && changes[..|changes|] == changes;
      ok := true;
    }

    /** One change of the first pass. */
    method TryFirst(c: Change, ghost before: seq<Change>, ghost rest: seq<Change>, ghost latest: seq<Id>)
      returns (ok: bool, wait: bool, put: bool)
      requires Settling(before + ([c] + rest), latest)
      modifies this`vv, this`fr, store
      ensures ok && VersionGrows(old(vv), vv)
      ensures Settling((if wait then before + [c] else before) + rest, if put then latest + [LastId(c)] else latest)
      ensures wait ==> vv == old(vv) && !forall d :: d in c.deps ==> Reached(old(vv), d)
      ensures !wait ==> forall x :: Within(c, x) ==> Reached(vv, x)
    {
      hide Formed, Entries, Told, Honest, FrontierIs, DownClosed, Stored, FiledRight, NoneLost, TodoRight, Applied, SetLamport;
      ok := true;
      TodoAt(w, received, before, c, rest);
      TodoSame(vv, pending, received, before, c, rest);
      FromZero(w, c);
      if ChangeEnd(c) <= EndOf(vv, c.id.peer) {
        SettleDone(w, vv, pending, received, before + rest, c);
        return true, false, false;
      }
      var lam := LamportFromDeps(c.deps);
      if lam.None? {
        QueueMore(w, vv, pending, received, latest, LastId(c));
        assert before + ([c] + rest) == before + [c] + rest;
        return true, true, true;
      }
      OwnLamport(w, c, lam.value);
      OwnReached(w, store.peers, vv, c);
      SettleApplied(w, vv, pending, received, before + rest, latest, c);
      ok := PutTail(SetLamport(c, lam.value), c);
      return ok, false, true;
    }

    /** Applies decoded changes: what can be applied is, what was waiting for it is released, and the
        rest waits. */
    method ImportChanges(changes: seq<Change>) returns (ok: bool, applied: bool)
      requires Valid() && forall c :: c in changes ==> Told(w, c)
      modifies this`vv, this`fr, this`pending, this`received, store
      ensures ok && Valid() && received == old(received) + AllAtoms(changes)
      ensures VersionGrows(old(vv), vv) && (applied <==> vv != old(vv))
      ensures Waiting(pending) <= Waiting(old(pending)) + ChangeSet(changes)
      ensures AheadByLamport(old(vv), changes) ==> Waiting(pending) <= Waiting(old(pending)) && AllReached(vv, changes)
    {
      hide Formed, Entries, Told, Honest, FrontierIs, DownClosed, Stored, FiledRight, NoneLost, TodoRight, Applied, Waiting, AllReached;
      var version := vv;
      ghost var was := received;
      received := received + AllAtoms(changes);
      var sorted := SortByLamport(changes);
      SameChanges(changes, sorted);
      Receive(w, vv, pending, was, sorted, received);
      var latest, waiting;
      SortedAhead(vv, changes, sorted);
      ok, latest, waiting := FirstPass(sorted);
      ghost var first := vv;
      ApplyPending(latest, waiting);
      ParkOrApply(waiting);
      if AllAhead(old(vv), sorted) { AllReachedGrows(first, vv, sorted, changes); }
      applied := vv != version;
    }

    /** Whether the atoms of c below `known` are those the document has: the same deps and the same
        content. */
    method CheckKnownPart(c: Change, known: int) returns (ok: bool)
      requires Core() && Formed(c) && 0 <= c.id.counter && c.id.counter < known == EndOf(vv, c.id.peer)
      ensures ok <==> forall k :: c.id.counter <= k < Min(ChangeEnd(c), known) ==> SameAtom(w, c, k)
    {
      hide Formed, Honest, FrontierIs, DownClosed, Joined, Atoms, Entries;
      var p, end, ctr := c.id.peer, Min(ChangeEnd(c), known), c.id.counter;
      while ctr < end
        invariant c.id.counter <= ctr <= end
        invariant forall k :: c.id.counter <= k < ctr ==> SameAtom(w, c, k)
        decreases end - ctr
      {
        var local := store.Find(Id(p, ctr));
        ReachedIn(w, store.peers, vv, Id(p, ctr));
        if local.None? { NotReached(w, store.peers, vv, Id(p, ctr)); return true; }
        var l := local.value;
        LocalAtoms(w, store.peers, vv, l, Id(p, ctr));
        var segEnd := Min(end, ChangeEnd(l));
        var same := SameIds(DepsAt(c, ctr), DepsAt(l, ctr));
        if !same { DepsDiffer(w, c, l, ctr); return false; }
        ghost var from := ctr;
        while ctr < segEnd
          invariant from <= ctr <= segEnd
          invariant forall k :: c.id.counter <= k < ctr ==> SameAtom(w, c, k)
        {
          SegmentAtom(w, c, l, from, ctr);
          if Joined(c.ops)[ctr - c.id.counter] != Joined(l.ops)[ctr - l.id.counter] { return false; }
          ctr := ctr + 1;
        }
      }
      return true;
    }

    /** The guard of an import. Where the changes bring anything new, each atom of theirs the log has must be the
        one the log has; and none may skip counters of its peer. Honest changes pass. */
    method CheckKnown(changes: seq<Change>) returns (ok: bool)
      requires Core() && forall c :: c in changes ==> Formed(c) && c.id.counter >= 0
      ensures ok <==> (News(vv, changes) ==> AllKnownRight(w, vv, changes)) && !Skips(vv, changes)
      ensures (forall c :: c in changes ==> Told(w, c)) ==> ok
    {
      hide Formed, Told, Honest, FrontierIs, DownClosed, Stored, Entries, Skips, SameAtom, Applied;
      StoredNat(w, store.peers, vv);
      if forall c :: c in changes ==> Told(w, c) {
        ToldKnownRight(w, vv, changes);
        ToldNeverSkips(w, vv, changes);
      }
      var news := exists i :: 0 <= i < |changes| && ChangeEnd(changes[i]) > EndOf(vv, changes[i].id.peer);
      if news {
        var same := AllSame(changes);
        if !same { return false; }
      }
      var skips := SkipsCounters(changes);
      return !skips;
    }

    /** Whether every change says of known atoms what the log says. */
    method AllSame(changes: seq<Change>) returns (ok: bool)
      requires Core() && forall c :: c in changes ==> Formed(c) && c.id.counter >= 0
      ensures ok <==> AllKnownRight(w, vv, changes)
    {
      hide Formed, Told, Honest, FrontierIs, DownClosed, Stored, Entries, SameAtom, KnownRight;
      for i := 0 to |changes|
        invariant forall j :: 0 <= j < i ==> KnownRight(w, vv, changes[j])
      {
        var c := changes[i];
        assert c in changes;
        var known := EndOf(vv, c.id.peer);
        NothingKnown(w, vv, c);
        if c.id.counter < known {
          var same := CheckKnownPart(c, known);
          KnownIs(w, vv, c);
          if !same { return false; }
        }
      }
      return true;
    }

    /** Replays the first pass of an import on counter ends alone. */
    method SkipsCounters(changes: seq<Change>) returns (skips: bool)
      ensures skips <==> Skips(vv, changes)
    {
      hide Joined, Counted, Skips, SkipsAt, Count;
      var ends: map<nat, int> := vv;
      NoneCounted(vv, changes);
      for i := 0 to |changes|
        invariant ends == Counted(vv, changes[..i])
        invariant forall j :: 0 <= j < i ==> !SkipsAt(Counted(vv, changes[..j]), changes[j])
      {
        CountNext(vv, changes, i);
        var c := changes[i];
        var end := EndOf(ends, c.id.peer);
        if ChangeEnd(c) > end {
          var ready := forall k :: 0 <= k < |c.deps| ==> c.deps[k].counter < EndOf(ends, c.deps[k].peer);
          if ready {
            if c.id.counter > end {
              CountIs(ends, c);
              SomeSkips(vv, changes, i);
              return true;
            }
            CountIs(ends, c);
            ends := ends[c.id.peer := ChangeEnd(c)];
          } else {
            CountIs(ends, c);
          }
        } else {
          CountIs(ends, c);
        }
      }
      NoneSkips(vv, changes);
      return false;
    }

    /** Imports a blob's changes: sorted, checked, applied. */
    method Import(changes: seq<Change>) returns (ok: bool)
      requires Valid() && forall c :: c in changes ==> Told(w, c)
      modifies this`vv, this`fr, this`pending, this`received, store
      ensures ok && Valid() && received == old(received) + AllAtoms(changes)
      ensures VersionGrows(old(vv), vv)
      ensures Waiting(pending) <= Waiting(old(pending)) + ChangeSet(changes)
      ensures AheadByLamport(old(vv), changes) ==> Waiting(pending) <= Waiting(old(pending)) && AllReached(vv, changes)
    {
      hide Formed, Told, Honest, FrontierIs, Stored, Entries, DownClosed, Applied, FiledRight, NoneLost, TodoRight, AheadByLamport, AllAtoms, Waiting, AllReached;
      var sorted := SortByLamport(changes);
      SameChanges(changes, sorted);
      SameAhead(vv, changes, sorted);
      ToldStarts(w, sorted);
      ok := CheckKnown(sorted);
      if !ok { return false; }
      var applied;
      ok, applied := ImportChanges(sorted);
      ReorderReached(vv, sorted, changes);
    }

    /** Where a local change starts: the next counter, a lamport past every applied one, and deps on
        exactly the frontiers. */
    method Begin(peer: nat) returns (start: int, lamport: int, deps: seq<Id>)
      requires Core()
      ensures start == EndOf(vv, peer)
      ensures DistinctIds(deps) && forall x :: x in deps <==> Maximal(w.h, Applied(w, vv), x)
      ensures PastDeps(w.h, deps, lamport)
      ensures forall x :: x in Applied(w, vv) ==> w.h[x].lamport < lamport
    {
      hide Honest, Stored, DownClosed, Maximal, Past, Applied;
      start := EndOf(vv, peer);
      deps := FrontierIds(fr);
      DepsApplied(w, store.peers, vv, deps);
      var l := LamportFromDeps(deps);
      lamport := l.value;
      AllBelow(w, vv, deps, lamport);
    }

    /** Adds a committed local change, made on the frontiers. */
    method Commit(c: Change)
      requires Valid() && Told(w, c) && c.id.counter == EndOf(vv, c.id.peer)
      requires forall x :: x in c.deps <==> Maximal(w.h, Applied(w, vv), x)
      requires forall m, d :: Filed(pending, m, d) ==> !Within(c, m)
      modifies this`vv, this`fr, this`received, store
      ensures Valid() && vv == old(vv)[c.id.peer := ChangeEnd(c)] && received == old(received) + AtomsOf(c)
    {
      hide Formed, Entries, Told, Honest, FrontierIs, DownClosed, Stored, Ready, TakenBy, Grown, FiledRight, NoneLost, Maximal, Past;
      DepsApplied(w, store.peers, vv, c.deps);
      AppendsReady(w, store.peers, vv, c);
      AppendsTaken(w, store.peers, vv, c);
      ghost var was, s := store.peers, Applied(w, vv);
      OnlyLastLeft(w, s, c, fr);
      ClosedGrows(w, s, c);
      StoredEnds(w, was, vv, c.id.peer);
      AppliedGrows(w, vv, c);
      CommitFiled(w, vv, pending, received, c);
      vv := vv[c.id.peer := ChangeEnd(c)];
      fr := map[c.id.peer := LastId(c).counter];
      received := received + AtomsOf(c);
      store.Insert(c, true);
      StoredGrows(w, was, store.peers, old(vv), c);
    }
  }
}
