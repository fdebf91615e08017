/** An open-addressing hash table that behaves as a finite map in every state it reaches. */
module FxTables {
  import opened Common
  import opened Triangle
  import opened FxProbe
  import opened FxState
  import opened FxMoves

  class FxTable {
    var ctrl: array<int>
    var keys: array<nat>
    var vals: array<int>
    var items: int
    var growthLeft: int
    ghost var content: Content

    /** Unallocated, or the bytes, keys and values hold exactly the content, with room counted. */
    ghost predicate Valid()
      reads this, ctrl, keys, vals
    {
      ctrl != vals && Whole(ctrl[..], keys[..], vals[..], content, items, growthLeft)
    }

    /** A table as it starts: no bytes at all. */
    constructor ()
      ensures Valid() && content == map[] && fresh(ctrl) && fresh(keys) && fresh(vals)
    {
      ctrl, keys, vals := new int[0], new nat[0], new int[0];
      items, growthLeft, content := 0, 0, map[];
    }

    /** A table with room for `capacity` entries, unallocated for none. */
    constructor WithCapacity(capacity: int)
      ensures Valid() && content == map[] && fresh(ctrl) && fresh(keys) && fresh(vals)
      ensures capacity > 0 ==> growthLeft >= capacity
    {
      items, growthLeft, content := 0, 0, map[];
      if capacity <= 0 {
        ctrl, keys, vals := new int[0], new nat[0], new int[0];
      } else {
        var n := BucketsFor(capacity);
        RoomFor(capacity);
        var c := new int[n + GROUP](_ => EMPTY);
        var k := new nat[n](_ => 0);
        var v := new int[n](_ => 0);
        ctrl, keys, vals := c, k, v;
        growthLeft := CapacityOf(n - 1);
        EmptySound(c[..], k[..], v[..]);
      }
    }

    /** The bucket in the group at pos that holds the key, or -1. */
    method MatchIn(pos: int, peer: nat) returns (r: int)
      requires ctrl.Length > 0 && Valid() && 0 <= pos < keys.Length
      ensures r == -1 ==> NotIn(ctrl[..], keys[..], pos, peer)
      ensures r != -1 ==> 0 <= r < keys.Length && Full(ctrl[..][r]) && keys[..][r] == peer
    {
      hide Sound, Room, FxHash, H2, Full, NotIn;
      SoundShape(ctrl[..], keys[..], vals[..], content);
      var n, c := keys.Length, H2(FxHash(peer));
      for i := 0 to GROUP
        invariant forall p :: pos <= p < pos + i ==> Unmatched(ctrl[..], keys[..], p, peer)
      {
        var b := Bucket(pos + i, n);
        ByteIs(ctrl[..], n, pos + i);
        if ctrl[pos + i] == c && Full(ctrl[b]) && keys[b] == peer { return b; }
        ByteUnmatched(ctrl[..], keys[..], vals[..], content, pos + i, peer);
      }
      GroupUnmatched(ctrl[..], keys[..], vals[..], content, pos, peer);
      return -1;
    }

    /** Whether a byte of the group is empty. */
    method EmptyIn(pos: int) returns (e: bool)
      requires ctrl.Length > 0 && Valid() && 0 <= pos < keys.Length
      ensures pos + GROUP <= |ctrl[..]| && (e <==> HasEmpty(ctrl[..], pos))
    {
      hide Sound, Room;
      SoundShape(ctrl[..], keys[..], vals[..], content);
      for i := 0 to GROUP
        invariant forall p :: pos <= p < pos + i ==> ctrl[..][p] != EMPTY
      {
        if ctrl[pos + i] == EMPTY {
          assert ctrl[..][pos + i] == EMPTY;
          return true;
        }
      }
      return false;
    }

    /** The bucket holding the key, or -1 exactly when the table does not hold it. */
    method Find(peer: nat) returns (r: int)
      requires Valid()
      ensures r == -1 <==> peer !in content
      ensures r != -1 ==> ctrl.Length > 0 && 0 <= r < keys.Length == vals.Length && Full(ctrl[..][r]) && keys[..][r] == peer && vals[..][r] == content[peer]
    {
      hide Sound, Room, FxHash, HasEmpty, NotIn, WinPos, Full;
      if ctrl.Length == 0 { return -1; }
      SoundShape(ctrl[..], keys[..], vals[..], content);
      var n, h := keys.Length, FxHash(peer);
      WinNext(h, n, 0);
      var pos, stride := h % n, 0;
      ghost var j: nat := 0;
      RoomLeft(ctrl[..], n, items, growthLeft);
      while true
        invariant pos == WinPos(h, n, j) && stride == GROUP * j && j < Probes(n)
        invariant forall k: nat :: k < j ==> !HasEmpty(ctrl[..], WinPos(h, n, k)) && NotIn(ctrl[..], keys[..], WinPos(h, n, k), peer)
        decreases Probes(n) - j
      {
        WinRange(h, n, j);
        r := MatchIn(pos, peer);
        if r != -1 {
          KeyKnown(ctrl[..], keys[..], vals[..], content, r);
          return;
        }
        var stop := EmptyIn(pos);
        if stop {
          FoundNone(ctrl[..], keys[..], vals[..], content, peer, j);
          return;
        }
        WinNext(h, n, j);
        stride := stride + GROUP;
        pos := (pos + stride) % n;
        j := j + 1;
        ProbeEnds(ctrl[..], n, h, j);
      }
    }

    /** A peer's counter. */
    method Get(peer: nat) returns (r: Option<int>)
      requires Valid()
      ensures r == if peer in content then Some(content[peer]) else None
    {
      var b := Find(peer);
      if b >= 0 { return Some(vals[b]); }
      return None;
    }

    /** Brings the control bytes from `ctrl` to SetCtrl(ctrl, n, b, c). */
    method PutCtrl(b: nat, c: int)
      requires b < keys.Length && ctrl.Length == keys.Length + GROUP
      modifies ctrl
      ensures ctrl[..] == SetCtrl(old(ctrl[..]), keys.Length, b, c)
    {
      var n := keys.Length;
      ctrl[b] := c;
      ctrl[(b - GROUP) % n + GROUP] := c;
    }

    /** The first free byte of the group at pos, or -1. */
    method FreeIn(pos: int) returns (p: int)
      requires keys.Length > 0 && ctrl.Length == keys.Length + GROUP && 0 <= pos < keys.Length
      ensures p == -1 <==> !HasFree(ctrl[..], pos)
      ensures p != -1 ==> pos <= p < pos + GROUP && !Full(ctrl[..][p]) && forall q :: pos <= q < p ==> Full(ctrl[..][q])
    {
      for i := 0 to GROUP
        invariant forall q :: pos <= q < pos + i ==> Full(ctrl[..][q])
      {
        if !Full(ctrl[pos + i]) {
          assert !Full(ctrl[..][pos + i]);
          return pos + i;
        }
      }
      return -1;
    }

    /** A bucket that is not full and that a probe for h settles at. With four buckets every bucket is such a one,
        so any free bucket will do where a mirrored byte misleads. */
    method InsertSlot(h: nat) returns (b: nat)
      requires keys.Length > 0 && ctrl.Length == keys.Length + GROUP && Shape(ctrl[..], keys.Length)
      requires Fulls(ctrl[..], keys.Length) < keys.Length
      ensures b < keys.Length && !Full(ctrl[..][b]) && Settled(ctrl[..], keys.Length, h, b)
    {
      hide Shape, HasFree, WinPos, Full, Settled;
      var n := keys.Length;
      WinNext(h, n, 0);
      var pos, stride := h % n, 0;
      ghost var j: nat := 0;
      ProbeFrees(ctrl[..], n, h, 0);
      while true
        invariant pos == WinPos(h, n, j) && stride == GROUP * j && j < Probes(n)
        invariant forall k: nat :: k < j ==> !HasFree(ctrl[..], WinPos(h, n, k))
        decreases Probes(n) - j
      {
        WinRange(h, n, j);
        var p := FreeIn(pos);
        if p != -1 {
          ByteIs(ctrl[..], n, p);
          var at := Bucket(p, n);
          if Full(ctrl[at]) {
            SmallTable(ctrl[..], n, p);
            var q := FreeIn(0);
            FirstFree(ctrl[..], n, q);
            SmallSettled(ctrl[..], n, h, q);
            return q;
          }
          SlotSettled(ctrl[..], n, h, j, p);
          return at;
        }
        WinNext(h, n, j);
        stride := stride + GROUP;
        pos := (pos + stride) % n;
        j := j + 1;
        ProbeFrees(ctrl[..], n, h, j);
      }
    }

    /** Puts a new entry in. */
    method PutNew(peer: nat, v: int)
      requires Valid() && ctrl.Length > 0 && peer !in content && growthLeft >= 1
      modifies this`items, this`growthLeft, this`content, ctrl, keys, vals
      ensures Valid() && content == old(content)[peer := v]
    {
      hide Sound, Room, FxHash, H2, Full, Settled;
      ghost var c0, k0, v0, n := ctrl[..], keys[..], vals[..], keys.Length;
      SoundShape(c0, k0, v0, content);
      RoomLeft(c0, n, items, growthLeft);
      var h := FxHash(peer);
      var b := InsertSlot(h);
      var was := ctrl[b];
      PutRoom(c0, n, items, growthLeft, b, H2(h), peer);
      PutSound(c0, k0, v0, content, b, peer, v);
      if ctrl[b] == EMPTY { growthLeft := growthLeft - 1; }
      PutCtrl(b, H2(h));
      keys[b], vals[b] := peer, v;
      items := items + 1;
      content := content[peer := v];
    }

    /** Sets a peer's counter to the higher of it and the one there. */
    method InsertMax(id: Id)
      requires Valid()
      modifies this, ctrl, keys, vals
      ensures Valid() && content == old(content)[id.peer := if id.peer in old(content) then Max(old(content)[id.peer], id.counter) else id.counter]
      ensures fresh(ctrl) || ctrl == old(ctrl)
      ensures fresh(keys) || keys == old(keys)
      ensures fresh(vals) || vals == old(vals)
    {
      hide Sound, Room, Full;
      var b := Find(id.peer);
      if b >= 0 {
        PutValue(b, Max(vals[b], id.counter));
        return;
      }
      if growthLeft < 1 { ReserveRehash(); }
      PutNew(id.peer, id.counter);
    }

    /** Sets a peer's counter; room is made before the key is looked up. */
    method InsertAlways(id: Id)
      requires Valid()
      modifies this, ctrl, keys, vals
      ensures Valid() && content == old(content)[id.peer := id.counter]
      ensures fresh(ctrl) || ctrl == old(ctrl)
      ensures fresh(keys) || keys == old(keys)
      ensures fresh(vals) || vals == old(vals)
    {
      hide Sound, Room, Full;
      if growthLeft < 1 { ReserveRehash(); }
      var b := Find(id.peer);
      if b >= 0 {
        PutValue(b, id.counter);
        return;
      }
      PutNew(id.peer, id.counter);
    }

    method PutValue(b: nat, v: int)
      requires Valid() && ctrl.Length > 0 && b < keys.Length && Full(ctrl[..][b])
      modifies this`content, vals
      ensures Valid() && content == old(content)[keys[..][b] := v]
    {
      hide Sound, Room, Full;
      SoundShape(ctrl[..], keys[..], vals[..], content);
      UpdateSound(ctrl[..], keys[..], vals[..], content, b, v);
      vals[b] := v;
      content := content[keys[b] := v];
    }

    /** How many bytes at the end of the group at pos are not empty. */
    method Lead(pos: nat) returns (lead: nat)
      requires pos < keys.Length && ctrl.Length == keys.Length + GROUP
      ensures lead <= GROUP && NoneEmpty(ctrl[..], pos + GROUP - lead, pos + GROUP)
      ensures lead < GROUP ==> ctrl[..][pos + GROUP - 1 - lead] == EMPTY
    {
      lead := 0;
      while lead < GROUP && ctrl[pos + GROUP - 1 - lead] != EMPTY
        invariant lead <= GROUP && NoneEmpty(ctrl[..], pos + GROUP - lead, pos + GROUP)
      {
        lead := lead + 1;
      }
    }

    /** How many bytes at the start of the group at pos are not empty. */
    method Trail(pos: nat) returns (trail: nat)
      requires pos < keys.Length && ctrl.Length == keys.Length + GROUP
      ensures trail <= GROUP && NoneEmpty(ctrl[..], pos, pos + trail)
      ensures trail < GROUP ==> ctrl[..][pos + trail] == EMPTY
    {
      trail := 0;
      while trail < GROUP && ctrl[pos + trail] != EMPTY
        invariant trail <= GROUP && NoneEmpty(ctrl[..], pos, pos + trail)
      {
        trail := trail + 1;
      }
    }

    /** The entry goes if its counter is the one given: its bucket turns empty unless that could cut
        a probe short, and then keeps a tombstone. */
    method Remove(id: Id) returns (gone: bool)
      requires Valid()
      modifies this`items, this`growthLeft, this`content, ctrl
      ensures Valid() && (gone <==> id.peer in old(content) && old(content)[id.peer] == id.counter)
      ensures content == if gone then old(content) - {id.peer} else old(content)
    {
      hide Sound, Room, Full, SetCtrl, Shape, HasEmpty, Around0;
      var b := Find(id.peer);
      if b < 0 || vals[b] != id.counter { return false; }
      ghost var c0, n := ctrl[..], keys.Length;
      SoundShape(c0, keys[..], vals[..], content);
      var before := (b - GROUP) % keys.Length;
      var lead := Lead(before);
      var trail := Trail(b);
      AroundIs(c0, n, b, before, lead, trail);
      var c := EMPTY;
      if lead + trail >= GROUP {
        c := DELETED;
        TombKeeps(c0, n, b);
      } else {
        EmptyKeeps(c0, n, b, lead, trail);
      }
      RemoveRoom(c0, n, items, growthLeft, b, c);
      RemoveSound(c0, keys[..], vals[..], content, b, c);
      if c == EMPTY { growthLeft := growthLeft + 1; }
      PutCtrl(b, c);
      items := items - 1;
      content := content - {id.peer};
      return true;
    }

    /** The content loses the key. */
    method RemoveKey(peer: nat)
      requires Valid()
      modifies this`items, this`growthLeft, this`content, ctrl
      ensures Valid() && content == old(content) - {peer}
    {
      hide Sound, Room, Full;
      var b := Find(peer);
      if b >= 0 {
        var gone := Remove(Id(peer, vals[b]));
      }
    }

    /** Leaves the content as it was and `growthLeft` at least one, by rehashing in place or by moving to a new
        table. */
    method ReserveRehash()
      requires Valid() && growthLeft < 1
      modifies this, ctrl, keys, vals
      ensures Valid() && content == old(content) && growthLeft >= 1 && ctrl.Length > 0
      ensures fresh(ctrl) || ctrl == old(ctrl)
      ensures fresh(keys) || keys == old(keys)
      ensures fresh(vals) || vals == old(vals)
    {
      hide Sound, Full;
      var newItems := items + 1;
      var n := keys.Length;
      var full := CapacityOf(if n == 0 then 0 else n - 1);
      if ctrl.Length != 0 {
        SoundShape(ctrl[..], keys[..], vals[..], content);
        CapacityBelow(n);
      }
      if ctrl.Length != 0 && newItems <= full / 2 {
        RehashInPlace();
        return;
      }
      Resize(Max(newItems, full + 1));
    }

    /** A new table, the entries put in in bucket order. */
    method Resize(capacity: int)
      requires Valid() && capacity > items
      modifies this, ctrl, keys, vals
      ensures Valid() && content == old(content) && growthLeft >= 1 && ctrl.Length > 0
      ensures fresh(ctrl) && fresh(keys) && fresh(vals)
    {
      hide Sound, Room, Full, PartOf;
      NoNegative(ctrl[..], keys[..], vals[..], content, items, growthLeft);
      OldStarts(ctrl[..], keys[..], vals[..], content, items, growthLeft);
      var n := BucketsFor(capacity);
      RoomFor(capacity);
      var oldCtrl, oldKeys, oldVals := ctrl, keys, vals;
      var c := new int[n + GROUP](_ => EMPTY);
      var k := new nat[n](_ => 0);
      var v := new int[n](_ => 0);
      ctrl, keys, vals := c, k, v;
      EmptySound(c[..], k[..], v[..]);
      CopyAll(oldCtrl, oldKeys, oldVals, content);
      growthLeft := CapacityOf(n - 1) - items;
      NewRoom(ctrl[..], n, items, growthLeft);
    }

    /** Puts the entries of the old table into the new one, in bucket order. */
    method CopyAll(oldCtrl: array<int>, oldKeys: array<nat>, oldVals: array<int>, ghost old0: Content)
      requires oldCtrl != ctrl && oldCtrl != vals && oldKeys != keys && oldVals != ctrl && oldVals != vals
      requires ctrl != vals && ctrl.Length == keys.Length + GROUP && vals.Length == keys.Length
      requires oldKeys.Length == oldVals.Length <= oldCtrl.Length && Older(oldCtrl[..], oldKeys[..], oldVals[..], old0)
      requires Sound(ctrl[..], keys[..], vals[..], map[]) && Tombs(ctrl[..], keys.Length) == 0 && Fulls(ctrl[..], keys.Length) == 0
      requires Fulls(oldCtrl[..], oldKeys.Length) < keys.Length
      modifies ctrl, keys, vals
      ensures Sound(ctrl[..], keys[..], vals[..], old0)
      ensures Tombs(ctrl[..], keys.Length) == 0 && Fulls(ctrl[..], keys.Length) == Fulls(oldCtrl[..], oldKeys.Length)
    {
      hide Sound, Full, PartOf, Older;
      ghost var c0, k0, v0 := oldCtrl[..], oldKeys[..], oldVals[..];
      ghost var done: Content := map[];
      NoPart(c0, k0, v0);
      for b := 0 to oldKeys.Length
        invariant oldCtrl[..] == c0 && oldKeys[..] == k0 && oldVals[..] == v0
        invariant Sound(ctrl[..], keys[..], vals[..], done) && done == PartOf(c0, k0, v0, b)
        invariant Tombs(ctrl[..], keys.Length) == 0 && Fulls(ctrl[..], keys.Length) == Fulls(c0, b)
      {
        PartNext(c0, k0, v0, old0, b);
        FullsBelow(c0, b, |k0|);
        if Full(oldCtrl[b]) {
          CopyIn(oldKeys[b], oldVals[b], done);
          done := done[oldKeys[b] := oldVals[b]];
        }
      }
      PartWhole(c0, k0, v0, old0);
    }

    /** Puts an entry of the old table into the new one. */
    method CopyIn(peer: nat, v: int, ghost done: Content)
      requires ctrl != vals && ctrl.Length == keys.Length + GROUP && keys.Length > 0 && vals.Length == keys.Length
      requires Sound(ctrl[..], keys[..], vals[..], done) && peer !in done
      requires Tombs(ctrl[..], keys.Length) == 0 && Fulls(ctrl[..], keys.Length) < keys.Length
      modifies ctrl, keys, vals
      ensures Sound(ctrl[..], keys[..], vals[..], done[peer := v])
      ensures Tombs(ctrl[..], keys.Length) == 0 && Fulls(ctrl[..], keys.Length) == old(Fulls(ctrl[..], keys.Length)) + 1
    {
      hide Sound, FxHash, H2, Full, Settled, SetCtrl;
      SoundShape(ctrl[..], keys[..], vals[..], done);
      ghost var c0, k0, v0 := ctrl[..], keys[..], vals[..];
      var h := FxHash(peer);
      var b := InsertSlot(h);
      PutSound(c0, k0, v0, done, b, peer, v);
      CopyCounts(c0, keys.Length, b, peer);
      PutCtrl(b, H2(h));
      keys[b], vals[b] := peer, v;
    }

    /** Keeps the content while no tombstone is left. In between, Moving holds: a deleted byte marks an entry not
        settled yet, a full one an entry that Settled. */
    method RehashInPlace()
      requires Valid() && keys.Length >= GROUP && 2 * (items + 1) <= CapacityOf(keys.Length - 1)
      modifies this`growthLeft, ctrl, keys, vals
      ensures Valid() && content == old(content) && growthLeft >= 1 && ctrl.Length > 0
    {
      hide Sound, Full, Moving, Shape;
      ghost var c0, k0, v0 := ctrl[..], keys[..], vals[..];
      SoundShape(c0, k0, v0, content);
      var n := keys.Length;
      MarkAll(content);
      MoveStarts(c0, ctrl[..], k0, v0, content);
      StartCounts(c0, ctrl[..], n);
      for i := 0 to n
        invariant Moving(ctrl[..], keys[..], vals[..], content)
        invariant Fulls(ctrl[..], n) + Tombs(ctrl[..], n) == items
        invariant forall b :: 0 <= b < i ==> ctrl[..][b] != DELETED
        invariant |ctrl[..]| == n + GROUP
      {
        MoveFrom(i);
      }
      MovedSound(ctrl[..], keys[..], vals[..], content);
      growthLeft := CapacityOf(n - 1) - items;
      NoTombs(ctrl[..], n);
    }

    /** Marks every entry as still to move, and frees the tombstones. */
    method MarkAll(ghost content0: Content)
      requires ctrl != vals && Sound(ctrl[..], keys[..], vals[..], content0) && keys.Length >= GROUP
      modifies ctrl
      ensures Shape(ctrl[..], keys.Length)
      ensures |old(ctrl[..])| == ctrl.Length
      ensures forall b :: 0 <= b < keys.Length ==> ctrl[..][b] == if Full(old(ctrl[..])[b]) then DELETED else EMPTY
    {
      hide Sound;
      SoundShape(ctrl[..], keys[..], vals[..], content0);
      ghost var c0 := ctrl[..];
      var n := keys.Length;
      for i := 0 to n
        invariant forall b :: 0 <= b < i ==> ctrl[b] == if Full(c0[b]) then DELETED else EMPTY
        invariant forall b :: i <= b < n ==> ctrl[b] == c0[b]
      {
        ctrl[i] := if Full(ctrl[i]) then DELETED else EMPTY;
      }
      ghost var marked := ctrl[..];
      for i := 0 to n
        invariant forall b :: 0 <= b < n ==> ctrl[b] == marked[b]
        invariant forall p :: n <= p < n + GROUP && p - n < i ==> ctrl[p] == ctrl[p - n]
      {
        CopyPlace(n, i);
        ctrl[(i - GROUP) % n + GROUP] := ctrl[i];
      }
      MarkedShape(ctrl[..], n);
    }

    /** Moves the entry at i, and those it trades places with, until i is free or settled. */
    method MoveFrom(i: nat)
      requires ctrl != vals && Moving(ctrl[..], keys[..], vals[..], content) && i < keys.Length && keys.Length >= GROUP
      requires ctrl.Length == keys.Length + GROUP
      requires Fulls(ctrl[..], keys.Length) + Tombs(ctrl[..], keys.Length) < keys.Length
      modifies ctrl, keys, vals
      ensures Moving(ctrl[..], keys[..], vals[..], content)
      ensures Fulls(ctrl[..], keys.Length) + Tombs(ctrl[..], keys.Length) == old(Fulls(ctrl[..], keys.Length) + Tombs(ctrl[..], keys.Length))
      ensures ctrl[..][i] != DELETED && |old(ctrl[..])| == ctrl.Length
      ensures forall b :: 0 <= b < keys.Length && ctrl[..][b] == DELETED ==> old(ctrl[..])[b] == DELETED
    {
      hide Moving;
      ghost var c0 := ctrl[..];
      while ctrl[i] == DELETED
        invariant Moving(ctrl[..], keys[..], vals[..], content) && |ctrl[..]| == |c0|
        invariant Fulls(ctrl[..], keys.Length) + Tombs(ctrl[..], keys.Length) == old(Fulls(ctrl[..], keys.Length) + Tombs(ctrl[..], keys.Length))
        invariant forall b :: 0 <= b < keys.Length && ctrl[..][b] == DELETED ==> c0[b] == DELETED
        decreases Tombs(ctrl[..], keys.Length)
      {
        MoveOne(i);
      }
    }

    /** One turn: the entry at i stays, goes to an empty bucket, or trades places. */
    method MoveOne(i: nat)
      requires ctrl != vals && Moving(ctrl[..], keys[..], vals[..], content) && i < keys.Length && keys.Length >= GROUP
      requires ctrl.Length == keys.Length + GROUP && ctrl[..][i] == DELETED
      requires Fulls(ctrl[..], keys.Length) + Tombs(ctrl[..], keys.Length) < keys.Length
      modifies ctrl, keys, vals
      ensures Moving(ctrl[..], keys[..], vals[..], content) && |old(ctrl[..])| == ctrl.Length
      ensures Fulls(ctrl[..], keys.Length) + Tombs(ctrl[..], keys.Length) == old(Fulls(ctrl[..], keys.Length) + Tombs(ctrl[..], keys.Length))
      ensures Tombs(ctrl[..], keys.Length) < old(Tombs(ctrl[..], keys.Length))
      ensures forall b :: 0 <= b < keys.Length && ctrl[..][b] == DELETED ==> old(ctrl[..])[b] == DELETED
    {
      hide Moving, Shape, Settled, FxHash, H2, SetCtrl, Block;
      var n := keys.Length;
      ghost var c0, k0, v0 := ctrl[..], keys[..], vals[..];
      MovingShape(c0, k0, v0, content);
      ShapePower(c0, n);
      var h := FxHash(keys[i]);
      HashByte(keys[i]);
      var m := InsertSlot(h);
      ByteKind(c0, n, m);
      if Block(i, h % n, n) == Block(m, h % n, n) {
        SettledSame(c0, n, h, m, i);
        Stays(c0, k0, v0, content, i);
        StayCounts(c0, n, i, H2(h));
        PutCtrl(i, H2(h));
        return;
      }
      var prev := ctrl[m];
      assert i != m;
      if prev == EMPTY {
        MovesOut(c0, k0, v0, content, i, m);
        OutCounts(c0, n, i, m, H2(h));
      } else {
        Trades(c0, k0, v0, content, i, m);
        StayCounts(c0, n, m, H2(h));
      }
      PutCtrl(m, H2(h));
      if prev == EMPTY {
        PutCtrl(i, EMPTY);
        keys[m], vals[m] := keys[i], vals[i];
      } else {
        keys[m], keys[i] := keys[i], keys[m];
        vals[m], vals[i] := vals[i], vals[m];
      }
    }

    /** The entries in bucket order. */
    method Ids() returns (ids: seq<Id>)
      requires Valid()
      ensures forall x :: x in ids <==> x.peer in content && content[x.peer] == x.counter
      ensures forall a, b :: 0 <= a < b < |ids| ==> ids[a].peer != ids[b].peer
    {
      hide Sound, Room, Full;
      ids := [];
      if ctrl.Length == 0 { return; }
      SoundShape(ctrl[..], keys[..], vals[..], content);
      for b := 0 to keys.Length
        invariant forall x :: x in ids <==> Listed(ctrl[..], keys[..], vals[..], b, x)
        invariant forall c, d :: 0 <= c < d < |ids| ==> ids[c].peer != ids[d].peer
      {
        ListNext(ctrl[..], keys[..], vals[..], content, b, ids);
        if Full(ctrl[b]) { ids := ids + [Id(keys[b], vals[b])]; }
      }
      forall x: Id ensures x in ids <==> x.peer in content && content[x.peer] == x.counter {
        ListAll(ctrl[..], keys[..], vals[..], content, x);
      }
    }
  }

  /** No key of this byte's bucket matches. */
  ghost predicate Unmatched(ctrl: seq<int>, keys: seq<nat>, p: int, peer: nat)
    requires |keys| > 0 && |ctrl| == |keys| + GROUP && 0 <= p < |ctrl|
  {
    ctrl[p] == ctrl[Bucket(p, |keys|)] && Full(ctrl[p]) ==> keys[Bucket(p, |keys|)] != peer
  }

  lemma {:induction false} ByteUnmatched(ctrl: seq<int>, keys: seq<nat>, vals: seq<int>, content: Content, p: int, peer: nat)
    requires Sound(ctrl, keys, vals, content) && |keys| > 0 && |ctrl| == |keys| + GROUP && 0 <= p < |ctrl|
    requires !(ctrl[p] == H2(FxHash(peer)) && Full(ctrl[Bucket(p, |keys|)]) && keys[Bucket(p, |keys|)] == peer)
    ensures Unmatched(ctrl, keys, p, peer)
  {
    hide Sound, FxHash, H2, Full;
    var b := Bucket(p, |keys|);
    if ctrl[p] == ctrl[b] && Full(ctrl[p]) && keys[b] == peer { KeyKnown(ctrl, keys, vals, content, b); }
  }

  lemma {:induction false} GroupUnmatched(ctrl: seq<int>, keys: seq<nat>, vals: seq<int>, content: Content, pos: int, peer: nat)
    requires Sound(ctrl, keys, vals, content) && |keys| > 0 && |ctrl| == |keys| + GROUP && 0 <= pos < |keys|
    requires forall p :: pos <= p < pos + GROUP ==> Unmatched(ctrl, keys, p, peer)
    ensures NotIn(ctrl, keys, pos, peer)
  {
    hide Sound, InGroup, Full;
    SoundShape(ctrl, keys, vals, content);
    forall b | 0 <= b < |keys| && InGroup(pos, |keys|, b) && Full(ctrl[b]) ensures keys[b] != peer {
      var p := GroupShows(ctrl, |keys|, pos, b);
      assert Unmatched(ctrl, keys, p, peer);
    }
  }

  /** An empty bucket always exists. */
  lemma {:induction false} RoomLeft(ctrl: seq<int>, n: int, items: int, growthLeft: int)
    requires Shape(ctrl, n) && Room(ctrl, n, items, growthLeft)
    ensures Fulls(ctrl, n) + Tombs(ctrl, n) < n && Probes(n) > 0
  {
    CapacityBelow(n);
  }

  // ----- slots -----

  lemma {:induction false} SlotSettled(ctrl: seq<int>, n: int, h: nat, j: nat, p: int)
    requires n > 0 && |ctrl| == n + GROUP && WinPos(h, n, j) <= p < WinPos(h, n, j) + GROUP
    requires forall k: nat :: k < j ==> !HasFree(ctrl, WinPos(h, n, k))
    ensures Settled(ctrl, n, h, Bucket(p, n))
  {
    hide HasFree, WinPos;
    assert InWin(h, n, j, Bucket(p, n));
  }

  /** A free byte whose bucket is full gives the table away as one of four buckets. */
  lemma {:induction false} SmallTable(ctrl: seq<int>, n: int, p: int)
    requires Shape(ctrl, n) && 0 <= p < n + GROUP && !Full(ctrl[p]) && Full(ctrl[Bucket(p, n)])
    ensures n == 4
  {
    ByteIs(ctrl, n, p);
  }

  lemma {:induction false} FirstFree(ctrl: seq<int>, n: int, q: int)
    requires Shape(ctrl, n) && n == 4 && Fulls(ctrl, n) < n
    requires q == -1 <==> !HasFree(ctrl, 0)
    requires q != -1 ==> 0 <= q < GROUP && !Full(ctrl[q]) && forall k :: 0 <= k < q ==> Full(ctrl[k])
    ensures 0 <= q < 4
  {
    var b := SomeFree(ctrl, n);
  }

  lemma {:induction false} SmallSettled(ctrl: seq<int>, n: int, h: nat, b: int)
    requires Shape(ctrl, n) && n == 4 && 0 <= b < 4
    ensures Settled(ctrl, n, h, b)
  {
    hide HasFree, WinPos, InGroup;
    var j := Covered(h, n, b);
  }

  lemma {:induction false} PutRoom(ctrl: seq<int>, n: nat, items: int, growthLeft: int, b: nat, c: int, peer: nat)
    requires Shape(ctrl, n) && Room(ctrl, n, items, growthLeft) && growthLeft >= 1 && b < n && !Full(ctrl[b]) && c == H2(FxHash(peer))
    ensures Room(SetCtrl(ctrl, n, b, c), n, items + 1, if ctrl[b] == EMPTY then growthLeft - 1 else growthLeft)
  {
    hide FxHash, H2, SetCtrl;
    HashByte(peer);
    SetShape(ctrl, n, b, c);
    CountSet(ctrl, SetCtrl(ctrl, n, b, c), n, b);
  }

  // ----- removing -----

  /** The bucket k places on is empty. */
  ghost predicate Around0(ctrl: seq<int>, n: int, k: int)
    requires n > 0 && |ctrl| >= n
  {
    ctrl[k % n] == EMPTY
  }

  ghost predicate NoneEmpty(ctrl: seq<int>, lo: int, hi: int)
    requires 0 <= lo && hi <= |ctrl|
  {
    forall p :: lo <= p < hi ==> ctrl[p] != EMPTY
  }

  lemma {:induction false} AroundIs(ctrl: seq<int>, n: int, b: int, before: int, lead: nat, trail: nat)
    requires Shape(ctrl, n) && |ctrl| == n + GROUP && 0 <= b < n && before == (b - GROUP) % n && Full(ctrl[b]) && lead <= GROUP && trail <= GROUP
    requires NoneEmpty(ctrl, before + GROUP - lead, before + GROUP) && NoneEmpty(ctrl, b, b + trail)
    requires lead < GROUP ==> ctrl[before + GROUP - 1 - lead] == EMPTY
    requires trail < GROUP ==> ctrl[b + trail] == EMPTY
    ensures trail > 0 && (n == 4 ==> lead + trail < GROUP)
    ensures n >= GROUP && lead < GROUP ==> Around0(ctrl, n, b - 1 - lead)
    ensures n >= GROUP && trail < GROUP ==> Around0(ctrl, n, b + trail)
  {
    hide Shape, NoneEmpty;
    if n == 4 {
      ModIs(b - GROUP, n, -2, b);
      SmallAround(ctrl, b, lead, trail);
    } else {
      if lead < GROUP { LeadIs(ctrl, n, b, before, lead); }
      if trail < GROUP { TrailIs(ctrl, n, b, trail); }
    }
  }

  lemma {:induction false} LeadIs(ctrl: seq<int>, n: int, b: int, before: int, lead: nat)
    requires Shape(ctrl, n) && |ctrl| == n + GROUP && n != 4 && 0 <= b < n && before == (b - GROUP) % n && lead < GROUP
    requires ctrl[before + GROUP - 1 - lead] == EMPTY
    ensures Around0(ctrl, n, b - 1 - lead)
  {
    hide Shape;
    ByteIs(ctrl, n, before + GROUP - 1 - lead);
    ModAddLeft(b - GROUP, GROUP - 1 - lead, n);
  }

  lemma {:induction false} TrailIs(ctrl: seq<int>, n: int, b: int, trail: nat)
    requires Shape(ctrl, n) && |ctrl| == n + GROUP && n != 4 && 0 <= b < n && trail < GROUP && ctrl[b + trail] == EMPTY
    ensures Around0(ctrl, n, b + trail)
  {
    hide Shape;
    ByteIs(ctrl, n, b + trail);
  }

  lemma {:induction false} SmallAround(ctrl: seq<int>, b: int, lead: nat, trail: nat)
    requires Shape(ctrl, 4) && 0 <= b < 4 && lead <= GROUP && trail <= GROUP && Full(ctrl[b])
    requires NoneEmpty(ctrl, b + GROUP - lead, b + GROUP) && NoneEmpty(ctrl, b, b + trail)
    requires trail < GROUP ==> ctrl[b + trail] == EMPTY
    ensures trail > 0 && lead + trail < GROUP
  {
    assert Trails(ctrl, 4, 4) && Trails(ctrl, 4, 7);
    assert lead <= b;
    assert trail <= 4 - b;
  }

  lemma {:induction false} TombKeeps(ctrl: seq<int>, n: int, b: int)
    requires Shape(ctrl, n) && 0 <= b < n
    ensures |ctrl| == n + GROUP
    ensures forall pos :: 0 <= pos < n && HasEmpty(SetCtrl(ctrl, n, b, DELETED), pos) ==> HasEmpty(ctrl, pos)
  {
    hide HasEmpty, SetCtrl, Shape;
    ShapeLength(ctrl, n);
    SetShape(ctrl, n, b, DELETED);
    forall pos | 0 <= pos < n && HasEmpty(SetCtrl(ctrl, n, b, DELETED), pos) ensures HasEmpty(ctrl, pos) {
      NoNewEmpty(ctrl, SetCtrl(ctrl, n, b, DELETED), n, pos);
    }
  }

  lemma {:induction false} EmptyKeeps(ctrl: seq<int>, n: int, b: int, lead: nat, trail: nat)
    requires Shape(ctrl, n) && |ctrl| == n + GROUP && 0 <= b < n && lead + trail < GROUP && trail > 0
    requires n >= GROUP ==> Around0(ctrl, n, b - 1 - lead) && Around0(ctrl, n, b + trail)
    ensures forall pos :: 0 <= pos < n && HasEmpty(SetCtrl(ctrl, n, b, EMPTY), pos) ==> HasEmpty(ctrl, pos)
  {
    hide SetCtrl, Shape;
    ShapeLength(ctrl, n);
    forall pos | 0 <= pos < n && HasEmpty(SetCtrl(ctrl, n, b, EMPTY), pos) ensures HasEmpty(ctrl, pos) {
      if n >= GROUP {
        GroupKeepsEmpty(ctrl, n, b, lead, trail, pos);
      } else {
        SmallShape(ctrl, n);
        SmallEmpty(ctrl, pos);
      }
    }
  }

  lemma {:induction false} SmallShape(ctrl: seq<int>, n: int)
    requires Shape(ctrl, n) && n < GROUP
    ensures n == 4
  {
  }

  /** Every group of a table smaller than one holds an empty byte. */
  lemma {:induction false} SmallEmpty(ctrl: seq<int>, pos: int)
    requires Shape(ctrl, 4) && 0 <= pos < 4
    ensures HasEmpty(ctrl, pos)
  {
    assert Trails(ctrl, 4, 4);
    assert ctrl[4] == EMPTY;
  }

  lemma {:induction false} RemoveRoom(ctrl: seq<int>, n: nat, items: int, growthLeft: int, b: nat, c: int)
    requires Shape(ctrl, n) && |ctrl| == n + GROUP && Room(ctrl, n, items, growthLeft) && b < n && Full(ctrl[b])
    requires c == EMPTY || (c == DELETED && n != 4)
    ensures Room(SetCtrl(ctrl, n, b, c), n, items - 1, if c == EMPTY then growthLeft + 1 else growthLeft)
  {
    hide SetCtrl;
    SetShape(ctrl, n, b, c);
    CountSet(ctrl, SetCtrl(ctrl, n, b, c), n, b);
  }

  // ----- growing -----

  /** The entries of the first n buckets. */
  ghost function PartOf(ctrl: seq<int>, keys: seq<nat>, vals: seq<int>, n: nat): Content
    requires n <= |keys| == |vals| && |ctrl| >= |keys|
  {
    if n == 0 then map[]
    else if Full(ctrl[n - 1]) then PartOf(ctrl, keys, vals, n - 1)[keys[n - 1] := vals[n - 1]]
    else PartOf(ctrl, keys, vals, n - 1)
  }

  /** Unallocated, or a sound table. */
  ghost predicate Whole(ctrl: seq<int>, keys: seq<nat>, vals: seq<int>, content: Content, items: int, growthLeft: int) {
    if |ctrl| == 0 then |keys| == |vals| == 0 && content == map[] && items == 0 && growthLeft == 0
    else Sound(ctrl, keys, vals, content) && |ctrl| >= |keys| && Room(ctrl, |keys|, items, growthLeft)
  }

  lemma {:induction false} NoNegative(ctrl: seq<int>, keys: seq<nat>, vals: seq<int>, content: Content, items: int, growthLeft: int)
    requires Whole(ctrl, keys, vals, content, items, growthLeft)
    ensures items >= 0 && |keys| == |vals| && |ctrl| >= |keys|
  {
  }

  lemma {:induction false} OldStarts(ctrl: seq<int>, keys: seq<nat>, vals: seq<int>, content: Content, items: int, growthLeft: int)
    requires Whole(ctrl, keys, vals, content, items, growthLeft)
    ensures |keys| == |vals| && |ctrl| >= |keys| && Fulls(ctrl, |keys|) == items
    ensures Older(ctrl, keys, vals, content)
  {
    hide Sound;
    if |ctrl| != 0 { SoundShape(ctrl, keys, vals, content); }
  }

  lemma {:induction false} NoPart(ctrl: seq<int>, keys: seq<nat>, vals: seq<int>)
    requires |keys| == |vals| && |ctrl| >= |keys|
    ensures PartOf(ctrl, keys, vals, 0) == map[] && Fulls(ctrl, 0) == 0
  {
  }

  ghost predicate Older(ctrl: seq<int>, keys: seq<nat>, vals: seq<int>, content: Content) {
    Sound(ctrl, keys, vals, content) || (keys == [] && vals == [] && content == map[])
  }

  lemma {:induction false} PartHas(ctrl: seq<int>, keys: seq<nat>, vals: seq<int>, n: nat, k: nat)
    requires n <= |keys| == |vals| && |ctrl| >= |keys|
    ensures k in PartOf(ctrl, keys, vals, n) ==> exists b :: 0 <= b < n && Full(ctrl[b]) && keys[b] == k && PartOf(ctrl, keys, vals, n)[k] == vals[b]
    ensures (exists b :: 0 <= b < n && Full(ctrl[b]) && keys[b] == k) ==> k in PartOf(ctrl, keys, vals, n)
  {
    hide Full;
    if n > 0 { PartHas(ctrl, keys, vals, n - 1, k); }
  }

  lemma {:induction false} PartNext(ctrl: seq<int>, keys: seq<nat>, vals: seq<int>, content: Content, b: nat)
    requires Older(ctrl, keys, vals, content) && b < |keys| == |vals| && |ctrl| >= |keys|
    ensures PartOf(ctrl, keys, vals, b + 1) == if Full(ctrl[b]) then PartOf(ctrl, keys, vals, b)[keys[b] := vals[b]] else PartOf(ctrl, keys, vals, b)
    ensures Full(ctrl[b]) ==> keys[b] !in PartOf(ctrl, keys, vals, b)
    ensures Fulls(ctrl, b + 1) == Fulls(ctrl, b) + One(Full(ctrl[b]))
  {
    hide Shape, Full, EntryRight;
    PartHas(ctrl, keys, vals, b, keys[b]);
  }

  lemma {:induction false} FullsBelow(ctrl: seq<int>, b: nat, n: nat)
    requires b < n <= |ctrl|
    ensures Fulls(ctrl, b) + One(Full(ctrl[b])) <= Fulls(ctrl, n)
    decreases n
  {
    if b < n - 1 { FullsBelow(ctrl, b, n - 1); }
  }

  lemma {:induction false} PartWhole(ctrl: seq<int>, keys: seq<nat>, vals: seq<int>, content: Content)
    requires Older(ctrl, keys, vals, content) && |keys| == |vals| && |ctrl| >= |keys|
    ensures PartOf(ctrl, keys, vals, |keys|) == content
  {
    hide Shape, Full, EntryRight;
    var p := PartOf(ctrl, keys, vals, |keys|);
    if keys != [] {
      forall k | k in p ensures k in content && content[k] == p[k] {
        PartHas(ctrl, keys, vals, |keys|, k);
        var b :| 0 <= b < |keys| && Full(ctrl[b]) && keys[b] == k && p[k] == vals[b];
        KeyKnown(ctrl, keys, vals, content, b);
      }
      forall k | k in content ensures k in p {
        assert Present(ctrl, keys, k);
        PartHas(ctrl, keys, vals, |keys|, k);
      }
    }
  }

  lemma {:induction false} NewRoom(ctrl: seq<int>, n: nat, items: int, growthLeft: int)
    requires n <= |ctrl| && Tombs(ctrl, n) == 0 && Fulls(ctrl, n) == items && growthLeft == CapacityOf(n - 1) - items >= 0
    ensures Room(ctrl, n, items, growthLeft)
  {
  }

  lemma {:induction false} CopyCounts(ctrl: seq<int>, n: nat, b: nat, peer: nat)
    requires Shape(ctrl, n) && |ctrl| == n + GROUP && b < n && !Full(ctrl[b]) && Tombs(ctrl, n) == 0
    ensures var now := SetCtrl(ctrl, n, b, H2(FxHash(peer))); Tombs(now, n) == 0 && Fulls(now, n) == Fulls(ctrl, n) + 1
  {
    hide FxHash, H2, SetCtrl;
    HashByte(peer);
    SetShape(ctrl, n, b, H2(FxHash(peer)));
    CountSet(ctrl, SetCtrl(ctrl, n, b, H2(FxHash(peer))), n, b);
  }

  // ----- rehashing in place -----

  lemma {:induction false} CopyPlace(n: int, i: int)
    requires n >= GROUP && 0 <= i < n
    ensures (i - GROUP) % n + GROUP == if i < GROUP then n + i else i
  {
    if i < GROUP { ModIs(i - GROUP, n, -1, i - GROUP + n); } else { ModIs(i - GROUP, n, 0, i - GROUP); }
  }

  lemma {:induction false} MarkedShape(ctrl: seq<int>, n: int)
    requires Buckets(n) && n >= GROUP && |ctrl| == n + GROUP && forall b :: 0 <= b < n ==> ctrl[b] == DELETED || ctrl[b] == EMPTY
    requires forall p :: n <= p < n + GROUP && p - n < n ==> ctrl[p] == ctrl[p - n]
    ensures Shape(ctrl, n)
  {
  }

  lemma {:induction false} ShapePower(ctrl: seq<int>, n: int)
    requires Shape(ctrl, n) && n >= GROUP
    ensures Power2(n) && forall b :: 0 <= b < n ==> IsByte(ctrl[b])
  {
  }

  lemma {:induction false} ByteKind(ctrl: seq<int>, n: int, b: int)
    requires Shape(ctrl, n) && |ctrl| == n + GROUP && 0 <= b < n && !Full(ctrl[b])
    ensures ctrl[b] == EMPTY || ctrl[b] == DELETED
  {
  }

  lemma {:induction false} StayCounts(ctrl: seq<int>, n: nat, b: nat, c: int)
    requires Shape(ctrl, n) && |ctrl| == n + GROUP && b < n && ctrl[b] == DELETED && IsByte(c) && Full(c)
    ensures var now := SetCtrl(ctrl, n, b, c);
      && Fulls(now, n) + Tombs(now, n) == Fulls(ctrl, n) + Tombs(ctrl, n) && Tombs(now, n) < Tombs(ctrl, n)
      && forall k :: 0 <= k < n && now[k] == DELETED ==> ctrl[k] == DELETED
  {
    hide SetCtrl;
    SetShape(ctrl, n, b, c);
    CountSet(ctrl, SetCtrl(ctrl, n, b, c), n, b);
  }

  lemma {:induction false} OutCounts(ctrl: seq<int>, n: nat, i: nat, m: nat, c: int)
    requires Shape(ctrl, n) && |ctrl| == n + GROUP && i < n && m < n && i != m && ctrl[i] == DELETED && ctrl[m] == EMPTY && IsByte(c) && Full(c)
    ensures var now := SetCtrl(SetCtrl(ctrl, n, m, c), n, i, EMPTY);
      && Fulls(now, n) + Tombs(now, n) == Fulls(ctrl, n) + Tombs(ctrl, n) && Tombs(now, n) < Tombs(ctrl, n)
      && forall k :: 0 <= k < n && now[k] == DELETED ==> ctrl[k] == DELETED
  {
    hide SetCtrl;
    var mid := SetCtrl(ctrl, n, m, c);
    SetShape(ctrl, n, m, c);
    CountSet(ctrl, mid, n, m);
    SetShape(mid, n, i, EMPTY);
    CountSet(mid, SetCtrl(mid, n, i, EMPTY), n, i);
  }

  lemma {:induction false} NoTombs(ctrl: seq<int>, n: nat)
    requires n <= |ctrl| && forall b :: 0 <= b < n ==> ctrl[b] != DELETED
    ensures Tombs(ctrl, n) == 0
  {
    if n > 0 { NoTombs(ctrl, n - 1); }
  }

  // ----- listing -----

  ghost predicate Listed(ctrl: seq<int>, keys: seq<nat>, vals: seq<int>, n: nat, x: Id)
    requires n <= |keys| == |vals| && |ctrl| >= |keys|
  {
    exists b :: 0 <= b < n && Full(ctrl[b]) && keys[b] == x.peer && vals[b] == x.counter
  }

  lemma {:induction false} ListNext(ctrl: seq<int>, keys: seq<nat>, vals: seq<int>, content: Content, b: nat, ids: seq<Id>)
    requires Sound(ctrl, keys, vals, content) && b < |keys| == |vals| && |ctrl| >= |keys|
    requires forall x :: x in ids <==> Listed(ctrl, keys, vals, b, x)
    ensures forall x :: Listed(ctrl, keys, vals, b + 1, x) <==> Listed(ctrl, keys, vals, b, x) || (Full(ctrl[b]) && x == Id(keys[b], vals[b]))
    ensures Full(ctrl[b]) ==> forall x :: x in ids ==> x.peer != keys[b]
  {
    hide Shape, Full, EntryRight;
  }

  lemma {:induction false} ListAll(ctrl: seq<int>, keys: seq<nat>, vals: seq<int>, content: Content, x: Id)
    requires Sound(ctrl, keys, vals, content) && |keys| == |vals| && |ctrl| >= |keys|
    ensures Listed(ctrl, keys, vals, |keys|, x) <==> x.peer in content && content[x.peer] == x.counter
  {
    hide Shape, Full, EntryRight;
    if b :| 0 <= b < |keys| && Full(ctrl[b]) && keys[b] == x.peer && vals[b] == x.counter { KeyKnown(ctrl, keys, vals, content, b); }
    if x.peer in content {
      assert Present(ctrl, keys, x.peer);
      var b :| 0 <= b < |keys| && Full(ctrl[b]) && keys[b] == x.peer;
      KeyKnown(ctrl, keys, vals, content, b);
    }
  }
}
