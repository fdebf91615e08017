/** Rehashing in place: every entry ends where its probe meets it, and none is lost on the way. */
module FxMoves {
  import opened Triangle
  import opened FxProbe
  import opened FxState

  /** While entries move: full bytes mark those settled, deleted bytes those still to move. */
  ghost predicate Moving(ctrl: seq<int>, keys: seq<nat>, vals: seq<int>, content: Content) {
    && |vals| == |keys| && Shape(ctrl, |keys|)
    && (forall b :: 0 <= b < |keys| && ctrl[b] != EMPTY ==> Holds(ctrl, keys, vals, content, b))
    && (forall k :: k in content ==> Somewhere(ctrl, keys, k))
    && (forall a, b :: 0 <= a < b < |keys| && ctrl[a] != EMPTY && ctrl[b] != EMPTY ==> keys[a] != keys[b])
  }

  ghost predicate Holds(ctrl: seq<int>, keys: seq<nat>, vals: seq<int>, content: Content, b: int)
    requires |keys| == |vals| > 0 && |ctrl| == |keys| + GROUP && 0 <= b < |keys|
  {
    && keys[b] in content && content[keys[b]] == vals[b]
    && (Full(ctrl[b]) ==> ctrl[b] == H2(FxHash(keys[b])) && Settled(ctrl, |keys|, FxHash(keys[b]), b))
  }

  ghost predicate Somewhere(ctrl: seq<int>, keys: seq<nat>, key: nat)
    requires |ctrl| >= |keys|
  {
    exists b :: 0 <= b < |keys| && ctrl[b] != EMPTY && keys[b] == key
  }

  lemma {:induction false} MovingShape(ctrl: seq<int>, keys: seq<nat>, vals: seq<int>, content: Content)
    requires Moving(ctrl, keys, vals, content)
    ensures |vals| == |keys| && Shape(ctrl, |keys|) && |ctrl| == |keys| + GROUP && |keys| >= 4
  {
  }

  lemma {:induction false} MovingAt(ctrl: seq<int>, keys: seq<nat>, vals: seq<int>, content: Content, b: int)
    requires Moving(ctrl, keys, vals, content) && 0 <= b < |keys| && ctrl[b] != EMPTY
    ensures Holds(ctrl, keys, vals, content, b)
  {
  }

  /** Once nothing is left to move, the table is sound. */
  lemma {:induction false} MovedSound(ctrl: seq<int>, keys: seq<nat>, vals: seq<int>, content: Content)
    requires Moving(ctrl, keys, vals, content) && forall b :: 0 <= b < |keys| ==> ctrl[b] != DELETED
    ensures Sound(ctrl, keys, vals, content)
  {
    hide Settled, Reached, H2, FxHash;
    forall b | 0 <= b < |keys| && Full(ctrl[b]) ensures EntryRight(ctrl, keys, vals, content, b) {
      MovingAt(ctrl, keys, vals, content, b);
      SettledReached(ctrl, |keys|, FxHash(keys[b]), b);
    }
    forall k | k in content ensures Present(ctrl, keys, k) {
      assert Somewhere(ctrl, keys, k);
      var b :| 0 <= b < |keys| && ctrl[b] != EMPTY && keys[b] == k;
      assert IsByte(ctrl[b]);
    }
  }

  /** Marking every full byte deleted and every deleted one empty starts the move. */
  lemma {:induction false} MoveStarts(ctrl: seq<int>, now: seq<int>, keys: seq<nat>, vals: seq<int>, content: Content)
    requires Sound(ctrl, keys, vals, content) && Shape(now, |keys|)
    requires forall b :: 0 <= b < |keys| ==> now[b] == if Full(ctrl[b]) then DELETED else EMPTY
    ensures Moving(now, keys, vals, content)
  {
    hide Reached, H2, FxHash, Settled;
    forall b | 0 <= b < |keys| && now[b] != EMPTY ensures Holds(now, keys, vals, content, b) { KeyKnown(ctrl, keys, vals, content, b); }
    forall k | k in content ensures Somewhere(now, keys, k) {
      assert Present(ctrl, keys, k);
      var b :| 0 <= b < |keys| && Full(ctrl[b]) && keys[b] == k;
      assert now[b] != EMPTY;
    }
  }

  lemma {:induction false} StartCounts(ctrl: seq<int>, now: seq<int>, n: nat)
    requires n <= |ctrl| && n <= |now| && forall b :: 0 <= b < n ==> now[b] == if Full(ctrl[b]) then DELETED else EMPTY
    ensures Tombs(now, n) == Fulls(ctrl, n) && Fulls(now, n) == 0
  {
    if n > 0 { StartCounts(ctrl, now, n - 1); }
  }

  // ----- staying -----

  /** Which group of a probe starting at `start` holds b. */
  function Block(b: int, start: int, n: int): int
    requires n > 0
  {
    ((b - start) % n) / GROUP
  }

  /** Two buckets in the same block of a probe are in the same group. */
  lemma {:induction false} SameBlock(h: nat, n: int, j: nat, a: int, b: int)
    requires n >= GROUP && Power2(n) && 0 <= a < n && 0 <= b < n
    requires InWin(h, n, j, a) && Block(a, h % n, n) == Block(b, h % n, n)
    ensures InWin(h, n, j, b)
  {
    hide WinPos, T;
    EightFits(n);
    var pos := WinPos(h, n, j);
    var p :| pos <= p < pos + GROUP && Bucket(p, n) == a;
    var q := BlockOf(h, n, j, a, p - pos);
    var r := (b - h % n) % n - 8 * q;
    InBlock(h, n, j, b, q, r);
    assert Bucket(pos + r, n) == b;
  }

  lemma {:induction false} BlockOf(h: nat, n: int, j: nat, a: int, i: int) returns (q: int)
    requires n >= 8 && n % 8 == 0 && 0 <= a < n && 0 <= i < 8 && (WinPos(h, n, j) + i) % n == a
    ensures q == Block(a, h % n, n) && 0 <= q && WinPos(h, n, j) == (h + 8 * q) % n
  {
    hide T, WinPos, Block;
    q := WinIs(h, n, j);
    Within(WinPos(h, n, j), h + 8 * q, n, a, i);
    Offset(h, n, q, i);
  }

  /** The place i past the k-th eight from h is in block k. */
  lemma {:induction false} Offset(h: nat, n: int, k: int, i: int)
    requires n >= 8 && 0 <= k && 8 * k + 8 <= n && 0 <= i < 8
    ensures Block((h + 8 * k + i) % n, h % n, n) == k
  {
    var s := h % n;
    assert h == (h / n) * n + s;
    ModShift(s + 8 * k + i, n, h / n);
    ModAddLeft(s + 8 * k + i, -s, n);
    ModIs(8 * k + i, n, 0, 8 * k + i);
  }

  lemma {:induction false} InBlock(h: nat, n: int, j: nat, b: int, q: int, r: int)
    requires n >= 8 && n % 8 == 0 && 0 <= b < n && WinPos(h, n, j) == (h + 8 * q) % n
    requires q == Block(b, h % n, n) && r == (b - h % n) % n - 8 * q
    ensures 0 <= r < 8 && (WinPos(h, n, j) + r) % n == b
  {
    hide T, WinPos;
    ModAddLeft(h + 8 * q, r, n);
    Onset(h, n, b, q, r);
  }

  lemma {:induction false} SettledSame(ctrl: seq<int>, n: int, h: nat, a: int, b: int)
    requires n >= GROUP && Power2(n) && |ctrl| == n + GROUP && 0 <= a < n && 0 <= b < n
    requires Settled(ctrl, n, h, a) && Block(a, h % n, n) == Block(b, h % n, n)
    ensures Settled(ctrl, n, h, b)
  {
    hide HasFree, WinPos, InWin;
    var j: nat :| InWin(h, n, j, a) && forall k: nat :: k < j ==> !HasFree(ctrl, WinPos(h, n, k));
    SameBlock(h, n, j, a, b);
  }

  // ----- one move -----

  lemma {:induction false} HoldsStill(ctrl: seq<int>, now: seq<int>, keys: seq<nat>, vals: seq<int>, keys2: seq<nat>, vals2: seq<int>,
                                      content: Content, b: int)
    requires |keys| == |vals| == |keys2| == |vals2| > 0 && |ctrl| == |now| == |keys| + GROUP && 0 <= b < |keys|
    requires Holds(ctrl, keys, vals, content, b) && now[b] == ctrl[b] && keys2[b] == keys[b] && vals2[b] == vals[b]
    requires forall pos :: 0 <= pos < |keys| && HasFree(now, pos) ==> HasFree(ctrl, pos)
    ensures Holds(now, keys2, vals2, content, b)
  {
    hide Settled, HasFree, H2, FxHash;
    if Full(ctrl[b]) { StillSettled(ctrl, now, |keys|, FxHash(keys[b]), b); }
  }

  /** The entry at i stays, its byte full again. */
  lemma {:induction false} Stays(ctrl: seq<int>, keys: seq<nat>, vals: seq<int>, content: Content, i: int)
    requires Moving(ctrl, keys, vals, content) && 0 <= i < |keys| && ctrl[i] == DELETED && Settled(ctrl, |keys|, FxHash(keys[i]), i)
    ensures Moving(SetCtrl(ctrl, |keys|, i, H2(FxHash(keys[i]))), keys, vals, content)
  {
    hide Shape, Settled, HasFree, Holds, SetCtrl, FxHash, Full, H2;
    var n, c := |keys|, H2(FxHash(keys[i]));
    MovingShape(ctrl, keys, vals, content);
    var now := SetCtrl(ctrl, n, i, c);
    HashByte(keys[i]);
    SetShape(ctrl, n, i, c);
    FullNot();
    forall pos | 0 <= pos < n && HasFree(now, pos) ensures HasFree(ctrl, pos) { NoNewFree(ctrl, now, n, pos); }
    MovingAt(ctrl, keys, vals, content, i);
    StillSettled(ctrl, now, n, FxHash(keys[i]), i);
    HoldsFull(ctrl, now, keys, vals, keys, vals, content, i, i);
    forall b | 0 <= b < n && now[b] != EMPTY ensures Holds(now, keys, vals, content, b) {
      if b != i {
        MovingAt(ctrl, keys, vals, content, b);
        HoldsStill(ctrl, now, keys, vals, keys, vals, content, b);
      }
    }
    forall k | k in content ensures Somewhere(now, keys, k) {
      assert Somewhere(ctrl, keys, k);
      var b :| 0 <= b < n && ctrl[b] != EMPTY && keys[b] == k;
      assert now[b] != EMPTY;
    }
  }

  /** An entry from a settled at b. */
  lemma {:induction false} HoldsFull(ctrl: seq<int>, now: seq<int>, keys: seq<nat>, vals: seq<int>, keys2: seq<nat>, vals2: seq<int>,
                                     content: Content, a: int, b: int)
    requires |keys| == |vals| == |keys2| == |vals2| > 0 && |ctrl| == |now| == |keys| + GROUP && 0 <= a < |keys| && 0 <= b < |keys|
    requires Holds(ctrl, keys, vals, content, a) && keys2[b] == keys[a] && vals2[b] == vals[a]
    requires now[b] == H2(FxHash(keys[a])) && Settled(now, |keys|, FxHash(keys[a]), b)
    ensures Holds(now, keys2, vals2, content, b)
  {
  }

  lemma {:induction false} HoldsTomb(ctrl: seq<int>, now: seq<int>, keys: seq<nat>, vals: seq<int>, keys2: seq<nat>, vals2: seq<int>,
                                     content: Content, a: int, b: int)
    requires |keys| == |vals| == |keys2| == |vals2| > 0 && |ctrl| == |now| == |keys| + GROUP && 0 <= a < |keys| && 0 <= b < |keys|
    requires Holds(ctrl, keys, vals, content, a) && keys2[b] == keys[a] && vals2[b] == vals[a] && now[b] == DELETED
    ensures Holds(now, keys2, vals2, content, b)
  {
  }

  /** The entry at i goes to the empty bucket m, where its probe meets it. */
  lemma {:induction false} MovesOut(ctrl: seq<int>, keys: seq<nat>, vals: seq<int>, content: Content, i: int, m: int)
    requires Moving(ctrl, keys, vals, content) && 0 <= i < |keys| && ctrl[i] == DELETED && 0 <= m < |keys| && ctrl[m] == EMPTY
    requires Settled(ctrl, |keys|, FxHash(keys[i]), m)
    ensures |ctrl| == |keys| + GROUP
    ensures var mid := SetCtrl(ctrl, |keys|, m, H2(FxHash(keys[i])));
      Moving(SetCtrl(mid, |keys|, i, EMPTY), keys[m := keys[i]], vals[m := vals[i]], content)
  {
    hide Shape, Settled, HasFree, Holds, SetCtrl, FxHash, Full, H2;
    var n, c := |keys|, H2(FxHash(keys[i]));
    MovingShape(ctrl, keys, vals, content);
    var mid := SetCtrl(ctrl, n, m, c);
    HashByte(keys[i]);
    SetShape(ctrl, n, m, c);
    FullNot();
    var now := SetCtrl(mid, n, i, EMPTY);
    SetShape(mid, n, i, EMPTY);
    var keys2, vals2 := keys[m := keys[i]], vals[m := vals[i]];
    forall pos | 0 <= pos < n && HasFree(now, pos) ensures HasFree(ctrl, pos) { NoNewFree(ctrl, now, n, pos); }
    MovingAt(ctrl, keys, vals, content, i);
    StillSettled(ctrl, now, n, FxHash(keys[i]), m);
    HoldsFull(ctrl, now, keys, vals, keys2, vals2, content, i, m);
    forall b | 0 <= b < n && now[b] != EMPTY ensures Holds(now, keys2, vals2, content, b) {
      if b != m {
        MovingAt(ctrl, keys, vals, content, b);
        HoldsStill(ctrl, now, keys, vals, keys2, vals2, content, b);
      }
    }
    forall k | k in content ensures Somewhere(now, keys2, k) {
      assert Somewhere(ctrl, keys, k);
      var b :| 0 <= b < n && ctrl[b] != EMPTY && keys[b] == k;
      var d := if b == i then m else b;
      assert now[d] != EMPTY && keys2[d] == k;
    }
  }

  /** The entry at i goes to m, and the one there, still to move, comes to i. */
  lemma {:induction false} Trades(ctrl: seq<int>, keys: seq<nat>, vals: seq<int>, content: Content, i: int, m: int)
    requires Moving(ctrl, keys, vals, content) && 0 <= i < |keys| && ctrl[i] == DELETED && 0 <= m < |keys| && ctrl[m] == DELETED && i != m
    requires Settled(ctrl, |keys|, FxHash(keys[i]), m)
    ensures |ctrl| == |keys| + GROUP && |vals| == |keys|
    ensures Moving(SetCtrl(ctrl, |keys|, m, H2(FxHash(keys[i]))), keys[m := keys[i]][i := keys[m]], vals[m := vals[i]][i := vals[m]], content)
  {
    hide Shape, Settled, HasFree, Holds, SetCtrl, FxHash, Full, H2;
    var n, c := |keys|, H2(FxHash(keys[i]));
    MovingShape(ctrl, keys, vals, content);
    var now := SetCtrl(ctrl, n, m, c);
    HashByte(keys[i]);
    SetShape(ctrl, n, m, c);
    FullNot();
    var keys2, vals2 := keys[m := keys[i]][i := keys[m]], vals[m := vals[i]][i := vals[m]];
    forall pos | 0 <= pos < n && HasFree(now, pos) ensures HasFree(ctrl, pos) { NoNewFree(ctrl, now, n, pos); }
    MovingAt(ctrl, keys, vals, content, i);
    MovingAt(ctrl, keys, vals, content, m);
    StillSettled(ctrl, now, n, FxHash(keys[i]), m);
    HoldsFull(ctrl, now, keys, vals, keys2, vals2, content, i, m);
    HoldsTomb(ctrl, now, keys, vals, keys2, vals2, content, m, i);
    forall b | 0 <= b < n && now[b] != EMPTY ensures Holds(now, keys2, vals2, content, b) {
      if b != m && b != i {
        MovingAt(ctrl, keys, vals, content, b);
        HoldsStill(ctrl, now, keys, vals, keys2, vals2, content, b);
      }
    }
    forall k | k in content ensures Somewhere(now, keys2, k) {
      assert Somewhere(ctrl, keys, k);
      var b :| 0 <= b < n && ctrl[b] != EMPTY && keys[b] == k;
      var d := if b == i then m else if b == m then i else b;
      assert now[d] != EMPTY && keys2[d] == k;
    }
  }
}
