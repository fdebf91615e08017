/** Control bytes of an open-addressing table: mirrored groups, probe windows and their reach. */
module FxProbe {
  import opened Triangle

  const GROUP := 8
  const EMPTY := 0xff
  const DELETED := 0x80

  predicate Full(c: int) { c < 0x80 }

  /** A hash below 2^32; nothing but this range is relied on. */
  function FxHash(peer: nat): (h: nat)
    ensures h < 0x1_0000_0000
  {
    var k := 0x93d7_65dd;
    var a := (peer % 0x1_0000_0000 * k) % 0x1_0000_0000;
    var h := ((a + peer / 0x1_0000_0000 % 0x1_0000_0000) * k) % 0x1_0000_0000;
    (h % 0x2_0000) * 0x8000 + h / 0x2_0000
  }

  /** The tag a bucket's control byte shows for a key of this hash: always below 0x80. */
  function H2(h: nat): (c: int)
    ensures 0 <= c && (h < 0x1_0000_0000 ==> Full(c))
  {
    (h / 0x200_0000) % 0x80
  }

  /** n buckets: 4, or a power of two of at least a group. */
  ghost predicate Buckets(n: int) { n == 4 || (n >= GROUP && Power2(n)) }

  ghost predicate IsByte(c: int) { (0 <= c && Full(c)) || c == DELETED || c == EMPTY }

  /** The trailing bytes copy the first group; in a table smaller than one the bytes between are
      empty. */
  ghost predicate Mirrored(ctrl: seq<int>, n: int)
    requires Buckets(n) && |ctrl| == n + GROUP
  {
    forall p :: n <= p < n + GROUP ==> Trails(ctrl, n, p)
  }

  ghost predicate Trails(ctrl: seq<int>, n: int, p: int)
    requires 0 <= n <= p < n + GROUP == |ctrl|
  {
    ctrl[p] == if n >= GROUP then ctrl[p - n] else if p < GROUP then EMPTY else ctrl[p - GROUP]
  }

  ghost predicate Shape(ctrl: seq<int>, n: int) {
    Buckets(n) && |ctrl| == n + GROUP && Mirrored(ctrl, n) && forall b :: 0 <= b < n ==> IsByte(ctrl[b])
  }

  lemma {:induction false} EightFits(n: int)
    requires n >= GROUP && Power2(n)
    ensures n % 8 == 0 && Power2(n / 8)
  {
    assert Power2(n / 2) && Power2(n / 2 / 2) && Power2(n / 2 / 2 / 2);
  }

  /** A byte is that of the bucket it stands for, or an empty one past a small table. */
  lemma {:induction false} ByteIs(ctrl: seq<int>, n: int, p: int)
    requires Shape(ctrl, n) && 0 <= p < n + GROUP
    ensures 0 <= Bucket(p, n) < n
    ensures ctrl[p] == if n == 4 && 4 <= p < GROUP then EMPTY else ctrl[Bucket(p, n)]
  {
    assert p >= n ==> Trails(ctrl, n, p);
    if p < n {
      ModIs(p, n, 0, p);
    } else if n >= GROUP {
      ModIs(p, n, 1, p - n);
    } else if p >= GROUP {
      ModIs(p, n, 2, p - GROUP);
    }
  }

  /** The bucket a byte stands for. */
  function Bucket(p: int, n: int): int
    requires n > 0
  {
    p % n
  }

  // ----- windows -----

  /** Where the j-th group of a probe starts. */
  function WinPos(h: nat, n: int, j: nat): (pos: int)
    requires n > 0
    ensures 0 <= pos < n
  {
    (h + GROUP * T(j)) % n
  }

  /** The next group is stride further on. */
  lemma {:induction false} WinNext(h: nat, n: int, j: nat)
    requires n > 0
    ensures (WinPos(h, n, j) + GROUP * (j + 1)) % n == WinPos(h, n, j + 1)
    ensures WinPos(h, n, 0) == h % n
  {
    ModAddLeft(h + GROUP * T(j), GROUP * (j + 1), n);
  }

  /** The j-th group of a probe for h holds bucket b. */
  ghost predicate InWin(h: nat, n: int, j: nat, b: int)
    requires n > 0
  {
    InGroup(WinPos(h, n, j), n, b)
  }

  ghost predicate InGroup(pos: int, n: int, b: int)
    requires n > 0
  {
    exists p :: pos <= p < pos + GROUP && Bucket(p, n) == b
  }

  /** A bucket of a group shows there as a byte of its own. */
  lemma {:induction false} GroupShows(ctrl: seq<int>, n: int, pos: int, b: int) returns (p: int)
    requires Shape(ctrl, n) && 0 <= pos < n && 0 <= b < n && InGroup(pos, n, b)
    ensures pos <= p < pos + GROUP && Bucket(p, n) == b && ctrl[p] == ctrl[b]
  {
    if n == 4 {
      p := if b >= pos then b else b + GROUP;
      ModIs(p, n, if b >= pos then 0 else 2, b);
    } else {
      p :| pos <= p < pos + GROUP && Bucket(p, n) == b;
    }
    ByteIs(ctrl, n, p);
  }

  /** How many groups a probe may need. */
  function Probes(n: int): nat
    requires n > 0
  {
    if n == 4 then 1 else n / GROUP
  }

  /** Every bucket is in one of the first groups of every probe. */
  lemma {:induction false} Covered(h: nat, n: int, b: int) returns (j: nat)
    requires Buckets(n) && 0 <= b < n
    ensures j < Probes(n) && InWin(h, n, j, b)
  {
    if n == 4 {
      j := 0;
      var pos := WinPos(h, n, 0);
      var p := pos + (b - pos) % 4;
      assert Bucket(p, n) == b;
    } else {
      EightFits(n);
      var m, d := n / 8, (b - h) % n;
      j := Reaches(m, d / 8);
      var q := WinIs(h, n, j);
      CoverAt(WinPos(h, n, j), h, n, b, q, d % 8);
      assert Bucket(WinPos(h, n, j) + d % 8, n) == b;
    }
  }

  lemma {:induction false} CoverAt(w: int, h: nat, n: int, b: int, q: int, i: int)
    requires n > 0 && 0 <= b < n && w == (h + 8 * q) % n && 8 * q + i == (b - h) % n
    ensures (w + i) % n == b
  {
    ModAddLeft(h + 8 * q, i, n);
    Closes(h, n, b, 8 * q + i);
  }

  lemma {:induction false} Closes(h: int, n: int, b: int, d: int)
    requires n > 0 && 0 <= b < n && d == (b - h) % n
    ensures (h + d) % n == b
  {
    ModAddLeft(b - h, h, n);
    ModIs(b, n, 0, b);
  }

  /** Where the group starts, as whole groups from h on. */
  lemma {:induction false} WinIs(h: nat, n: int, j: nat) returns (q: int)
    requires n >= 8 && n % 8 == 0
    ensures 0 <= q && 8 * q + 8 <= n && WinPos(h, n, j) == (h + 8 * q) % n && q == T(j) % (n / 8)
  {
    var m := n / 8;
    q := T(j) % m;
    var t := T(j) / m;
    assert T(j) == t * m + q;
    assert 8 * (t * m) == t * n by { assert n == 8 * m; }
    ModShift(h + 8 * q, n, t);
  }

  lemma {:induction false} Within(w: int, x: int, n: int, a: int, i: int)
    requires n > 0 && w == x % n && (w + i) % n == a
    ensures (x + i) % n == a
  {
    ModAddLeft(x, i, n);
  }

  lemma {:induction false} Onset(h: nat, n: int, b: int, q: int, r: int)
    requires n >= 8 && 0 <= b < n && 8 * q + r == (b - h % n) % n
    ensures (h + 8 * q + r) % n == b
  {
    var s := h % n;
    assert h == (h / n) * n + s;
    ModShift(s + 8 * q + r, n, h / n);
    ModAddLeft(b - s, s, n);
    ModIs(b, n, 0, b);
  }

  ghost predicate HasEmpty(ctrl: seq<int>, pos: int)
    requires 0 <= pos && pos + GROUP <= |ctrl|
  {
    exists p :: pos <= p < pos + GROUP && ctrl[p] == EMPTY
  }

  ghost predicate HasFree(ctrl: seq<int>, pos: int)
    requires 0 <= pos && pos + GROUP <= |ctrl|
  {
    exists p :: pos <= p < pos + GROUP && !Full(ctrl[p])
  }

  /** A probe for h comes to b before it meets an empty byte. */
  ghost predicate Reached(ctrl: seq<int>, n: int, h: nat, b: int)
    requires n > 0 && |ctrl| == n + GROUP
  {
    exists j: nat :: InWin(h, n, j, b) && forall k: nat :: k < j ==> !HasEmpty(ctrl, WinPos(h, n, k))
  }

  /** A probe for h comes to b before it meets a byte that is not full. */
  ghost predicate Settled(ctrl: seq<int>, n: int, h: nat, b: int)
    requires n > 0 && |ctrl| == n + GROUP
  {
    exists j: nat :: InWin(h, n, j, b) && forall k: nat :: k < j ==> !HasFree(ctrl, WinPos(h, n, k))
  }

  lemma {:induction false} EmptyIsFree(ctrl: seq<int>, pos: int)
    requires 0 <= pos && pos + GROUP <= |ctrl|
    ensures HasEmpty(ctrl, pos) ==> HasFree(ctrl, pos)
  {
  }

  lemma {:induction false} SettledReached(ctrl: seq<int>, n: int, h: nat, b: int)
    requires n > 0 && |ctrl| == n + GROUP && Settled(ctrl, n, h, b)
    ensures Reached(ctrl, n, h, b)
  {
    hide HasEmpty, HasFree, InWin, WinPos;
    var j: nat :| InWin(h, n, j, b) && forall k: nat :: k < j ==> !HasFree(ctrl, WinPos(h, n, k));
    forall k: nat | k < j ensures !HasEmpty(ctrl, WinPos(h, n, k)) {
      assert !HasFree(ctrl, WinPos(h, n, k));
      WinRange(h, n, k);
      EmptyIsFree(ctrl, WinPos(h, n, k));
    }
  }

  /** A bucket that is empty or free makes the groups that hold it so. */
  lemma {:induction false} BucketShows(ctrl: seq<int>, n: int, pos: int, b: int)
    requires Shape(ctrl, n) && 0 <= b < n && 0 <= pos < n && InGroup(pos, n, b)
    ensures ctrl[b] == EMPTY ==> HasEmpty(ctrl, pos)
    ensures !Full(ctrl[b]) ==> HasFree(ctrl, pos)
  {
    hide Shape;
    var p :| pos <= p < pos + GROUP && Bucket(p, n) == b;
    ShapeLength(ctrl, n);
    ByteIs(ctrl, n, p);
  }

  lemma {:induction false} ShapeLength(ctrl: seq<int>, n: int)
    requires Shape(ctrl, n)
    ensures |ctrl| == n + GROUP && n >= 4
  {
  }

  // ----- setting a byte -----

  /** Bucket b's byte set to c, and with it the byte that mirrors it. */
  function SetCtrl(ctrl: seq<int>, n: int, b: int, c: int): (r: seq<int>)
    requires n > 0 && |ctrl| == n + GROUP && 0 <= b < n
    ensures |r| == |ctrl|
  {
    ctrl[b := c][(b - GROUP) % n + GROUP := c]
  }

  lemma {:induction false} SetShape(ctrl: seq<int>, n: int, b: int, c: int)
    requires Shape(ctrl, n) && 0 <= b < n && IsByte(c)
    ensures Shape(SetCtrl(ctrl, n, b, c), n)
    ensures forall k :: 0 <= k < n ==> SetCtrl(ctrl, n, b, c)[k] == if k == b then c else ctrl[k]
  {
    if n >= GROUP {
      if b < GROUP { ModIs(b - GROUP, n, -1, b - GROUP + n); } else { ModIs(b - GROUP, n, 0, b - GROUP); }
    } else {
      ModIs(b - GROUP, n, -2, b);
    }
    var r := SetCtrl(ctrl, n, b, c);
    forall p | n <= p < n + GROUP ensures Trails(r, n, p) { assert Trails(ctrl, n, p); }
  }

  /** Fewer free bytes: what was reached or settled stays so. */
  lemma {:induction false} StillReached(ctrl: seq<int>, now: seq<int>, n: int, h: nat, b: int)
    requires n > 0 && |ctrl| == |now| == n + GROUP && Reached(ctrl, n, h, b)
    requires forall pos :: 0 <= pos < n && HasEmpty(now, pos) ==> HasEmpty(ctrl, pos)
    ensures Reached(now, n, h, b)
  {
    hide HasEmpty, InWin, WinPos;
    var j: nat :| InWin(h, n, j, b) && forall k: nat :: k < j ==> !HasEmpty(ctrl, WinPos(h, n, k));
    forall k: nat | k < j ensures !HasEmpty(now, WinPos(h, n, k)) { assert !HasEmpty(ctrl, WinPos(h, n, k)); WinRange(h, n, k); }
  }

  lemma {:induction false} WinRange(h: nat, n: int, k: nat)
    requires n > 0
    ensures 0 <= WinPos(h, n, k) < n
  {
  }

  lemma {:induction false} StillSettled(ctrl: seq<int>, now: seq<int>, n: int, h: nat, b: int)
    requires n > 0 && |ctrl| == |now| == n + GROUP && Settled(ctrl, n, h, b)
    requires forall pos :: 0 <= pos < n && HasFree(now, pos) ==> HasFree(ctrl, pos)
    ensures Settled(now, n, h, b)
  {
    hide HasFree, InWin, WinPos;
    var j: nat :| InWin(h, n, j, b) && forall k: nat :: k < j ==> !HasFree(ctrl, WinPos(h, n, k));
    forall k: nat | k < j ensures !HasFree(now, WinPos(h, n, k)) { assert !HasFree(ctrl, WinPos(h, n, k)); WinRange(h, n, k); }
  }

  /** Groups see no empty byte they did not see, when no bucket turned empty. */
  lemma {:induction false} NoNewEmpty(ctrl: seq<int>, now: seq<int>, n: int, pos: int)
    requires Shape(ctrl, n) && Shape(now, n) && 0 <= pos < n
    requires forall b :: 0 <= b < n && now[b] == EMPTY ==> ctrl[b] == EMPTY
    ensures HasEmpty(now, pos) ==> HasEmpty(ctrl, pos)
  {
    hide Shape;
    ShapeLength(ctrl, n);
    ShapeLength(now, n);
    if p :| pos <= p < pos + GROUP && now[p] == EMPTY {
      ByteIs(ctrl, n, p);
      ByteIs(now, n, p);
    }
  }

  lemma {:induction false} NoNewFree(ctrl: seq<int>, now: seq<int>, n: int, pos: int)
    requires Shape(ctrl, n) && Shape(now, n) && 0 <= pos < n
    requires forall b :: 0 <= b < n && !Full(now[b]) ==> !Full(ctrl[b])
    ensures HasFree(now, pos) ==> HasFree(ctrl, pos)
  {
    hide Shape;
    ShapeLength(ctrl, n);
    ShapeLength(now, n);
    if p :| pos <= p < pos + GROUP && !Full(now[p]) {
      ByteIs(ctrl, n, p);
      ByteIs(now, n, p);
    }
  }

  // ----- emptying a bucket -----

  /** The bytes around bucket b that are not empty, fewer than a group of them, b among them: every
      group that holds b holds an empty byte too. */
  lemma {:induction false} GroupKeepsEmpty(ctrl: seq<int>, n: int, b: int, lead: int, trail: int, pos: int)
    requires Shape(ctrl, n) && n >= GROUP && 0 <= b < n && 0 <= pos < n
    requires 0 <= lead && 0 < trail && lead + trail < GROUP
    requires ctrl[(b - 1 - lead) % n] == EMPTY && ctrl[(b + trail) % n] == EMPTY
    ensures HasEmpty(SetCtrl(ctrl, n, b, EMPTY), pos) ==> HasEmpty(ctrl, pos)
  {
    hide HasEmpty, Shape, SetCtrl;
    ShapeLength(ctrl, n);
    var now := SetCtrl(ctrl, n, b, EMPTY);
    SetShape(ctrl, n, b, EMPTY);
    ShapeLength(now, n);
    if HasEmpty(now, pos) && !HasEmpty(ctrl, pos) {
      var p := NewlyEmpty(ctrl, now, n, b, pos);
      var d := if lead < p - pos then -1 - lead else trail;
      ModAddLeft(p, d, n);
      EmptyAt(ctrl, n, pos, p + d);
    }
  }

  lemma {:induction false} EmptyAt(ctrl: seq<int>, n: int, pos: int, p: int)
    requires Shape(ctrl, n) && n >= GROUP && 0 <= pos < n && pos <= p < pos + GROUP && ctrl[Bucket(p, n)] == EMPTY
    ensures HasEmpty(ctrl, pos)
  {
    ByteIs(ctrl, n, p);
  }

  /** Where a group sees the bucket that turned empty. */
  lemma {:induction false} NewlyEmpty(ctrl: seq<int>, now: seq<int>, n: int, b: int, pos: int) returns (p: int)
    requires Shape(ctrl, n) && Shape(now, n) && n >= GROUP && 0 <= b < n && 0 <= pos < n
    requires forall k :: 0 <= k < n ==> now[k] == if k == b then EMPTY else ctrl[k]
    requires HasEmpty(now, pos) && !HasEmpty(ctrl, pos)
    ensures pos <= p < pos + GROUP && p % n == b
  {
    p :| pos <= p < pos + GROUP && now[p] == EMPTY;
    ByteIs(ctrl, n, p);
    ByteIs(now, n, p);
  }
}
