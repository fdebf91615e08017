/** The bytes themselves: how an integer is cut into groups, and the columns of the format's published vectors. */
module WireFormats {
  import opened Varints
  import opened RleColumns
  import opened BitStreams
  import opened DeltaColumns
  import opened WholeColumns
  import opened ChangeBlobs

  // ----- integers -----

  /** The number whose groups of seven bits these are, the lowest group first. */
  ghost function Groups(b: Bytes): nat {
    if b == [] then 0 else b[0] % 0x80 + 0x80 * Groups(b[1..])
  }

  /** The high bit is set on all bytes but the last, and the last group is not a needless zero. */
  ghost predicate Grouped(b: Bytes) {
    && b != [] && (forall k :: 0 <= k < |b| - 1 ==> b[k] >= 0x80) && b[|b| - 1] < 0x80
    && (|b| > 1 ==> b[|b| - 1] != 0)
  }

  /** A number is written as the one shortest row of seven-bit groups that stands for it, lowest first. */
  lemma {:induction false} UvarintForm(v: nat, b: Bytes)
    ensures b == PutUvarint(v) <==> Grouped(b) && Groups(b) == v
  {
    UvarintGroups(v);
    if Grouped(b) && Groups(b) == v { OneForm(b, v); }
  }

  lemma {:induction false} UvarintGroups(v: nat)
    ensures Grouped(PutUvarint(v)) && Groups(PutUvarint(v)) == v && (v > 0 ==> PutUvarint(v)[|PutUvarint(v)| - 1] != 0)
    decreases v
  {
    if v >= 0x80 {
      UvarintGroups(v / 0x80);
      var b, tail := PutUvarint(v), PutUvarint(v / 0x80);
      assert b == [0x80 + v % 0x80] + tail && b[1..] == tail;
      forall k | 0 <= k < |b| - 1 ensures b[k] >= 0x80 { assert k > 0 ==> b[k] == tail[k - 1]; }
    } else {
      assert PutUvarint(v)[1..] == [];
    }
  }

  lemma {:induction false} OneForm(b: Bytes, v: nat)
    requires Grouped(b) && Groups(b) == v
    ensures b == PutUvarint(v)
    decreases |b|
  {
    hide Groups;
    GroupsIs(b);
    if |b| > 1 {
      var tail := b[1..];
      assert forall k :: 0 <= k < |tail| ==> tail[k] == b[k + 1];
      OneForm(tail, Groups(tail));
      Positive(tail);
      LowGroup(b[0] - 0x80, Groups(tail));
      assert b == [b[0]] + tail;
    } else {
      assert b == [b[0]] && b[1..] == [];
    }
  }

  lemma {:induction false} GroupsIs(b: Bytes)
    requires Grouped(b)
    ensures |b| > 1 ==> Groups(b) == b[0] - 0x80 + 0x80 * Groups(b[1..])
    ensures |b| == 1 ==> Groups(b) == b[0]
  {
    assert |b| == 1 ==> b[1..] == [];
  }

  lemma {:induction false} LowGroup(c: int, t: nat)
    requires 0 <= c < 0x80
    ensures (c + 0x80 * t) / 0x80 == t && (c + 0x80 * t) % 0x80 == c && (0x80 + c) % 0x80 == c
  {
  }

  lemma {:induction false} Positive(b: Bytes)
    requires Grouped(b) && b[|b| - 1] != 0
    ensures Groups(b) > 0
    decreases |b|
  {
    if |b| > 1 {
      assert forall k :: 0 <= k < |b[1..]| ==> b[1..][k] == b[k + 1];
      Positive(b[1..]);
    }
  }

  /** Signed numbers alternate: 0, -1, 1, -2, 2 and so on become 0, 1, 2, 3, 4. */
  lemma {:induction false} ZigzagOrder(v: int)
    ensures Zigzag(v) % 2 == (if v < 0 then 1 else 0) && Zigzag(v) / 2 == if v < 0 then -v - 1 else v
  {
  }

  // ----- published vectors -----

  lemma {:induction false} RunVectors(a: seq<nat>, b: seq<nat>)
    requires a == [1000, 1000, 2, 2, 2] && b == [7, 8, 9]
    ensures PutRle(a, 0, PutU64) == [0x04, 0xe8, 0x07, 0x06, 0x02] && PutRle(b, 0, PutU64) == [0x05, 0x07, 0x08, 0x09]
  {
    assert PutRle(a, 5, PutU64) == [];
    assert RunEnd(a, 2) == 5 && RunEnd(a, 0) == 2;
    assert PutVarint(3) == [6] && PutVarint(2) == [4];
    assert PutRle(a, 2, PutU64) == [6, 2];
    assert PutUvarint(1000) == [0xe8, 0x07];
    LoneVector(b);
  }

  lemma {:induction false} LoneVector(b: seq<nat>)
    requires b == [7, 8, 9]
    ensures PutRle(b, 0, PutU64) == [0x05, 0x07, 0x08, 0x09]
  {
    assert RunEnd(b, 0) == 1 && RunEnd(b, 1) == 2 && RunEnd(b, 2) == 3;
    assert LoneEnd(b, 3) == 3 && LoneEnd(b, 2) == 3 && LoneEnd(b, 1) == 3 && LoneEnd(b, 0) == 3;
    assert PutVarint(-3) == [5];
    assert b[0..3] == b && b[..2] == [7, 8] && b[..2][..1] == [7] && b[..2][..1][..0] == [];
    assert PutEach(b[..2][..1], PutU64) == [7] && PutEach(b[..2], PutU64) == [7, 8] && PutEach(b, PutU64) == [7, 8, 9];
  }

  lemma {:induction false} BoolVectors()
    ensures PutBools([true, true, false, false, false], 0, false) == [0, 2, 3] && PutBools([false, true], 0, false) == [1, 1]
  {
  }

  lemma {:induction false} DeltaVectors()
    ensures PutDelta([]) == [0, 0] && PutDelta([5]) == [0x01, 0x0a, 0x00]
  {
    assert PutVarint(5) == [0x0a];
  }

  /** Bits from the high end of a number on. */
  lemma {:induction false} BitsMore(v: nat, n: nat, bits: seq<bool>)
    requires n > 0 && BitsOf(v / 2, n - 1) == bits
    ensures BitsOf(v, n) == bits + [v % 2 == 1]
  {
  }

  lemma {:induction false} BitsNone(v: nat)
    ensures BitsOf(v, 0) == []
  {
  }

  lemma {:induction false} Bits64()
    ensures BitsOf(64, 7) == [true, false, false, false, false, false, false]
  {
    hide BitsOf;
    BitsNone(0);
    BitsMore(1, 1, []);
    BitsMore(2, 2, [true]);
    BitsMore(4, 3, [true, false]);
    BitsMore(8, 4, [true, false, false]);
    BitsMore(16, 5, [true, false, false, false]);
    BitsMore(32, 6, [true, false, false, false, false]);
    BitsMore(64, 7, [true, false, false, false, false, false]);
  }

  lemma {:induction false} SmallWrap(x: int)
    requires -TWO63 <= x < TWO63
    ensures Wrap(x) == x
  {
    WrapIs(x, 0, x);
  }

  /** One more difference of differences, none of them near 64 bits. */
  lemma {:induction false} StreamStep(vals: seq<int>, k: nat, prev: int, prevDelta: int, bits: seq<bool>, more: seq<bool>)
    requires k < |vals| && -0x8000 < vals[k] < 0x8000 && -0x8000 < prev < 0x8000 && -0x10000 < prevDelta < 0x10000
    requires DodBits(vals[k] - prev - prevDelta) == bits && StreamOf(vals, k + 1, vals[k], vals[k] - prev) == more
    ensures StreamOf(vals, k, prev, prevDelta) == bits + more
  {
    hide Wrap, DodBits;
    SmallWrap(vals[k] - prev);
    SmallWrap(vals[k] - prev - prevDelta);
  }

  lemma {:induction false} StreamEnd(vals: seq<int>, prev: int, prevDelta: int)
    ensures StreamOf(vals, |vals|, prev, prevDelta) == []
  {
  }

  /** The bytes of a column from its bits. */
  lemma {:induction false} DeltaIs(vals: seq<int>, first: Bytes, bits: seq<bool>)
    requires vals != [] && PutVarint(vals[0]) == first && StreamOf(vals, 1, vals[0], 0) == bits
    ensures PutDelta(vals) == [1] + first + [LastUsed(|bits|)] + Pack(bits)
  {
    hide Pack, StreamOf, PutVarint, LastUsed;
  }

  lemma {:induction false} EvenStream(vals: seq<int>)
    requires vals == [1, 2, 3, 4, 5, 6]
    ensures StreamOf(vals, 1, 1, 0) == [true, false, true, false, false, false, false, false, false, false, false, false, false]
  {
    hide StreamOf, BitsOf, Wrap;
    StreamEnd(vals, 6, 1);
    StreamStep(vals, 5, 5, 1, [false], []);
    StreamStep(vals, 4, 4, 1, [false], [false]);
    StreamStep(vals, 3, 3, 1, [false], [false, false]);
    StreamStep(vals, 2, 2, 1, [false], [false, false, false]);
    Bits64();
    StreamStep(vals, 1, 1, 0, [true, false, true, false, false, false, false, false, false], [false, false, false, false]);
  }

  lemma {:induction false} EvenBytes()
    ensures Pack([true, false, true, false, false, false, false, false, false, false, false, false, false]) == [0xa0, 0x00]
  {
  }

  /** Steps of one. */
  lemma {:induction false} EvenVector(vals: seq<int>)
    requires vals == [1, 2, 3, 4, 5, 6]
    ensures PutDelta(vals) == [0x01, 0x02, 0x05, 0xa0, 0x00]
  {
    hide Pack, StreamOf;
    EvenStream(vals);
    EvenBytes();
    assert PutVarint(1) == [0x02];
    DeltaIs(vals, [0x02], [true, false, true, false, false, false, false, false, false, false, false, false, false]);
  }

  /** A row of a difference column is how far its value is past the one before it, the first's past 0. */
  lemma {:induction false} DifferenceForm(vals: seq<int>, k: nat)
    requires k < |vals|
    ensures Deltas(vals)[k] == Wrap(if k == 0 then vals[0] else vals[k] - vals[k - 1])
  {
    hide Wrap;
    var n := |vals| - 1;
    if k < n { DifferenceForm(vals[..n], k); }
  }

  lemma {:induction false} DifferenceVector(vals: seq<int>)
    requires vals == [0, 5, 10, 10, 10]
    ensures PutDeltaRle(vals) == [0x01, 0x00, 0x04, 0x0a, 0x04, 0x00]
  {
    hide Deltas, PutRle;
    forall k: nat | k < 5 ensures Deltas(vals)[k] == if k == 1 || k == 2 then 5 else 0 {
      DifferenceForm(vals, k);
      SmallWrap(if k == 0 then vals[0] else vals[k] - vals[k - 1]);
    }
    assert Deltas(vals) == [0, 5, 5, 0, 0];
    StepVector([0, 5, 5, 0, 0]);
  }

  /** A run's token and value, then the rest; a lone value's token and value, then the rest. */
  lemma {:induction false} RunToken(a: seq<int>, i: nat, j: nat, rest: Bytes)
    requires i < j <= |a| && RunEnd(a, i) == j && PutRle(a, j, PutVarint) == rest
    ensures j - i >= 2 ==> PutRle(a, i, PutVarint) == PutVarint(j - i) + PutVarint(a[i]) + rest
    ensures j - i < 2 && LoneEnd(a, j) == j ==> PutRle(a, i, PutVarint) == PutVarint(-1) + PutVarint(a[i]) + rest
  {
    hide PutVarint;
    if j - i < 2 && LoneEnd(a, j) == j {
      assert a[i..j] == [a[i]] && [a[i]][..0] == [];
      assert PutEach([a[i]], PutVarint) == [] + PutVarint(a[i]);
    }
  }

  lemma {:induction false} StepVector(a: seq<int>)
    requires a == [0, 5, 5, 0, 0]
    ensures PutRle(a, 0, PutVarint) == [0x01, 0x00, 0x04, 0x0a, 0x04, 0x00]
  {
    hide PutRle;
    StepRuns(a);
    NoRows(a);
    assert PutVarint(2) == [4] && PutVarint(-1) == [1] && PutVarint(5) == [0x0a] && PutVarint(0) == [0];
    RunToken(a, 3, 5, []);
    RunToken(a, 1, 3, [4, 0]);
    RunToken(a, 0, 1, [4, 0x0a, 4, 0]);
  }

  lemma {:induction false} StepRuns(a: seq<int>)
    requires a == [0, 5, 5, 0, 0]
    ensures RunEnd(a, 3) == 5 && RunEnd(a, 1) == 3 && RunEnd(a, 0) == 1 && LoneEnd(a, 1) == 1
  {
  }

  lemma {:induction false} NoRows(a: seq<int>)
    ensures PutRle(a, |a|, PutVarint) == []
  {
  }

  // ----- the classes of differences -----

  ghost function Width(c: nat): nat
    requires c <= 5
  {
    [0, 7, 9, 12, 21, 64][c]
  }

  /** Whether class c has room for a difference. */
  ghost predicate Fits(c: nat, dod: int)
    requires c <= 5
  {
    match c
    case 0 => dod == 0
    case 1 => -0x40 < dod <= 0x40
    case 2 => -0x100 < dod <= 0x100
    case 3 => -0x800 < dod <= 0x800
    case 4 => -0x10_0000 < dod <= 0x10_0000
    case 5 => -TWO63 <= dod < TWO63
  }

  ghost function Ones(c: nat): seq<bool> { seq(c, _ => true) }

  /** A difference is written in the least class with room for it: as many set bits as the class says, a
      clear one unless it is the last, and the difference counted from the least one of its class. The
      last class holds it as it is in 64 bits. */
  lemma {:induction false} DodForm(c: nat, dod: int)
    requires c <= 5 && Fits(c, dod) && (c > 0 ==> !Fits(c - 1, dod))
    ensures c < 4 ==> Width(c) < Width(c + 1)
    ensures IsI64(dod)
    ensures c == 0 ==> DodBits(dod) == [false]
    ensures 0 < c < 5 ==> exists low :: Least(c, low) && dod >= low && DodBits(dod) == Ones(c) + [false] + BitsOf(dod - low, Width(c))
    ensures c == 5 ==> DodBits(dod) == Ones(5) + BitsOf(if dod < 0 then dod + TWO64 else dod, 64)
  {
    hide BitsOf;
    assert Ones(1) == [true] && Ones(2) == [true, true] && Ones(3) == [true, true, true];
    assert Ones(4) == [true, true, true, true] && Ones(5) == [true, true, true, true, true];
    assert Least(1, -63) && Least(2, -255) && Least(3, -2047) && Least(4, -1048575);
  }

  /** The least difference of a class. */
  ghost predicate Least(c: nat, low: int)
    requires c <= 5
  {
    Fits(c, low) && !Fits(c, low - 1)
  }

  /** The number whose bytes these are, the low one first. */
  ghost function Bytewise(b: Bytes): nat {
    if b == [] then 0 else b[0] + 0x100 * Bytewise(b[1..])
  }

  /** A peer takes eight bytes, the low one first. */
  lemma {:induction false} FixedForm(v: nat, b: Bytes)
    requires v < TWO64
    ensures b == PutFixed(v) <==> |b| == 8 && Bytewise(b) == v
  {
    hide Below, Bytewise, Little;
    EightBytes();
    LittleForm(v, 8, b);
  }

  lemma {:induction false} LittleForm(v: nat, n: nat, b: Bytes)
    requires v < Below(n)
    ensures b == Little(v, n) <==> |b| == n && Bytewise(b) == v
  {
    if n > 0 && |b| == n {
      LittleForm(v / 0x100, n - 1, b[1..]);
      assert b == [b[0]] + b[1..];
      LowByte(b[0], Bytewise(b[1..]));
      assert Little(v, n)[1..] == Little(v / 0x100, n - 1);
    }
  }

  lemma {:induction false} LowByte(c: int, t: nat)
    requires 0 <= c < 0x100
    ensures (c + 0x100 * t) / 0x100 == t && (c + 0x100 * t) % 0x100 == c
  {
  }
}
