/** Delta-of-delta columns: 64-bit values as second-order differences of variable bit length. */
module DeltaColumns {
  import opened Common
  import opened Varints
  import opened RleColumns
  import opened BitStreams
  import opened Triangle

  // ----- 64-bit wrap-around -----

  function ToU64(v: int): nat
    requires IsI64(v)
  {
    if v >= 0 then v else v + TWO64
  }

  function ToI64(u: nat): (v: int)
    requires u < TWO64
    ensures IsI64(v)
  {
    if u < TWO63 then u else u - TWO64
  }

  /** A sum or difference as 64-bit arithmetic leaves it. */
  function Wrap(x: int): (v: int)
    ensures IsI64(v)
  {
    ToI64(x % TWO64)
  }

  lemma {:induction false} WrapIs(x: int, k: int, v: int)
    requires IsI64(v) && x == v + k * TWO64
    ensures Wrap(x) == v
  {
    if v >= 0 { ModIs(x, TWO64, k, v); } else { ModIs(x, TWO64, k - 1, v + TWO64); }
  }

  lemma {:induction false} WrapOff(x: int) returns (k: int)
    ensures x == Wrap(x) + k * TWO64
  {
    var q := x / TWO64;
    assert x == q * TWO64 + x % TWO64;
    k := if x % TWO64 < TWO63 then q else q + 1;
  }

  /** A wrapped difference added back, wrapping again, gives the value. */
  lemma {:induction false} WrapBack(v: int, prev: int)
    requires IsI64(v)
    ensures Wrap(prev + Wrap(v - prev)) == v
  {
    hide Wrap;
    var k := WrapOff(v - prev);
    WrapIs(prev + Wrap(v - prev), -k, v);
  }

  // ----- one difference -----

  predicate Within(v: int, low: int, high: int) { low <= v <= high }

  /** One bit for 0; otherwise ones up to a width class, a zero, and the value from the class's low end;
      past the widest class, all 64 bits. */
  function DodBits(dod: int): seq<bool>
    requires IsI64(dod)
  {
    if dod == 0 then [false]
    else if Within(dod, -63, 64) then [true, false] + BitsOf(dod + 63, 7)
    else if Within(dod, -255, 256) then [true, true, false] + BitsOf(dod + 255, 9)
    else if Within(dod, -2047, 2048) then [true, true, true, false] + BitsOf(dod + 2047, 12)
    else if Within(dod, -1048575, 1048576) then [true, true, true, true, false] + BitsOf(dod + 1048575, 21)
    else [true, true, true, true, true] + BitsOf(ToU64(dod), 64)
  }

  /** The difference at pos, and where it ends. */
  function DodAt(b: Bytes, pos: nat): (int, nat) {
    if !BitAt(b, pos) then (0, pos + 1)
    else if !BitAt(b, pos + 1) then (NumAt(b, pos + 2, 7) - 63, pos + 9)
    else if !BitAt(b, pos + 2) then (NumAt(b, pos + 3, 9) - 255, pos + 12)
    else if !BitAt(b, pos + 3) then (NumAt(b, pos + 4, 12) - 2047, pos + 16)
    else if !BitAt(b, pos + 4) then (NumAt(b, pos + 5, 21) - 1048575, pos + 26)
    else (Wrap(NumAt(b, pos + 5, 64)), pos + 69)
  }

  lemma {:induction false} Powers()
    ensures Pow2(7) == 0x80 && Pow2(9) == 0x200 && Pow2(12) == 0x1000 && Pow2(21) == 0x20_0000 && Pow2(64) == TWO64
  {
    PowSum(7, 2);
    PowSum(9, 3);
    PowSum(12, 9);
    PowSum(21, 21);
    PowSum(42, 21);
    PowSum(63, 1);
    assert Pow2(7) == 0x80 && Pow2(2) == 4 && Pow2(3) == 8 && Pow2(1) == 2;
  }

  lemma {:induction false} PowSum(a: nat, b: nat)
    ensures Pow2(a + b) == Pow2(a) * Pow2(b)
  {
    if b > 0 {
      PowSum(a, b - 1);
      assert Pow2(a) * (2 * Pow2(b - 1)) == 2 * (Pow2(a) * Pow2(b - 1));
    }
  }

  /** The prefix of a width class, then its bits. */
  lemma {:induction false} ClassBack(b: Bytes, pos: nat, prefix: seq<bool>, v: nat, n: nat)
    requires Holds(b, pos, prefix + BitsOf(v, n)) && v < Pow2(n)
    ensures NumAt(b, pos + |prefix|, n) == v
    ensures FirstFive(b, pos, prefix)
  {
    hide BitAt, Pow2;
    HoldsParts(b, pos, prefix, BitsOf(v, n));
    NumBack(b, pos + |prefix|, v, n);
    forall k: nat | k < |prefix| ensures BitAt(b, pos + k) == prefix[k] {}
    assert |prefix| > 0 ==> BitAt(b, pos + 0) == prefix[0];
  }

  /** The bits of a width class's prefix, which has at most five. */
  ghost predicate FirstFive(b: Bytes, pos: nat, prefix: seq<bool>) {
    && (|prefix| > 0 ==> BitAt(b, pos) == prefix[0]) && (|prefix| > 1 ==> BitAt(b, pos + 1) == prefix[1])
    && (|prefix| > 2 ==> BitAt(b, pos + 2) == prefix[2]) && (|prefix| > 3 ==> BitAt(b, pos + 3) == prefix[3])
    && (|prefix| > 4 ==> BitAt(b, pos + 4) == prefix[4])
  }

  /** A difference written is read back, and reading stops at its last bit. */
  lemma {:induction false} DodBack(b: Bytes, pos: nat, dod: int)
    requires IsI64(dod) && Holds(b, pos, DodBits(dod))
    ensures DodAt(b, pos) == (dod, pos + |DodBits(dod)|)
  {
    hide BitAt, Pow2, NumAt, BitsOf, Wrap;
    Powers();
    if dod == 0 {
      assert BitAt(b, pos + 0) == DodBits(0)[0];
    } else if Within(dod, -1048575, 1048576) {
      SmallDod(b, pos, dod);
    } else {
      WideDod(b, pos, dod);
    }
  }

  lemma {:induction false} SmallDod(b: Bytes, pos: nat, dod: int)
    requires dod != 0 && Within(dod, -1048575, 1048576) && IsI64(dod) && Holds(b, pos, DodBits(dod))
    ensures DodAt(b, pos) == (dod, pos + |DodBits(dod)|)
  {
    hide BitAt, Pow2, NumAt, BitsOf, Wrap, Holds;
    Powers();
    if Within(dod, -63, 64) {
      ClassBack(b, pos, [true, false], dod + 63, 7);
    } else if Within(dod, -255, 256) {
      ClassBack(b, pos, [true, true, false], dod + 255, 9);
    } else if Within(dod, -2047, 2048) {
      ClassBack(b, pos, [true, true, true, false], dod + 2047, 12);
    } else {
      ClassBack(b, pos, [true, true, true, true, false], dod + 1048575, 21);
    }
  }

  lemma {:induction false} WideDod(b: Bytes, pos: nat, dod: int)
    requires !Within(dod, -1048575, 1048576) && IsI64(dod) && Holds(b, pos, DodBits(dod))
    ensures DodAt(b, pos) == (dod, pos + |DodBits(dod)|)
  {
    hide BitAt, Pow2, NumAt, BitsOf, Wrap, Holds;
    Powers();
    ClassBack(b, pos, [true, true, true, true, true], ToU64(dod), 64);
    WrapIs(ToU64(dod), if dod >= 0 then 0 else 1, dod);
  }

  // ----- a column -----

  ghost predicate AllI64(vals: seq<int>) { forall k :: 0 <= k < |vals| ==> IsI64(vals[k]) }

  /** The bits of the values from k on. */
  function StreamOf(vals: seq<int>, k: nat, prev: int, prevDelta: int): seq<bool>
    requires k <= |vals|
    decreases |vals| - k
  {
    if k == |vals| then []
    else
      var delta := Wrap(vals[k] - prev);
      DodBits(Wrap(delta - prevDelta)) + StreamOf(vals, k + 1, vals[k], delta)
  }

  /** n values from pos on, and where they end. */
  function StreamAt(b: Bytes, pos: nat, n: nat, prev: int, prevDelta: int): (seq<int>, nat)
    decreases n
  {
    if n == 0 then ([], pos)
    else
      var (dod, next) := DodAt(b, pos);
      var delta := Wrap(prevDelta + dod);
      var v := Wrap(prev + delta);
      var (vs, end) := StreamAt(b, next, n - 1, v, delta);
      ([v] + vs, end)
  }

  lemma {:induction false} StreamBack(b: Bytes, pos: nat, vals: seq<int>, k: nat, prev: int, prevDelta: int)
    requires k <= |vals| && AllI64(vals) && IsI64(prev) && IsI64(prevDelta) && Holds(b, pos, StreamOf(vals, k, prev, prevDelta))
    ensures StreamAt(b, pos, |vals| - k, prev, prevDelta) == (vals[k..], pos + |StreamOf(vals, k, prev, prevDelta)|)
    decreases |vals| - k
  {
    hide BitAt, DodAt, DodBits, Wrap, Holds;
    if k < |vals| {
      var delta := Wrap(vals[k] - prev);
      var dod := Wrap(delta - prevDelta);
      HoldsParts(b, pos, DodBits(dod), StreamOf(vals, k + 1, vals[k], delta));
      DodBack(b, pos, dod);
      WrapBack(delta, prevDelta);
      WrapBack(vals[k], prev);
      StreamBack(b, pos + |DodBits(dod)|, vals, k + 1, vals[k], delta);
      assert [vals[k]] + vals[k + 1..] == vals[k..];
    } else {
      assert vals[k..] == [];
    }
  }

  /** How many bits of the last byte are used. */
  function LastUsed(nbits: nat): Byte { if nbits == 0 then 0 else if nbits % 8 == 0 then 8 else nbits % 8 }

  function PutDelta(vals: seq<int>): Bytes {
    if vals == [] then [0, 0]
    else
      var bits := StreamOf(vals, 1, vals[0], 0);
      [1] + PutVarint(vals[0]) + [LastUsed(|bits|)] + Pack(bits)
  }

  function TakeDelta(b: Bytes, count: nat): Taken<seq<int>> {
    if b == [] then Bad(Truncated)
    else if count == 0 then if b[0] != 0 then Bad(Malformed) else if |b| < 2 then Bad(Truncated) else Got([], b[2..])
    else if b[0] != 1 then Bad(Malformed)
    else
      match TakeVarint(b[1..])
      case Bad(e) => Bad(e)
      case Got(first, r) =>
        if r == [] then Bad(Truncated) else if count == 1 then Got([first], r[1..]) else TakeStream(first, r[0], r[1..], count)
  }

  function TakeStream(first: int, lub: Byte, r: Bytes, count: nat): Taken<seq<int>>
    requires count > 1
  {
    var (vs, end) := StreamAt(r, 0, count - 1, first, 0);
    var n := (end + 7) / 8;
    if n > 0 && lub as int != end - (n - 1) * 8 then Bad(Malformed)
    else if n > |r| then Bad(Truncated)
    else Got([first] + vs, r[n..])
  }

  /** What the delta-of-delta encoder writes, followed by any bytes, the counted decoder reads back:
      every sequence of 64-bit values, however its differences wrap. */
  lemma {:induction false} DeltaBack(vals: seq<int>, rest: Bytes)
    requires AllI64(vals)
    ensures TakeDelta(PutDelta(vals) + rest, |vals|) == Got(vals, rest)
  {
    hide TakeVarint, PutVarint, StreamOf, Pack, TakeStream, LastUsed;
    var b := PutDelta(vals) + rest;
    if vals == [] {
      assert b == [0, 0] + rest;
    } else {
      var bits := StreamOf(vals, 1, vals[0], 0);
      var tail := [LastUsed(|bits|)] + (Pack(bits) + rest);
      HeadApart(PutVarint(vals[0]), LastUsed(|bits|), Pack(bits), rest);
      VarintBack(vals[0], tail);
      if |vals| == 1 {
        NoBits(vals);
        assert [] + rest == rest && vals == [vals[0]];
      } else {
        TailBack(vals, bits, rest);
      }
    }
  }

  lemma {:induction false} HeadApart(head: Bytes, lub: Byte, packed: Bytes, rest: Bytes)
    ensures var b := [1] + head + [lub] + packed + rest;
      var tail := [lub] + (packed + rest);
      b[0] == 1 && b[1..] == head + tail && tail[0] == lub && tail[1..] == packed + rest
  {
  }

  lemma {:induction false} NoBits(vals: seq<int>)
    requires |vals| == 1
    ensures Pack(StreamOf(vals, 1, vals[0], 0)) == []
  {
  }

  lemma {:induction false} TailBack(vals: seq<int>, bits: seq<bool>, rest: Bytes)
    requires |vals| > 1 && AllI64(vals) && bits == StreamOf(vals, 1, vals[0], 0)
    ensures TakeStream(vals[0], LastUsed(|bits|), Pack(bits) + rest, |vals|) == Got(vals, rest)
  {
    hide BitAt, Pack, StreamOf, StreamAt;
    var r := Pack(bits) + rest;
    forall k: nat | k < |bits| ensures BitAt(r, 0 + k) == bits[k] { PackBack(bits, rest, k); }
    StreamBack(r, 0, vals, 1, vals[0], 0);
    assert [vals[0]] + vals[1..] == vals;
    PackSize(bits);
    UsedBits(|bits|);
    assert r[|Pack(bits)|..] == rest;
  }

  lemma {:induction false} PackSize(bits: seq<bool>)
    ensures |Pack(bits)| == (|bits| + 7) / 8
  {
  }

  lemma {:induction false} UsedBits(nbits: nat)
    ensures var n := (nbits + 7) / 8; n > 0 ==> LastUsed(nbits) as int == nbits - (n - 1) * 8
  {
  }

  // ----- the loops -----

  /** One difference, in as few bits as its width class takes. */
  method WriteDod(w: BitWriter, dod: int)
    requires w.Valid() && IsI64(dod)
    modifies w
    ensures w.Valid() && w.bits == old(w.bits) + DodBits(dod)
  {
    hide Pack, BitsOf, BitWriter.Valid, ToU64, Pow2;
    ghost var was := w.bits;
    if dod == 0 {
      w.WriteBit(false);
      return;
    }
    w.WriteBit(true);
    if Within(dod, -63, 64) {
      w.WriteBit(false);
      w.WriteBits(dod + 63, 7);
      Joined(was, [true, false], BitsOf(dod + 63, 7), w.bits);
      return;
    }
    w.WriteBit(true);
    if Within(dod, -255, 256) {
      w.WriteBit(false);
      w.WriteBits(dod + 255, 9);
      Joined(was, [true, true, false], BitsOf(dod + 255, 9), w.bits);
      return;
    }
    w.WriteBit(true);
    if Within(dod, -2047, 2048) {
      w.WriteBit(false);
      w.WriteBits(dod + 2047, 12);
      Joined(was, [true, true, true, false], BitsOf(dod + 2047, 12), w.bits);
      return;
    }
    w.WriteBit(true);
    if Within(dod, -1048575, 1048576) {
      w.WriteBit(false);
      w.WriteBits(dod + 1048575, 21);
      Joined(was, [true, true, true, true, false], BitsOf(dod + 1048575, 21), w.bits);
      return;
    }
    w.WriteBit(true);
    w.WriteBits(ToU64(dod), 64);
    Joined(was, [true, true, true, true, true], BitsOf(ToU64(dod), 64), w.bits);
  }

  lemma {:induction false} Joined(was: seq<bool>, prefix: seq<bool>, bits: seq<bool>, now: seq<bool>)
    requires now == was + prefix + bits
    ensures now == was + (prefix + bits)
  {
  }

  /** The first value, then the differences of the differences. */
  method EncodeDeltaOfDelta(vals: seq<int>) returns (out: Bytes)
    requires AllI64(vals)
    ensures out == PutDelta(vals)
  {
    hide Pack, PutVarint, StreamOf, DodBits, Wrap;
    if vals == [] { return [0, 0]; }
    out := AppendVarint([1], vals[0]);
    var w := new BitWriter();
    var prevDelta, prevVal := 0, vals[0];
    ghost var all := StreamOf(vals, 1, vals[0], 0);
    for k := 1 to |vals|
      invariant w.Valid() && IsI64(prevDelta) && IsI64(prevVal) && w.bits + StreamOf(vals, k, prevVal, prevDelta) == all
    {
      var delta := Wrap(vals[k] - prevVal);
      StreamNext(vals, k, prevVal, prevDelta, w.bits);
      WriteDod(w, Wrap(delta - prevDelta));
      prevDelta, prevVal := delta, vals[k];
    }
    StreamEnd(vals, prevVal, prevDelta, w.bits);
    var lub: Byte := 0;
    if w.nbits > 0 {
      var r := w.nbits % 8;
      lub := if r == 0 then 8 else r;
    }
    out := out + [lub];
    out := out + w.bytes;
  }

  lemma {:induction false} StreamNext(vals: seq<int>, k: nat, prev: int, prevDelta: int, bits: seq<bool>)
    requires k < |vals|
    ensures var delta := Wrap(vals[k] - prev);
      bits + StreamOf(vals, k, prev, prevDelta) == bits + DodBits(Wrap(delta - prevDelta)) + StreamOf(vals, k + 1, vals[k], delta)
  {
    hide Wrap, DodBits;
  }

  lemma {:induction false} StreamEnd(vals: seq<int>, prev: int, prevDelta: int, bits: seq<bool>)
    ensures bits + StreamOf(vals, |vals|, prev, prevDelta) == bits
  {
  }

  /** One difference, its width class told by leading ones. */
  method ReadDod(br: BitReader) returns (dod: int)
    modifies br
    ensures (dod, br.consumed) == DodAt(br.b, old(br.consumed))
  {
    hide BitAt, NumAt, Wrap;
    var x := br.Bit();
    if !x { return 0; }
    x := br.Bit();
    if !x {
      var v := br.Bits(7);
      return v as int - 63;
    }
    x := br.Bit();
    if !x {
      var v := br.Bits(9);
      return v as int - 255;
    }
    x := br.Bit();
    if !x {
      var v := br.Bits(12);
      return v as int - 2047;
    }
    x := br.Bit();
    if !x {
      var v := br.Bits(21);
      return v as int - 1048575;
    }
    var v := br.Bits(64);
    return Wrap(v);
  }

  /** Reads exactly count values, past the head, the used-bits byte and the bits. */
  method DeltaOfDeltaN(r: Reader, count: int) returns (res: Result<seq<int>, Fault>)
    requires r.Valid()
    modifies r
    ensures r.Valid()
    ensures count < 0 || count > MAX_ROWS ==> res == Err(Malformed)
    ensures 0 <= count <= MAX_ROWS ==>
      match TakeDelta(old(r.Rest()), count)
      case Bad(e) => res == Err(e)
      case Got(vs, rest) => res == Ok(vs) && r.Rest() == rest
  {
    hide TakeVarint, StreamAt, TakeStream;
    if count < 0 || count > MAX_ROWS { return Err(Malformed); }
    ghost var b0 := r.Rest();
    var tag := r.Byte();
    if tag.Err? { return Err(tag.error); }
    if count == 0 {
      if tag.value != 0 { return Err(Malformed); }
      var used := r.Byte();
      if used.Err? { return Err(used.error); }
      assert b0[1..][1..] == b0[2..];
      return Ok([]);
    }
    if tag.value != 1 { return Err(Malformed); }
    var first := r.Varint();
    if first.Err? { return Err(first.error); }
    var lub := r.Byte();
    if lub.Err? { return Err(lub.error); }
    if count == 1 { return Ok([first.value]); }
    res := ReadStream(r, first.value, lub.value, count);
  }

  /** The values past the first, out of the bits. */
  method ReadStream(r: Reader, first: int, lub: Byte, count: nat) returns (res: Result<seq<int>, Fault>)
    requires r.Valid() && count > 1
    modifies r
    ensures r.Valid()
    ensures match TakeStream(first, lub, old(r.Rest()), count)
            case Bad(e) => res == Err(e)
            case Got(vs, rest) => res == Ok(vs) && r.Rest() == rest
  {
    hide DodAt, Wrap, StreamAt, Before;
    var b := r.Rest();
    NoneRead(first, StreamAt(b, 0, count - 1, first, 0));
    var br := new BitReader(b);
    var out, prevDelta, prevVal := [first], 0, first;
    for k := 1 to count
      invariant br.b == b && fresh(br) && r.Valid() && r.Rest() == b
      invariant out != [] && out[0] == first
      invariant StreamAt(b, 0, count - 1, first, 0) == Before(first, out, StreamAt(b, br.consumed, count - k, prevVal, prevDelta))
    {
      OneMore(b, br.consumed, count - k, prevVal, prevDelta, first, out);
      var dod := ReadDod(br);
      prevDelta := Wrap(prevDelta + dod);
      prevVal := Wrap(prevVal + prevDelta);
      out := out + [prevVal];
    }
    AllRead(b, br.consumed, prevVal, prevDelta, first, out);
    var numBytes := (br.consumed + 7) / 8;
    if numBytes > 0 && lub as int != br.consumed - (numBytes - 1) * 8 { return Err(Malformed); }
    var skipped := r.Take(numBytes);
    if skipped.Err? { return Err(Truncated); }
    return Ok(out);
  }

  /** The values out, but for the first, and those still to come. */
  function Before(first: int, out: seq<int>, s: (seq<int>, nat)): (seq<int>, nat)
    requires out != []
  {
    (out[1..] + s.0, s.1)
  }

  lemma {:induction false} NoneRead(first: int, s: (seq<int>, nat))
    ensures Before(first, [first], s) == s
  {
    assert [first][1..] + s.0 == s.0;
  }

  lemma {:induction false} OneMore(b: Bytes, pos: nat, n: nat, prev: int, prevDelta: int, first: int, out: seq<int>)
    requires n > 0 && out != []
    ensures var (dod, next) := DodAt(b, pos); var delta := Wrap(prevDelta + dod); var v := Wrap(prev + delta);
      Before(first, out, StreamAt(b, pos, n, prev, prevDelta)) == Before(first, out + [v], StreamAt(b, next, n - 1, v, delta))
  {
    hide DodAt, Wrap;
    var (dod, next) := DodAt(b, pos);
    var delta := Wrap(prevDelta + dod);
    var v := Wrap(prev + delta);
    var vs := StreamAt(b, next, n - 1, v, delta).0;
    assert out[1..] + ([v] + vs) == (out + [v])[1..] + vs;
  }

  lemma {:induction false} AllRead(b: Bytes, pos: nat, prev: int, prevDelta: int, first: int, out: seq<int>)
    requires out != [] && out[0] == first
    ensures var s := Before(first, out, StreamAt(b, pos, 0, prev, prevDelta)); s.1 == pos && [first] + s.0 == out
  {
  }
}
