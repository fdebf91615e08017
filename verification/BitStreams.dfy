/** Bits packed into bytes, the high bit of each byte first. */
module BitStreams {
  import opened Common
  import opened Varints
  import opened Triangle

  function Weight(k: nat): nat
    requires k < 8
  {
    if k == 0 then 0x80 else if k == 1 then 0x40 else if k == 2 then 0x20 else if k == 3 then 0x10
    else if k == 4 then 8 else if k == 5 then 4 else if k == 6 then 2 else 1
  }

  predicate BitOf(c: Byte, k: nat)
    requires k < 8
  {
    c / Weight(k) % 2 == 1
  }

  /** Reading past the end yields clear bits. */
  predicate BitAt(b: Bytes, pos: nat) {
    pos / 8 < |b| && BitOf(b[pos / 8], pos % 8)
  }

  function One(bits: seq<bool>, i: nat): (r: nat)
    ensures r <= 1
  {
    if i < |bits| && bits[i] then 1 else 0
  }

  /** Eight bits from i on, clear ones past the end. */
  function ByteFrom(bits: seq<bool>, i: nat): Byte {
    0x80 * One(bits, i) + 0x40 * One(bits, i + 1) + 0x20 * One(bits, i + 2) + 0x10 * One(bits, i + 3)
    + 8 * One(bits, i + 4) + 4 * One(bits, i + 5) + 2 * One(bits, i + 6) + One(bits, i + 7)
  }

  /** Byte number i of a stream of bits. */
  function ByteNo(bits: seq<bool>, i: nat): Byte { ByteFrom(bits, 8 * i) }

  function Pack(bits: seq<bool>): (b: Bytes)
    ensures |b| == (|bits| + 7) / 8 && forall i :: 0 <= i < |b| ==> b[i] == ByteNo(bits, i)
  {
    seq((|bits| + 7) / 8, i requires 0 <= i => ByteNo(bits, i))
  }

  /** Bit k of eight bits' byte is the k-th. */
  lemma {:induction false} BitBack(bits: seq<bool>, i: nat, k: nat)
    requires k < 8
    ensures BitOf(ByteFrom(bits, i), k) <==> One(bits, i + k) == 1
  {
    hide One;
    EightBits(One(bits, i), One(bits, i + 1), One(bits, i + 2), One(bits, i + 3), One(bits, i + 4), One(bits, i + 5), One(bits, i + 6), One(bits, i + 7));
  }

  lemma {:induction false} Digit(x: int, w: int, hi: int, bit: int, lo: int)
    requires w > 0 && x == (2 * hi + bit) * w + lo && 0 <= lo < w && 0 <= bit <= 1
    ensures x / w % 2 == bit
  {
    var q := x / w;
    assert x == q * w + x % w;
    assert (q - (2 * hi + bit)) * w == lo - x % w;
    SmallMultiple(q - (2 * hi + bit), w);
  }

  lemma {:induction false} EightBits(a: int, b: int, c: int, d: int, e: int, f: int, g: int, h: int)
    requires 0 <= a <= 1 && 0 <= b <= 1 && 0 <= c <= 1 && 0 <= d <= 1 && 0 <= e <= 1 && 0 <= f <= 1 && 0 <= g <= 1 && 0 <= h <= 1
    ensures var x := 0x80 * a + 0x40 * b + 0x20 * c + 0x10 * d + 8 * e + 4 * f + 2 * g + h;
      && x / 0x80 % 2 == a && x / 0x40 % 2 == b && x / 0x20 % 2 == c && x / 0x10 % 2 == d
      && x / 8 % 2 == e && x / 4 % 2 == f && x / 2 % 2 == g && x / 1 % 2 == h
  {
    var x := 0x80 * a + 0x40 * b + 0x20 * c + 0x10 * d + 8 * e + 4 * f + 2 * g + h;
    Digit(x, 0x80, 0, a, x - 0x80 * a);
    Digit(x, 0x40, a, b, x - 0x80 * a - 0x40 * b);
    Digit(x, 0x20, 2 * a + b, c, x - 0x80 * a - 0x40 * b - 0x20 * c);
    Digit(x, 0x10, 4 * a + 2 * b + c, d, 8 * e + 4 * f + 2 * g + h);
    Digit(x, 8, 8 * a + 4 * b + 2 * c + d, e, 4 * f + 2 * g + h);
    Digit(x, 4, 0x10 * a + 8 * b + 4 * c + 2 * d + e, f, 2 * g + h);
    Digit(x, 2, 0x20 * a + 0x10 * b + 8 * c + 4 * d + 2 * e + f, g, h);
    Digit(x, 1, 0x40 * a + 0x20 * b + 0x10 * c + 8 * d + 4 * e + 2 * f + g, h, 0);
  }

  /** What is packed is read back from in front of any bytes. */
  lemma {:induction false} PackBack(bits: seq<bool>, rest: Bytes, pos: nat)
    requires pos < |bits|
    ensures BitAt(Pack(bits) + rest, pos) <==> bits[pos]
  {
    hide ByteFrom, BitOf;
    BitBack(bits, 8 * (pos / 8), pos % 8);
    assert (Pack(bits) + rest)[pos / 8] == ByteNo(bits, pos / 8);
  }

  // ----- writing -----

  /** A new byte when the last one is full. */
  function Extended(b: Bytes, n: nat): Bytes { if n % 8 == 0 then b + [0] else b }

  /** Setting bit k of byte i. */
  function OrBit(b: Bytes, i: int, k: nat): Bytes
    requires 0 <= i < |b| && k < 8
  {
    if BitOf(b[i], k) then b else var c: int := b[i] as int + Weight(k); if c < 0x100 then b[i := c] else b
  }

  /** Packing one bit more: the last byte, or a new one, gets the bit put in. */
  lemma {:induction false} PackMore(bits: seq<bool>, bit: bool)
    ensures |Extended(Pack(bits), |bits|)| > 0
    ensures var was := Extended(Pack(bits), |bits|);
      Pack(bits + [bit]) == if bit then OrBit(was, |was| - 1, |bits| % 8) else was
  {
    hide ByteFrom, Weight, OrBit, BitOf;
    var n := |bits|;
    var more := bits + [bit];
    var was, now := Extended(Pack(bits), n), Pack(more);
    var last := n / 8;
    forall i: nat | i < last ensures ByteNo(more, i) == ByteNo(bits, i) { SameByte(bits, bit, 8 * i); }
    LastByte(bits, bit, 8 * last);
    OneOr(bits, bit, last);
    assert was[last] == ByteNo(bits, last);
    SetLast(was, last, n % 8);
    var put := if bit then OrBit(was, last, n % 8) else was;
    assert put[last] == ByteNo(more, last);
    assert now == put;
  }

  lemma {:induction false} SetLast(b: Bytes, i: int, k: nat)
    requires 0 <= i < |b| && k < 8
    ensures |OrBit(b, i, k)| == |b| && forall j :: 0 <= j < |b| && j != i ==> OrBit(b, i, k)[j] == b[j]
    ensures !BitOf(b[i], k) && b[i] as int + Weight(k) < 0x100 ==> OrBit(b, i, k)[i] == b[i] as int + Weight(k)
  {
    hide BitOf, Weight;
  }

  /** Putting in a bit that is clear adds its weight. */
  lemma {:induction false} OneOr(bits: seq<bool>, bit: bool, i: nat)
    requires i == |bits| / 8
    ensures !BitOf(ByteNo(bits, i), |bits| % 8)
    ensures ByteNo(bits + [bit], i) as int == ByteNo(bits, i) as int + if bit then Weight(|bits| % 8) else 0
    ensures ByteNo(bits, i) as int + Weight(|bits| % 8) < 0x100
    ensures |bits| % 8 == 0 ==> ByteNo(bits, i) == 0
  {
    hide ByteFrom, BitOf, Weight;
    BitBack(bits, 8 * i, |bits| % 8);
    LastByte(bits, bit, 8 * i);
    LastByte(bits, true, 8 * i);
  }

  lemma {:induction false} SameByte(bits: seq<bool>, bit: bool, i: nat)
    requires i + 8 <= |bits|
    ensures ByteFrom(bits + [bit], i) == ByteFrom(bits, i)
  {
    forall k: nat | k < |bits| ensures One(bits + [bit], k) == One(bits, k) {}
    SameOnes(bits, bit, i);
  }

  lemma {:induction false} SameOnes(bits: seq<bool>, bit: bool, i: nat)
    requires forall k: nat :: i <= k < i + 8 ==> One(bits + [bit], k) == One(bits, k)
    ensures ByteFrom(bits + [bit], i) == ByteFrom(bits, i)
  {
    hide One;
  }

  lemma {:induction false} LastByte(bits: seq<bool>, bit: bool, i: nat)
    requires i <= |bits| < i + 8
    ensures ByteFrom(bits + [bit], i) as int == ByteFrom(bits, i) as int + if bit then Weight(|bits| - i) else 0
    ensures i == |bits| ==> ByteFrom(bits, i) == 0 && Weight(0) == 0x80
  {
    var more := bits + [bit];
    forall k: nat | k != |bits| ensures One(more, k) == One(bits, k) {}
    assert One(more, |bits|) == if bit then 1 else 0;
    assert One(bits, |bits|) == 0;
  }

  class BitWriter {
    var bytes: Bytes
    var nbits: nat
    ghost var bits: seq<bool>

    ghost predicate Valid()
      reads this
    {
      nbits == |bits| && bytes == Pack(bits)
    }

    constructor ()
      ensures Valid() && bits == []
    {
      bytes, nbits, bits := [], 0, [];
    }

    /** One bit more, into the last byte or a new one. */
    method WriteBit(b: bool)
      requires Valid()
      modifies this
      ensures Valid() && bits == old(bits) + [b]
    {
      hide Pack, OrBit;
      PackMore(bits, b);
      if nbits % 8 == 0 {
        bytes := bytes + [0];
      }
      if b { bytes := OrBit(bytes, |bytes| - 1, nbits % 8); }
      bits, nbits := bits + [b], nbits + 1;
    }

    /** The n low bits of v, the highest first. */
    method WriteBits(v: nat, n: nat)
      requires Valid()
      modifies this
      ensures Valid() && bits == old(bits) + BitsOf(v, n)
    {
      var i := n;
      ghost var was := bits;
      while i > 0
        invariant 0 <= i <= n && Valid() && bits == was + BitsOf(Shifted(v, i), n - i)
      {
        i := i - 1;
        ShiftOne(v, i);
        WriteBit(Shifted(v, i) % 2 == 1);
      }
    }
  }

  /** v shifted right by i. */
  function Shifted(v: nat, i: nat): nat { if i == 0 then v else Shifted(v, i - 1) / 2 }

  lemma {:induction false} ShiftOne(v: nat, i: nat)
    ensures Shifted(v, i + 1) == Shifted(v, i) / 2
  {
  }

  function BitsOf(v: nat, n: nat): (r: seq<bool>)
    ensures |r| == n
  {
    if n == 0 then [] else BitsOf(v / 2, n - 1) + [v % 2 == 1]
  }

  // ----- reading -----

  /** The bits at pos are these. */
  ghost predicate Holds(b: Bytes, pos: nat, bits: seq<bool>) {
    forall k: nat :: k < |bits| ==> BitAt(b, pos + k) == bits[k]
  }

  /** n bits from pos on, the highest first. */
  function NumAt(b: Bytes, pos: nat, n: nat): nat {
    if n == 0 then 0 else 2 * NumAt(b, pos, n - 1) + if BitAt(b, pos + n - 1) then 1 else 0
  }

  function Pow2(n: nat): (r: nat)
    ensures r >= 1
  {
    if n == 0 then 1 else 2 * Pow2(n - 1)
  }

  lemma {:induction false} NumBack(b: Bytes, pos: nat, v: nat, n: nat)
    requires Holds(b, pos, BitsOf(v, n)) && v < Pow2(n)
    ensures NumAt(b, pos, n) == v
  {
    hide BitAt;
    if n > 0 {
      var bits := BitsOf(v / 2, n - 1);
      assert BitsOf(v, n) == bits + [v % 2 == 1];
      assert BitAt(b, pos + (n - 1)) == BitsOf(v, n)[n - 1];
      forall k: nat | k < |bits| ensures BitAt(b, pos + k) == bits[k] { assert BitsOf(v, n)[k] == bits[k]; }
      NumBack(b, pos, v / 2, n - 1);
    }
  }

  lemma {:induction false} HoldsParts(b: Bytes, pos: nat, x: seq<bool>, y: seq<bool>)
    requires Holds(b, pos, x + y)
    ensures Holds(b, pos, x) && Holds(b, pos + |x|, y)
  {
    hide BitAt;
    forall k: nat | k < |x| ensures BitAt(b, pos + k) == x[k] { assert (x + y)[k] == x[k]; }
    forall k: nat | k < |y| ensures BitAt(b, pos + |x| + k) == y[k] {
      assert (x + y)[|x| + k] == y[k];
      assert BitAt(b, pos + (|x| + k)) == (x + y)[|x| + k];
    }
  }

  class BitReader {
    const b: Bytes
    var consumed: nat

    constructor (b: Bytes)
      ensures this.b == b && consumed == 0
    {
      this.b, consumed := b, 0;
    }

    /** The next bit; past the end of the buffer a clear one. */
    method Bit() returns (x: bool)
      modifies this
      ensures x == BitAt(b, old(consumed)) && consumed == old(consumed) + 1
    {
      var idx := consumed / 8;
      var off := consumed % 8;
      consumed := consumed + 1;
      if idx >= |b| { return false; }
      return BitOf(b[idx], off);
    }

    /** The next n bits, the highest first. */
    method Bits(n: nat) returns (v: nat)
      modifies this
      ensures v == NumAt(b, old(consumed), n) && consumed == old(consumed) + n
    {
      v := 0;
      ghost var pos := consumed;
      for i := 0 to n
        invariant v == NumAt(b, pos, i) && consumed == pos + i
      {
        var x := Bit();
        v := 2 * v + if x then 1 else 0;
      }
    }
  }
}
