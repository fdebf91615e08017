/** Postcard's variable-length integers, and a cursor over a byte buffer. */
module Varints {
  import opened Common

  type Byte = x: int | 0 <= x < 0x100
  type Bytes = seq<Byte>

  const TWO63 := 0x8000_0000_0000_0000
  const TWO64 := 0x1_0000_0000_0000_0000

  predicate IsU64(v: int) { 0 <= v < TWO64 }

  predicate IsI64(v: int) { -TWO63 <= v < TWO63 }

  datatype Fault = Overflow | Truncated | Malformed

  /** What reading the front of a buffer gives: a value and the rest, or an error. */
  datatype Taken<+T> = Got(value: T, rest: Bytes) | Bad(error: Fault)

  // ----- unsigned -----

  /** Seven bits a byte, the low ones first, the high bit set on all but the last. */
  function PutUvarint(v: nat): Bytes {
    if v < 0x80 then [v] else [0x80 + v % 0x80] + PutUvarint(v / 0x80)
  }

  /** Reads on from byte i of a varint: at most ten bytes, the tenth at most 1. */
  function TakeUvarint(b: Bytes, i: nat): Taken<nat> {
    if b == [] then Bad(Truncated)
    else if i == 10 then Bad(Overflow)
    else if b[0] < 0x80 then if i == 9 && b[0] > 1 then Bad(Overflow) else Got(b[0], b[1..])
    else
      match TakeUvarint(b[1..], i + 1)
      case Bad(e) => Bad(e)
      case Got(v, rest) => Got(b[0] - 0x80 + 0x80 * v, rest)
  }

  /** What is left of the 64 bits from byte i on. */
  function Room(i: nat): (r: nat)
    requires i <= 9
    ensures r >= if i == 9 then 2 else 0x100
    decreases 9 - i
  {
    if i == 9 then 2 else 0x80 * Room(i + 1)
  }

  /** Every unsigned value below 2^64 comes back, and reading stops at its last byte. */
  lemma {:induction false} UvarintBack(v: nat, i: nat, rest: Bytes)
    requires i <= 9 && v < Room(i)
    ensures TakeUvarint(PutUvarint(v) + rest, i) == Got(v, rest)
    decreases v
  {
    var b := PutUvarint(v) + rest;
    if v < 0x80 {
      assert b == [v] + rest;
    } else {
      var tail := PutUvarint(v / 0x80) + rest;
      assert b == [0x80 + v % 0x80] + tail;
      UvarintBack(v / 0x80, i + 1, rest);
    }
  }

  lemma {:induction false} WholeRoom()
    ensures Room(0) == TWO64
  {
    assert Room(8) == 0x100 && Room(7) == 0x8000 && Room(6) == 0x40_0000;
    assert Room(5) == 0x2000_0000 && Room(4) == 0x10_0000_0000;
    assert Room(3) == 0x800_0000_0000 && Room(2) == 0x4_0000_0000_0000;
  }

  lemma {:induction false} TakenFits(b: Bytes, i: nat)
    requires i <= 9 && TakeUvarint(b, i).Got?
    ensures TakeUvarint(b, i).value < Room(i) && |TakeUvarint(b, i).rest| < |b|
    decreases |b|
  {
    Eleventh(b[1..]);
    if b[0] >= 0x80 && i < 9 {
      TakenFits(b[1..], i + 1);
      var c: int, v := b[0], TakeUvarint(b[1..], i + 1).value;
      Fits(c - 0x80, v, Room(i + 1));
      assert TakeUvarint(b, i).value == c - 0x80 + 0x80 * v;
      assert Room(i) == 0x80 * Room(i + 1);
    }
  }

  lemma {:induction false} Eleventh(b: Bytes)
    ensures TakeUvarint(b, 10).Bad?
  {
  }

  lemma {:induction false} Fits(c: int, v: int, room: int)
    requires c < 0x80 && v < room
    ensures c + 0x80 * v < 0x80 * room
  {
  }

  // ----- signed -----

  /** Signed values folded onto unsigned ones: 0, -1, 1, -2, ... */
  function Zigzag(v: int): (u: nat)
    ensures IsI64(v) <==> u < TWO64
  {
    if v >= 0 then 2 * v else -2 * v - 1
  }

  function Unzigzag(u: nat): int { if u % 2 == 0 then u / 2 else -(u / 2) - 1 }

  function PutVarint(v: int): Bytes { PutUvarint(Zigzag(v)) }

  function TakeVarint(b: Bytes): Taken<int> {
    match TakeUvarint(b, 0)
    case Bad(e) => Bad(e)
    case Got(u, rest) => Got(Unzigzag(u), rest)
  }

  /** Unsigned and signed 64-bit values come back from in front of any bytes. */
  lemma {:induction false} VarintBack(v: int, rest: Bytes)
    ensures IsU64(v) ==> TakeUvarint(PutUvarint(v) + rest, 0) == Got(v, rest)
    ensures IsI64(v) ==> TakeVarint(PutVarint(v) + rest) == Got(v, rest)
  {
    WholeRoom();
    if IsU64(v) { UvarintBack(v, 0, rest); }
    if IsI64(v) { UvarintBack(Zigzag(v), 0, rest); }
  }

  lemma {:induction false} VarintShorter(b: Bytes)
    ensures TakeUvarint(b, 0).Got? ==> |TakeUvarint(b, 0).rest| < |b| && IsU64(TakeUvarint(b, 0).value)
    ensures TakeVarint(b).Got? ==> |TakeVarint(b).rest| < |b| && IsI64(TakeVarint(b).value)
  {
    WholeRoom();
    if TakeUvarint(b, 0).Got? { TakenFits(b, 0); }
  }

  lemma {:induction false} PutSize(v: nat)
    ensures |PutUvarint(v)| >= 1
  {
  }

  // ----- the loops -----

  /** Appends an unsigned value. */
  method AppendUvarint(dst: Bytes, v: nat) returns (r: Bytes)
    ensures r == dst + PutUvarint(v)
  {
    var left := v;
    r := dst;
    while left >= 0x80
      invariant r + PutUvarint(left) == dst + PutUvarint(v)
    {
      AppendStep(r, left);
      r := r + [left % 0x80 + 0x80];
      left := left / 0x80;
    }
    r := r + [left];
  }

  lemma {:induction false} AppendStep(r: Bytes, v: nat)
    requires v >= 0x80
    ensures r + [v % 0x80 + 0x80] + PutUvarint(v / 0x80) == r + PutUvarint(v)
  {
  }

  /** Appends a signed value. */
  method AppendVarint(dst: Bytes, v: int) returns (r: Bytes)
    ensures r == dst + PutVarint(v)
  {
    r := AppendUvarint(dst, Zigzag(v));
  }

  /** x with v, shifted to its place, put in above it. */
  function Or(x: nat, v: nat, scale: nat): nat { x + v * scale }

  /** What the bytes from i on add, all before them adding up to x. */
  function Lifted(x: nat, scale: nat, t: Taken<nat>): Taken<nat> {
    match t
    case Bad(e) => Bad(e)
    case Got(v, rest) => Got(Or(x, v, scale), rest)
  }

  function Scale(i: nat): nat { if i == 0 then 1 else 0x80 * Scale(i - 1) }

  lemma {:induction false} LiftStep(b: Bytes, i: nat, x: nat)
    requires i < |b| && i < 10 && b[i] >= 0x80
    ensures Lifted(x, Scale(i), TakeUvarint(b[i..], i)) ==
      Lifted(Or(x, b[i] as int - 0x80, Scale(i)), Scale(i + 1), TakeUvarint(b[i + 1..], i + 1))
    ensures Scale(i + 1) == 0x80 * Scale(i)
  {
    assert b[i..][1..] == b[i + 1..];
    match TakeUvarint(b[i + 1..], i + 1)
    case Bad(_) =>
    case Got(v, _) =>
      Spread(Scale(i), b[i] as int - 0x80, v);
  }

  lemma {:induction false} Spread(s: int, c: int, v: int)
    ensures (c + 0x80 * v) * s == c * s + v * (0x80 * s)
  {
  }

  /** A varint at the front of b: its value and how many bytes it takes. */
  method ReadUvarint(b: Bytes) returns (r: Result<nat, Fault>, n: nat)
    ensures match TakeUvarint(b, 0)
            case Bad(e) => r == Err(e)
            case Got(v, rest) => r == Ok(v) && n <= |b| && b[n..] == rest
  {
    hide TakeUvarint, Scale, Or;
    var x: nat, shift: nat := 0, 1;
    n := 0;
    LiftStart(b);
    for i := 0 to |b|
      invariant i <= 10 && shift == Scale(i)
      invariant TakeUvarint(b, 0) == Lifted(x, shift, TakeUvarint(b[i..], i))
    {
      var c: int := b[i];
      LastByte(b, i);
      if i == 10 { return Err(Overflow), 0; }
      if c < 0x80 {
        if i == 9 && c > 1 { return Err(Overflow), 0; }
        return Ok(Or(x, c, shift)), i + 1;
      }
      LiftStep(b, i, x);
      x := Or(x, c - 0x80, shift);
      shift := 0x80 * shift;
    }
    NoBytes(b[|b|..], |b|);
    return Err(Truncated), 0;
  }

  lemma {:induction false} LiftStart(b: Bytes)
    ensures Scale(0) == 1 && Lifted(0, 1, TakeUvarint(b[0..], 0)) == TakeUvarint(b, 0)
  {
    hide TakeUvarint;
    assert b[0..] == b;
  }

  lemma {:induction false} NoBytes(b: Bytes, i: nat)
    requires b == []
    ensures TakeUvarint(b, i) == Bad(Truncated)
  {
  }

  /** The byte that ends a varint, or one too many. */
  lemma {:induction false} LastByte(b: Bytes, i: nat)
    requires i < |b|
    ensures i == 10 ==> TakeUvarint(b[i..], i) == Bad(Overflow)
    ensures i != 10 && b[i] < 0x80 ==> TakeUvarint(b[i..], i) == if i == 9 && b[i] > 1 then Bad(Overflow) else Got(b[i], b[i + 1..])
  {
    assert b[i..][1..] == b[i + 1..];
  }

  /** A cursor over a byte buffer. */
  class Reader {
    const b: Bytes
    var i: nat

    ghost predicate Valid()
      reads this
    {
      i <= |b|
    }

    /** The unread tail. */
    function Rest(): Bytes
      requires i <= |b|
      reads this
    {
      b[i..]
    }

    constructor (b: Bytes)
      ensures Valid() && Rest() == b
    {
      this.b, i := b, 0;
    }

    function Remaining(): nat
      requires i <= |b|
      reads this
    {
      |b| - i
    }

    /** The next byte. */
    method Byte() returns (r: Result<Byte, Fault>)
      requires Valid()
      modifies this
      ensures Valid() && if old(Rest()) == [] then r == Err(Truncated) && Rest() == [] else r == Ok(old(Rest())[0]) && Rest() == old(Rest())[1..]
    {
      if i >= |b| { return Err(Truncated); }
      assert b[i..][1..] == b[i + 1..];
      r := Ok(b[i]);
      i := i + 1;
    }

    /** The next unsigned value. */
    method Uvarint() returns (r: Result<nat, Fault>)
      requires Valid()
      modifies this
      ensures Valid()
      ensures match TakeUvarint(old(Rest()), 0)
              case Bad(e) => r == Err(e) && Rest() == old(Rest())
              case Got(v, rest) => r == Ok(v) && Rest() == rest
    {
      hide TakeUvarint;
      var n;
      r, n := ReadUvarint(b[i..]);
      if r.Ok? { i := i + n; }
    }

    /** The next signed value. */
    method Varint() returns (r: Result<int, Fault>)
      requires Valid()
      modifies this
      ensures Valid()
      ensures match TakeVarint(old(Rest()))
              case Bad(e) => r == Err(e) && Rest() == old(Rest())
              case Got(v, rest) => r == Ok(v) && Rest() == rest
    {
      hide TakeUvarint;
      var u := Uvarint();
      match u {
        case Err(e) => return Err(e);
        case Ok(v) => return Ok(Unzigzag(v));
      }
    }

    /** The next n bytes. */
    method Take(n: int) returns (r: Result<Bytes, Fault>)
      requires Valid()
      modifies this
      ensures Valid()
      ensures if 0 <= n <= |old(Rest())| then r == Ok(old(Rest())[..n]) && Rest() == old(Rest())[n..] else r == Err(Truncated) && Rest() == old(Rest())
    {
      if n < 0 || n > |b| - i { return Err(Truncated); }
      assert b[i..][..n] == b[i..i + n] && b[i..][n..] == b[i + n..];
      r := Ok(b[i..i + n]);
      i := i + n;
    }
  }
}
