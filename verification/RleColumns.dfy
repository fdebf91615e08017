/** Run-length columns: repeats and literals, and alternating boolean runs. */
module RleColumns {
  import opened Common
  import opened Varints

  /** How many rows a column may decode to. */
  const MAX_ROWS := 0x10_0000

  // ----- what the encoder writes -----

  /** Where the run of equal values at i ends. */
  function RunEnd<T(==)>(vals: seq<T>, i: nat): (j: nat)
    requires i < |vals|
    ensures i < j <= |vals|
    ensures forall k :: i <= k < j ==> vals[k] == vals[i]
    decreases |vals| - i
  {
    if i + 1 < |vals| && vals[i + 1] == vals[i] then RunEnd(vals, i + 1) else i + 1
  }

  /** Where the values from i on that each stand alone end. */
  function LoneEnd<T(==)>(vals: seq<T>, i: nat): (j: nat)
    requires i <= |vals|
    ensures i <= j <= |vals|
    ensures i < |vals| && RunEnd(vals, i) < i + 2 ==> i < j
    decreases |vals| - i
  {
    if i < |vals| && RunEnd(vals, i) < i + 2 then LoneEnd(vals, i + 1) else i
  }

  function PutEach<T>(vals: seq<T>, put: T -> Bytes): Bytes {
    if vals == [] then [] else PutEach(vals[..|vals| - 1], put) + put(vals[|vals| - 1])
  }

  /** A run of two or more: its length and the value. Values that stand alone: minus their number and
      each of them. */
  function PutRle<T(==)>(vals: seq<T>, i: nat, put: T -> Bytes): Bytes
    requires i <= |vals|
    decreases |vals| - i
  {
    if i == |vals| then []
    else
      var j := RunEnd(vals, i);
      if j - i >= 2 then PutVarint(j - i) + put(vals[i]) + PutRle(vals, j, put)
      else
        var m := LoneEnd(vals, i);
        PutVarint(i - m) + PutEach(vals[i..m], put) + PutRle(vals, m, put)
  }

  // ----- what the decoder reads -----

  function Repeat<T>(v: T, n: nat): (r: seq<T>)
    ensures |r| == n && forall k :: 0 <= k < n ==> r[k] == v
  {
    if n == 0 then [] else Repeat(v, n - 1) + [v]
  }

  /** Values read, put before those read next. */
  function After<T>(got: seq<T>, t: Taken<seq<T>>): Taken<seq<T>> {
    match t
    case Bad(e) => Bad(e)
    case Got(vs, rest) => Got(got + vs, rest)
  }

  function TakeEach<T>(b: Bytes, n: nat, take: Bytes -> Taken<T>): Taken<seq<T>>
    decreases n
  {
    if n == 0 then Got([], b)
    else
      match take(b)
      case Bad(e) => Bad(e)
      case Got(v, rest) => After([v], TakeEach(rest, n - 1, take))
  }

  /** Exactly count rows; a run that would go past them is refused. */
  function TakeRle<T>(b: Bytes, count: nat, take: Bytes -> Taken<T>): Taken<seq<T>>
    decreases count
  {
    if count == 0 then Got([], b)
    else
      match TakeVarint(b)
      case Bad(e) => Bad(e)
      case Got(tok, r) =>
        if tok == 0 || Abs(tok) > count then Bad(Malformed)
        else if tok > 0 then
          match take(r)
          case Bad(e) => Bad(e)
          case Got(v, r2) => After(Repeat(v, tok), TakeRle(r2, count - tok, take))
        else
          match TakeEach(r, -tok, take)
          case Bad(e) => Bad(e)
          case Got(vs, r2) => After(vs, TakeRle(r2, count + tok, take))
  }

  function Abs(x: int): nat { if x < 0 then -x else x }

  // ----- round trip -----

  /** Written and read in front of any bytes, the value comes back. */
  ghost predicate Comes<T>(put: T -> Bytes, take: Bytes -> Taken<T>, v: T) {
    forall rest: Bytes :: take(put(v) + rest) == Got(v, rest)
  }

  lemma {:induction false} EachSplit<T>(vals: seq<T>, put: T -> Bytes)
    requires vals != []
    ensures PutEach(vals, put) == put(vals[0]) + PutEach(vals[1..], put)
  {
    var n := |vals| - 1;
    var x := put(vals[n]);
    if n == 0 {
      assert vals[..0] == [] && vals[1..] == [];
    } else {
      EachSplit(vals[..n], put);
      assert vals[..n][1..] == vals[1..][..n - 1];
      Swap3(put(vals[0]), PutEach(vals[1..][..n - 1], put), x);
    }
  }

  lemma {:induction false} Swap3(a: Bytes, b: Bytes, c: Bytes)
    ensures a + b + c == a + (b + c)
  {
  }

  lemma {:induction false} EachBack<T>(vals: seq<T>, put: T -> Bytes, take: Bytes -> Taken<T>, rest: Bytes)
    requires forall k :: 0 <= k < |vals| ==> Comes(put, take, vals[k])
    ensures TakeEach(PutEach(vals, put) + rest, |vals|, take) == Got(vals, rest)
  {
    hide Comes;
    if vals == [] {
      assert PutEach(vals, put) + rest == rest;
    } else {
      EachSplit(vals, put);
      var tail := PutEach(vals[1..], put) + rest;
      assert PutEach(vals, put) + rest == put(vals[0]) + tail;
      ComesBack(put, take, vals[0], tail);
      EachBack(vals[1..], put, take, rest);
      assert [vals[0]] + vals[1..] == vals;
    }
  }

  lemma {:induction false} ComesBack<T>(put: T -> Bytes, take: Bytes -> Taken<T>, v: T, rest: Bytes)
    requires Comes(put, take, v)
    ensures take(put(v) + rest) == Got(v, rest)
  {
  }

  /** What the run-length encoder writes, followed by any bytes, the counted decoder reads back, and
      stops exactly at its end. */
  lemma {:induction false} RleBack<T>(vals: seq<T>, i: nat, put: T -> Bytes, take: Bytes -> Taken<T>, rest: Bytes)
    requires i <= |vals| < TWO63 && forall k :: 0 <= k < |vals| ==> Comes(put, take, vals[k])
    ensures TakeRle(PutRle(vals, i, put) + rest, |vals| - i, take) == Got(vals[i..], rest)
    decreases |vals| - i
  {
    hide Comes, TakeVarint, PutVarint, RunEnd, LoneEnd;
    if i == |vals| {
      assert PutRle(vals, i, put) + rest == rest && vals[i..] == [];
    } else {
      var j := RunEnd(vals, i);
      if j - i >= 2 {
        RunBack(vals, i, j, put, take, rest);
      } else {
        LoneBack(vals, i, LoneEnd(vals, i), put, take, rest);
      }
    }
  }

  lemma {:induction false} RunBack<T>(vals: seq<T>, i: nat, j: nat, put: T -> Bytes, take: Bytes -> Taken<T>, rest: Bytes)
    requires i < |vals| < TWO63 && (forall k :: 0 <= k < |vals| ==> Comes(put, take, vals[k])) && j == RunEnd(vals, i) && j - i >= 2
    ensures TakeRle(PutRle(vals, i, put) + rest, |vals| - i, take) == Got(vals[i..], rest)
    decreases |vals| - i, 0
  {
    hide Comes, TakeVarint, PutVarint, RunEnd, PutRle, TakeRle, Repeat;
    var tail := PutRle(vals, j, put) + rest;
    PutRun(vals, i, put);
    Regroup(PutVarint(j - i), put(vals[i]), PutRle(vals, j, put), rest);
    VarintBack(j - i, put(vals[i]) + tail);
    ComesBack(put, take, vals[i], tail);
    TakeRun(PutRle(vals, i, put) + rest, |vals| - i, take, j - i, put(vals[i]) + tail, vals[i], tail);
    RleBack(vals, j, put, take, rest);
    RepeatThen(vals, i, j, vals[i]);
  }

  lemma {:induction false} RepeatThen<T>(vals: seq<T>, i: nat, j: nat, v: T)
    requires i <= j <= |vals| && forall k :: i <= k < j ==> vals[k] == v
    ensures Repeat(v, j - i) + vals[j..] == vals[i..]
  {
    hide Repeat;
  }

  lemma {:induction false} Regroup(a: Bytes, b: Bytes, c: Bytes, d: Bytes)
    ensures a + b + c + d == a + (b + (c + d))
  {
  }

  lemma {:induction false} PutRun<T>(vals: seq<T>, i: nat, put: T -> Bytes)
    requires i < |vals| && RunEnd(vals, i) - i >= 2
    ensures PutRle(vals, i, put) == PutVarint(RunEnd(vals, i) - i) + put(vals[i]) + PutRle(vals, RunEnd(vals, i), put)
  {
    hide PutVarint, RunEnd;
  }

  lemma {:induction false} PutLone<T>(vals: seq<T>, i: nat, put: T -> Bytes)
    requires i < |vals| && RunEnd(vals, i) - i < 2
    ensures var m := LoneEnd(vals, i);
      i < m && PutRle(vals, i, put) == PutVarint(i - m) + PutEach(vals[i..m], put) + PutRle(vals, m, put)
  {
    hide PutVarint, RunEnd, LoneEnd, PutEach;
  }

  lemma {:induction false} TakeRun<T>(b: Bytes, count: nat, take: Bytes -> Taken<T>, tok: nat, r: Bytes, v: T, r2: Bytes)
    requires TakeVarint(b) == Got(tok, r) && 0 < tok <= count && take(r) == Got(v, r2)
    ensures TakeRle(b, count, take) == After(Repeat(v, tok), TakeRle(r2, count - tok, take))
  {
    hide TakeVarint, Repeat;
  }

  lemma {:induction false} TakeLone<T>(b: Bytes, count: nat, take: Bytes -> Taken<T>, n: int, r: Bytes, vs: seq<T>, r2: Bytes)
    requires TakeVarint(b) == Got(-n, r) && 0 < n <= count && TakeEach(r, n, take) == Got(vs, r2)
    ensures TakeRle(b, count, take) == After(vs, TakeRle(r2, count - n, take))
  {
    hide TakeVarint, TakeEach;
  }

  lemma {:induction false} LoneBack<T>(vals: seq<T>, i: nat, m: nat, put: T -> Bytes, take: Bytes -> Taken<T>, rest: Bytes)
    requires i < |vals| < TWO63 && (forall k :: 0 <= k < |vals| ==> Comes(put, take, vals[k]))
    requires m == LoneEnd(vals, i) && RunEnd(vals, i) < i + 2
    ensures TakeRle(PutRle(vals, i, put) + rest, |vals| - i, take) == Got(vals[i..], rest)
    decreases |vals| - i, 0
  {
    hide Comes, TakeVarint, PutVarint, RunEnd, LoneEnd, PutRle, TakeRle, PutEach, TakeEach;
    PutLone(vals, i, put);
    var each, tail := PutEach(vals[i..m], put), PutRle(vals, m, put) + rest;
    Regroup(PutVarint(i - m), each, PutRle(vals, m, put), rest);
    VarintBack(i - m, each + tail);
    EachBack(vals[i..m], put, take, tail);
    TakeLone(PutRle(vals, i, put) + rest, |vals| - i, take, m - i, each + tail, vals[i..m], tail);
    RleBack(vals, m, put, take, rest);
    assert vals[i..m] + vals[m..] == vals[i..];
  }

  // ----- the loops -----

  /** Maximal runs of equal values, and stretches of values that stand alone. */
  method EncodeRle<T(==)>(vals: seq<T>, put: T -> Bytes) returns (out: Bytes)
    ensures out == PutRle(vals, 0, put)
  {
    hide PutVarint, RunEnd, LoneEnd, PutRle, PutEach;
    out := [];
    var n, i := |vals|, 0;
    while i < n
      invariant 0 <= i <= n && out + PutRle(vals, i, put) == PutRle(vals, 0, put)
    {
      var j := FindRunEnd(vals, i);
      if j - i >= 2 {
        RunStep(out, vals, i, put);
        out := AppendVarint(out, j - i);
        out := out + put(vals[i]);
        i := j;
        continue;
      }
      var start := i;
      i := FindLoneEnd(vals, i);
      LoneStep(out, vals, start, put);
      out := AppendVarint(out, -(i - start));
      out := WriteEach(out, vals[start..i], put);
    }
    NoRows(vals, put);
  }

  lemma {:induction false} NoRows<T>(vals: seq<T>, put: T -> Bytes)
    ensures PutRle(vals, |vals|, put) == []
  {
  }

  /** Writes values one by one. */
  method WriteEach<T>(dst: Bytes, vals: seq<T>, put: T -> Bytes) returns (out: Bytes)
    ensures out == dst + PutEach(vals, put)
  {
    out := dst;
    for x := 0 to |vals|
      invariant out == dst + PutEach(vals[..x], put)
    {
      assert vals[..x + 1][..x] == vals[..x];
      out := out + put(vals[x]);
    }
    assert vals[..|vals|] == vals;
  }

  /** Where the run of equal values at i ends. */
  method FindRunEnd<T(==)>(vals: seq<T>, i: nat) returns (j: nat)
    requires i < |vals|
    ensures j == RunEnd(vals, i)
  {
    j := i + 1;
    while j < |vals| && vals[j] == vals[i]
      invariant i < j <= |vals| && vals[j - 1] == vals[i] && RunEnd(vals, i) == RunEnd(vals, j - 1)
    {
      j := j + 1;
    }
  }

  /** Where the values from start on that each stand alone end. */
  method FindLoneEnd<T(==)>(vals: seq<T>, start: nat) returns (i: nat)
    requires start <= |vals|
    ensures i == LoneEnd(vals, start)
  {
    hide RunEnd;
    i := start;
    while i < |vals|
      invariant start <= i <= |vals| && LoneEnd(vals, start) == LoneEnd(vals, i)
    {
      var k := FindRunEnd(vals, i);
      if k - i >= 2 { break; }
      i := i + 1;
    }
  }

  lemma {:induction false} RunStep<T>(out: Bytes, vals: seq<T>, i: nat, put: T -> Bytes)
    requires i < |vals| && RunEnd(vals, i) - i >= 2
    ensures out + PutRle(vals, i, put) == out + PutVarint(RunEnd(vals, i) - i) + put(vals[i]) + PutRle(vals, RunEnd(vals, i), put)
  {
    hide PutVarint, RunEnd, PutRle;
    PutRun(vals, i, put);
    Regroup(out, PutVarint(RunEnd(vals, i) - i), put(vals[i]), PutRle(vals, RunEnd(vals, i), put));
  }

  lemma {:induction false} LoneStep<T>(out: Bytes, vals: seq<T>, i: nat, put: T -> Bytes)
    requires i < |vals| && RunEnd(vals, i) - i < 2
    ensures var m := LoneEnd(vals, i);
      i < m && out + PutRle(vals, i, put) == out + PutVarint(i - m) + PutEach(vals[i..m], put) + PutRle(vals, m, put)
  {
    hide PutVarint, RunEnd, LoneEnd, PutRle, PutEach;
    PutLone(vals, i, put);
    var m := LoneEnd(vals, i);
    Regroup(out, PutVarint(i - m), PutEach(vals[i..m], put), PutRle(vals, m, put));
  }

  function TakeU64(b: Bytes): Taken<nat> { TakeUvarint(b, 0) }

  function PutU64(v: nat): Bytes { PutUvarint(v) }

  lemma {:induction false} U64Comes(v: nat)
    requires IsU64(v)
    ensures Comes(PutU64, TakeU64, v)
  {
    forall rest: Bytes ensures TakeU64(PutU64(v) + rest) == Got(v, rest) { VarintBack(v, rest); }
  }

  lemma {:induction false} I64Comes(v: int)
    requires IsI64(v)
    ensures Comes(PutVarint, TakeVarint, v)
  {
    forall rest: Bytes ensures TakeVarint(PutVarint(v) + rest) == Got(v, rest) { VarintBack(v, rest); }
  }

  /** Reads exactly count unsigned values. */
  method AnyRleNU64(r: Reader, count: int) returns (res: Result<seq<nat>, Fault>)
    requires r.Valid()
    modifies r
    ensures r.Valid()
    ensures count < 0 || count > MAX_ROWS ==> res == Err(Malformed)
    ensures 0 <= count <= MAX_ROWS ==>
      match TakeRle(old(r.Rest()), count, TakeU64)
      case Bad(e) => res == Err(e)
      case Got(vs, rest) => res == Ok(vs) && r.Rest() == rest
  {
    hide TakeVarint, TakeUvarint, TakeEach;
    if count < 0 || count > MAX_ROWS { return Err(Malformed); }
    var out: seq<nat> := [];
    ghost var b0 := r.Rest();
    NothingAfter(TakeRle(b0, count, TakeU64));
    while |out| < count
      invariant r.Valid() && |out| <= count
      invariant TakeRle(b0, count, TakeU64) == After(out, TakeRle(r.Rest(), count - |out|, TakeU64))
    {
      ghost var b := r.Rest();
      ghost var next := TakeRle(b, count - |out|, TakeU64);
      var t := r.Varint();
      match t {
        case Err(e) => return Err(e);
        case Ok(tok) =>
          if tok > 0 {
            if tok > count - |out| { return Err(Malformed); }
            var u := r.Uvarint();
            match u {
              case Err(e) => return Err(e);
              case Ok(v) =>
                AfterTwice(out, Repeat(v, tok), TakeRle(r.Rest(), count - |out| - tok, TakeU64));
                out := out + Repeat(v, tok);
            }
          } else if tok < 0 {
            if -tok > count - |out| { return Err(Malformed); }
            var l := Literals(r, -tok);
            match l {
              case Err(e) => return Err(e);
              case Ok(vs) =>
                AfterTwice(out, vs, TakeRle(r.Rest(), count - |out| + tok, TakeU64));
                out := out + vs;
            }
          } else {
            return Err(Malformed);
          }
      }
    }
    NoneLeft(out, r.Rest());
    return Ok(out);
  }

  /** Reads n values one by one. */
  method Literals(r: Reader, n: nat) returns (res: Result<seq<nat>, Fault>)
    requires r.Valid()
    modifies r
    ensures r.Valid()
    ensures match TakeEach(old(r.Rest()), n, TakeU64)
            case Bad(e) => res == Err(e)
            case Got(vs, rest) => res == Ok(vs) && r.Rest() == rest && |vs| == n
  {
    hide TakeUvarint;
    var out: seq<nat> := [];
    ghost var b0 := r.Rest();
    NothingAfter(TakeEach(b0, n, TakeU64));
    for i := 0 to n
      invariant r.Valid() && |out| == i && TakeEach(b0, n, TakeU64) == After(out, TakeEach(r.Rest(), n - i, TakeU64))
    {
      var u := r.Uvarint();
      match u {
        case Err(e) => return Err(e);
        case Ok(v) =>
          AfterTwice(out, [v], TakeEach(r.Rest(), n - i - 1, TakeU64));
          out := out + [v];
      }
    }
    NoneLeft(out, r.Rest());
    return Ok(out);
  }

  lemma {:induction false} AfterTwice<T>(a: seq<T>, b: seq<T>, t: Taken<seq<T>>)
    ensures After(a, After(b, t)) == After(a + b, t)
  {
    match t
    case Bad(_) =>
    case Got(vs, _) => assert a + (b + vs) == a + b + vs;
  }

  lemma {:induction false} NothingAfter<T>(t: Taken<seq<T>>)
    ensures After([], t) == t
  {
    match t
    case Bad(_) =>
    case Got(vs, _) => assert [] + vs == vs;
  }

  lemma {:induction false} NoneLeft<T>(out: seq<T>, b: Bytes)
    ensures After(out, Got([], b)) == Got(out, b)
  {
    assert out + [] == out;
  }

  // ----- booleans -----

  /** Where the values equal to cur, from i on, end. */
  function SameEnd(vals: seq<bool>, i: nat, cur: bool): (j: nat)
    requires i <= |vals|
    ensures i <= j <= |vals| && (i < |vals| && vals[i] == cur ==> i < j) && (j < |vals| ==> vals[j] == !cur)
    ensures forall k :: i <= k < j ==> vals[k] == cur
    decreases |vals| - i
  {
    if i < |vals| && vals[i] == cur then SameEnd(vals, i + 1, cur) else i
  }

  /** Lengths of alternating runs. */
  function PutBools(vals: seq<bool>, i: nat, cur: bool): Bytes
    requires i <= |vals|
    decreases |vals| - i, i < |vals| && vals[i] != cur
  {
    if i == |vals| then []
    else
      var j := SameEnd(vals, i, cur);
      PutUvarint(j - i) + PutBools(vals, j, !cur)
  }

  function TakeBools(b: Bytes, count: nat, cur: bool): Taken<seq<bool>>
    decreases |b|
  {
    if count == 0 then Got([], b)
    else
      match TakeUvarint(b, 0)
      case Bad(e) => Bad(e)
      case Got(n, rest) =>
        VarintShorter(b);
        if n > count then Bad(Malformed) else After(Repeat(cur, n), TakeBools(rest, count - n, !cur))
  }

  /** What the boolean encoder writes, followed by any bytes, the counted decoder reads back. */
  lemma {:induction false} BoolsBack(vals: seq<bool>, i: nat, cur: bool, rest: Bytes)
    requires i <= |vals| < TWO63
    ensures TakeBools(PutBools(vals, i, cur) + rest, |vals| - i, cur) == Got(vals[i..], rest)
    decreases |vals| - i, i < |vals| && vals[i] != cur
  {
    hide TakeUvarint, PutUvarint, SameEnd;
    if i == |vals| {
      assert PutBools(vals, i, cur) + rest == rest && vals[i..] == [];
    } else {
      var j := SameEnd(vals, i, cur);
      BoolRun(vals, i, cur, j, rest);
      BoolsBack(vals, j, !cur, rest);
      RepeatThen(vals, i, j, cur);
    }
  }

  lemma {:induction false} BoolRun(vals: seq<bool>, i: nat, cur: bool, j: nat, rest: Bytes)
    requires i < |vals| < TWO63 && j == SameEnd(vals, i, cur)
    ensures TakeBools(PutBools(vals, i, cur) + rest, |vals| - i, cur) ==
      After(Repeat(cur, j - i), TakeBools(PutBools(vals, j, !cur) + rest, |vals| - j, !cur))
  {
    hide TakeUvarint, PutUvarint, SameEnd, Repeat;
    var tail := PutBools(vals, j, !cur) + rest;
    assert PutBools(vals, i, cur) + rest == PutUvarint(j - i) + tail;
    VarintBack(j - i, tail);
  }

  /** Lengths of alternating runs, starting from false. */
  method EncodeBoolRle(vals: seq<bool>) returns (out: Bytes)
    ensures out == PutBools(vals, 0, false)
  {
    hide PutUvarint, SameEnd;
    out := [];
    var cur, i := false, 0;
    while i < |vals|
      invariant 0 <= i <= |vals| && out + PutBools(vals, i, cur) == PutBools(vals, 0, false)
      decreases |vals| - i, i < |vals| && vals[i] != cur
    {
      var start, cnt := i, 0;
      while i < |vals| && vals[i] == cur
        invariant start <= i <= |vals| && cnt == i - start && SameEnd(vals, start, cur) == SameEnd(vals, i, cur)
      {
        SameNext(vals, i, cur);
        cnt := cnt + 1;
        i := i + 1;
      }
      SameNext(vals, i, cur);
      BoolStep(out, vals, start, cur);
      out := AppendUvarint(out, cnt);
      cur := !cur;
    }
  }

  lemma {:induction false} SameNext(vals: seq<bool>, i: nat, cur: bool)
    requires i <= |vals|
    ensures SameEnd(vals, i, cur) == if i < |vals| && vals[i] == cur then SameEnd(vals, i + 1, cur) else i
  {
  }

  lemma {:induction false} BoolStep(out: Bytes, vals: seq<bool>, i: nat, cur: bool)
    requires i < |vals|
    ensures var j := SameEnd(vals, i, cur); out + PutBools(vals, i, cur) == out + PutUvarint(j - i) + PutBools(vals, j, !cur)
  {
    hide PutUvarint, SameEnd;
  }

  /** Reads exactly count booleans. */
  method BoolRleN(r: Reader, count: int) returns (res: Result<seq<bool>, Fault>)
    requires r.Valid()
    modifies r
    ensures r.Valid()
    ensures count < 0 || count > MAX_ROWS ==> res == Err(Malformed)
    ensures 0 <= count <= MAX_ROWS ==>
      match TakeBools(old(r.Rest()), count, false)
      case Bad(e) => res == Err(e)
      case Got(vs, rest) => res == Ok(vs) && r.Rest() == rest
  {
    hide TakeUvarint;
    if count < 0 || count > MAX_ROWS { return Err(Malformed); }
    var out: seq<bool>, cur := [], false;
    ghost var b0 := r.Rest();
    NothingAfter(TakeBools(b0, count, false));
    while |out| < count
      invariant r.Valid() && |out| <= count
      invariant TakeBools(b0, count, false) == After(out, TakeBools(r.Rest(), count - |out|, cur))
      decreases |r.Rest()|
    {
      VarintShorter(r.Rest());
      var u := r.Uvarint();
      match u {
        case Err(e) => return Err(e);
        case Ok(n) =>
          if n > count - |out| { return Err(Malformed); }
          AfterTwice(out, Repeat(cur, n), TakeBools(r.Rest(), count - |out| - n, !cur));
          out := out + Repeat(cur, n);
          cur := !cur;
      }
    }
    NoneLeft(out, r.Rest());
    return Ok(out);
  }
}
