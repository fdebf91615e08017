/** Columns that fill their whole buffer: no count is given, reading goes on to the end. */
module WholeColumns {
  import opened Common
  import opened Varints
  import opened RleColumns
  import opened DeltaColumns

  /** Runs and literals up to the end of b; a repeat past the row limit is refused. */
  function TakeAll(b: Bytes, have: nat): Taken<seq<int>>
    decreases |b|
  {
    if b == [] then Got([], b)
    else
      match TakeVarint(b)
      case Bad(e) => Bad(e)
      case Got(tok, r) =>
        VarintShorter(b);
        if tok > 0 then
          if tok > MAX_ROWS || have + tok > MAX_ROWS then Bad(Malformed)
          else
            match TakeVarint(r)
            case Bad(e) => Bad(e)
            case Got(v, r2) => VarintShorter(r); After(Repeat(v, tok), TakeAll(r2, have + tok))
        else if tok < 0 then
          match TakeEach(r, -tok, TakeVarint)
          case Bad(e) => Bad(e)
          case Got(vs, r2) => EachShorter(r, -tok); After(vs, TakeAll(r2, have + -tok))
        else Bad(Malformed)
  }

  lemma {:induction false} EachShorter(b: Bytes, n: nat)
    ensures TakeEach(b, n, TakeVarint).Got? ==> |TakeEach(b, n, TakeVarint).rest| <= |b| && |TakeEach(b, n, TakeVarint).value| == n
    decreases n
  {
    hide TakeVarint;
    if n > 0 {
      VarintShorter(b);
      if TakeVarint(b).Got? { EachShorter(TakeVarint(b).rest, n - 1); }
    }
  }

  /** A whole column of signed values, up to the row limit, comes back. */
  lemma {:induction false} AllBack(vals: seq<int>, i: nat, have: nat)
    requires i <= |vals| && AllI64(vals) && have + |vals| - i <= MAX_ROWS
    ensures TakeAll(PutRle(vals, i, PutVarint), have) == Got(vals[i..], [])
    decreases |vals| - i
  {
    hide TakeVarint, PutVarint, RunEnd, LoneEnd, TakeAll, PutRle;
    if i == |vals| {
      NoRows(vals, PutVarint);
      AllRead([], have);
      assert vals[i..] == [];
    } else if RunEnd(vals, i) - i >= 2 {
      AllRunBack(vals, i, RunEnd(vals, i), have);
    } else {
      AllLoneBack(vals, i, LoneEnd(vals, i), have);
    }
  }

  lemma {:induction false} AllRead(b: Bytes, have: nat)
    ensures b == [] ==> TakeAll(b, have) == Got([], b)
  {
  }

  lemma {:induction false} TakeAllRun(b: Bytes, have: nat, tok: nat, r: Bytes, v: int, r2: Bytes)
    requires b != [] && TakeVarint(b) == Got(tok, r) && 0 < tok && have + tok <= MAX_ROWS && TakeVarint(r) == Got(v, r2)
    ensures TakeAll(b, have) == After(Repeat(v, tok), TakeAll(r2, have + tok))
  {
    hide TakeVarint, Repeat;
  }

  lemma {:induction false} TakeAllLone(b: Bytes, have: nat, n: int, r: Bytes, vs: seq<int>, r2: Bytes)
    requires b != [] && TakeVarint(b) == Got(-n, r) && 0 < n && TakeEach(r, n, TakeVarint) == Got(vs, r2)
    ensures TakeAll(b, have) == After(vs, TakeAll(r2, have + n))
  {
    hide TakeVarint, TakeEach;
  }

  lemma {:induction false} AllRunBack(vals: seq<int>, i: nat, j: nat, have: nat)
    requires i < |vals| && AllI64(vals) && have + |vals| - i <= MAX_ROWS && j == RunEnd(vals, i) && j - i >= 2
    ensures TakeAll(PutRle(vals, i, PutVarint), have) == Got(vals[i..], [])
    decreases |vals| - i, 0
  {
    hide TakeVarint, PutVarint, RunEnd, PutRle, TakeAll, Repeat;
    var tail := PutRle(vals, j, PutVarint);
    PutRun(vals, i, PutVarint);
    var head := PutVarint(j - i);
    assert head + PutVarint(vals[i]) + tail == head + (PutVarint(vals[i]) + tail);
    VarintBack(j - i, PutVarint(vals[i]) + tail);
    VarintBack(vals[i], tail);
    SomeBytes(j - i, PutVarint(vals[i]) + tail);
    TakeAllRun(PutRle(vals, i, PutVarint), have, j - i, PutVarint(vals[i]) + tail, vals[i], tail);
    AllBack(vals, j, have + (j - i));
    RepeatThen(vals, i, j, vals[i]);
  }

  lemma {:induction false} AllLoneBack(vals: seq<int>, i: nat, m: nat, have: nat)
    requires i < |vals| && AllI64(vals) && have + |vals| - i <= MAX_ROWS && m == LoneEnd(vals, i) && RunEnd(vals, i) - i < 2
    ensures TakeAll(PutRle(vals, i, PutVarint), have) == Got(vals[i..], [])
    decreases |vals| - i, 0
  {
    hide TakeVarint, PutVarint, RunEnd, LoneEnd, PutRle, TakeAll, PutEach, TakeEach;
    PutLone(vals, i, PutVarint);
    var each, tail := PutEach(vals[i..m], PutVarint), PutRle(vals, m, PutVarint);
    var head := PutVarint(i - m);
    assert head + each + tail == head + (each + tail);
    VarintBack(i - m, each + tail);
    SomeBytes(i - m, each + tail);
    forall k | 0 <= k < m - i ensures Comes(PutVarint, TakeVarint, vals[i..m][k]) { I64Comes(vals[i + k]); }
    EachBack(vals[i..m], PutVarint, TakeVarint, tail);
    TakeAllLone(PutRle(vals, i, PutVarint), have, m - i, each + tail, vals[i..m], tail);
    AllBack(vals, m, have + (m - i));
    assert vals[i..m] + vals[m..] == vals[i..];
  }

  lemma {:induction false} SomeBytes(v: int, rest: Bytes)
    ensures PutVarint(v) + rest != []
  {
    PutSize(Zigzag(v));
  }

  // ----- first-order differences -----

  /** Differences from 0 on, wrapping. */
  function Deltas(vals: seq<int>): (d: seq<int>)
    ensures |d| == |vals| && AllI64(d)
  {
    if vals == [] then []
    else
      var n := |vals| - 1;
      Deltas(vals[..n]) + [Wrap(vals[n] - if n == 0 then 0 else vals[n - 1])]
  }

  /** Running sums, wrapping. */
  function Sums(d: seq<int>): (s: seq<int>)
    ensures |s| == |d|
  {
    if d == [] then []
    else
      var n := |d| - 1;
      var before := Sums(d[..n]);
      before + [Wrap((if n == 0 then 0 else before[n - 1]) + d[n])]
  }

  lemma {:induction false} SumsBack(vals: seq<int>)
    requires AllI64(vals)
    ensures Sums(Deltas(vals)) == vals
  {
    hide Wrap;
    if vals != [] {
      var n := |vals| - 1;
      SumsBack(vals[..n]);
      var d := Deltas(vals);
      assert d[..n] == Deltas(vals[..n]);
      WrapBack(vals[n], if n == 0 then 0 else vals[n - 1]);
    }
  }

  function PutDeltaRle(vals: seq<int>): Bytes { PutRle(Deltas(vals), 0, PutVarint) }

  function TakeDeltaRle(b: Bytes): Taken<seq<int>> {
    match TakeAll(b, 0)
    case Bad(e) => Bad(e)
    case Got(d, rest) => Got(Sums(d), rest)
  }

  /** Every sequence of 64-bit values within the row limit survives a delta column, wrapping or not. */
  lemma {:induction false} DeltaRleBack(vals: seq<int>)
    requires AllI64(vals) && |vals| <= MAX_ROWS
    ensures TakeDeltaRle(PutDeltaRle(vals)) == Got(vals, [])
  {
    hide TakeAll, PutRle;
    AllBack(Deltas(vals), 0, 0);
    assert Deltas(vals)[0..] == Deltas(vals);
    SumsBack(vals);
  }

  // ----- the loops -----

  /** First-order differences, run-length encoded. */
  method EncodeDeltaRle(vals: seq<int>) returns (out: Bytes)
    requires AllI64(vals)
    ensures out == PutDeltaRle(vals)
  {
    hide Wrap;
    var deltas: seq<int>, prev := [], 0;
    for i := 0 to |vals|
      invariant deltas == Deltas(vals[..i]) && prev == if i == 0 then 0 else vals[i - 1]
    {
      assert vals[..i + 1][..i] == vals[..i];
      deltas := deltas + [Wrap(vals[i] - prev)];
      prev := vals[i];
    }
    assert vals[..|vals|] == vals;
    out := EncodeRle(deltas, PutVarint);
  }

  /** Reads a whole column of signed values. */
  method DecodeAnyRle(col: Bytes) returns (res: Result<seq<int>, Fault>)
    ensures match TakeAll(col, 0)
            case Bad(e) => res == Err(e)
            case Got(vs, _) => res == Ok(vs)
  {
    hide TakeVarint, TakeEach;
    var r := new Reader(col);
    var out: seq<int> := [];
    NothingAfter(TakeAll(col, 0));
    while r.Remaining() > 0
      invariant fresh(r) && r.Valid() && TakeAll(col, 0) == After(out, TakeAll(r.Rest(), |out|))
      decreases |r.Rest()|
    {
      VarintShorter(r.Rest());
      var t := r.Varint();
      if t.Err? { return Err(t.error); }
      var tok := t.value;
      if tok > 0 {
        if tok > MAX_ROWS || |out| + tok > MAX_ROWS { return Err(Malformed); }
        VarintShorter(r.Rest());
        var v := r.Varint();
        if v.Err? { return Err(v.error); }
        AfterTwice(out, Repeat(v.value, tok), TakeAll(r.Rest(), |out| + tok));
        out := out + Repeat(v.value, tok);
      } else if tok < 0 {
        EachShorter(r.Rest(), -tok);
        var vs := Literals(r, -tok);
        if vs.Err? { return Err(vs.error); }
        AfterTwice(out, vs.value, TakeAll(r.Rest(), |out| + -tok));
        out := out + vs.value;
      } else {
        return Err(Malformed);
      }
    }
    AllRead(r.Rest(), |out|);
    NoneLeft(out, r.Rest());
    return Ok(out);
  }

  /** Reads n signed values one by one. */
  method Literals(r: Reader, n: nat) returns (res: Result<seq<int>, Fault>)
    requires r.Valid()
    modifies r
    ensures r.Valid()
    ensures match TakeEach(old(r.Rest()), n, TakeVarint)
            case Bad(e) => res == Err(e)
            case Got(vs, rest) => res == Ok(vs) && r.Rest() == rest && |vs| == n
  {
    hide TakeVarint;
    var out: seq<int> := [];
    ghost var b0 := r.Rest();
    NothingAfter(TakeEach(b0, n, TakeVarint));
    for i := 0 to n
      invariant r.Valid() && |out| == i && TakeEach(b0, n, TakeVarint) == After(out, TakeEach(r.Rest(), n - i, TakeVarint))
    {
      var u := r.Varint();
      match u {
        case Err(e) => return Err(e);
        case Ok(v) =>
          AfterTwice(out, [v], TakeEach(r.Rest(), n - i - 1, TakeVarint));
          out := out + [v];
      }
    }
    NoneLeft(out, r.Rest());
    return Ok(out);
  }

  /** Reads a whole column of differences and sums them. */
  method DecodeDeltaRle(col: Bytes) returns (res: Result<seq<int>, Fault>)
    ensures match TakeDeltaRle(col)
            case Bad(e) => res == Err(e)
            case Got(vs, _) => res == Ok(vs)
  {
    hide TakeAll, Wrap;
    var d := DecodeAnyRle(col);
    if d.Err? { return Err(d.error); }
    var deltas := d.value;
    var out: seq<int>, acc := [], 0;
    for i := 0 to |deltas|
      invariant out == Sums(deltas[..i]) && acc == if i == 0 then 0 else out[i - 1]
    {
      assert deltas[..i + 1][..i] == deltas[..i];
      acc := Wrap(acc + deltas[i]);
      out := out + [acc];
    }
    assert deltas[..|deltas|] == deltas;
    return Ok(out);
  }
}
