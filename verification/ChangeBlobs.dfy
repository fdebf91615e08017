/** A change block's header and metadata: columns one after another, told apart only by their counts. */
module ChangeBlobs {
  import opened Common
  import opened Varints
  import opened RleColumns
  import opened DeltaColumns

  datatype Header = Header(peers: seq<nat>, atomLens: seq<nat>, depOnSelf: seq<bool>, depLens: seq<nat>,
                           depPeers: seq<nat>, depCounters: seq<int>, lamports: seq<int>)

  datatype Meta = Meta(timestamps: seq<int>, messages: seq<Bytes>)

  ghost predicate AllU64(vals: seq<nat>) { forall k :: 0 <= k < |vals| ==> IsU64(vals[k]) }

  function Max0(x: int): nat { if x < 0 then 0 else x }

  function SumOf(vals: seq<nat>): nat { if vals == [] then 0 else SumOf(vals[..|vals| - 1]) + vals[|vals| - 1] }

  // ----- fixed-width peers -----

  /** n bytes, the low one first. */
  function Little(v: nat, n: nat): (b: Bytes)
    ensures |b| == n
  {
    if n == 0 then [] else [v % 0x100] + Little(v / 0x100, n - 1)
  }

  function FromLittle(b: Bytes): nat { if b == [] then 0 else b[0] as int + 0x100 * FromLittle(b[1..]) }

  function Below(n: nat): (p: nat)
    ensures p >= 1
  {
    if n == 0 then 1 else 0x100 * Below(n - 1)
  }

  lemma {:induction false} LittleBack(v: nat, n: nat)
    requires v < Below(n)
    ensures FromLittle(Little(v, n)) == v
  {
    if n > 0 {
      LittleBack(v / 0x100, n - 1);
      assert Little(v, n)[1..] == Little(v / 0x100, n - 1);
    }
  }

  function PutFixed(v: nat): Bytes { Little(v, 8) }

  function TakeFixed(b: Bytes): Taken<nat> { if |b| < 8 then Bad(Truncated) else Got(FromLittle(b[..8]), b[8..]) }

  lemma {:induction false} FixedComes(v: nat)
    requires IsU64(v)
    ensures Comes(PutFixed, TakeFixed, v)
  {
    hide Little, FromLittle;
    EightBytes();
    LittleBack(v, 8);
    forall rest: Bytes ensures TakeFixed(PutFixed(v) + rest) == Got(v, rest) {
      assert (PutFixed(v) + rest)[..8] == PutFixed(v) && (PutFixed(v) + rest)[8..] == rest;
    }
  }

  lemma {:induction false} EightBytes()
    ensures Below(8) == TWO64
  {
    assert Below(2) == 0x1_0000 && Below(4) == 0x1_0000_0000 && Below(6) == 0x1_0000_0000_0000;
  }

  // ----- the header -----

  function PutHeader(h: Header): Bytes {
    PutUvarint(|h.peers|) + (PutEach(h.peers, PutFixed) + (PutEach(h.atomLens, PutU64) + (PutBools(h.depOnSelf, 0, false)
    + (PutRle(h.depLens, 0, PutU64) + PutDeps(h)))))
  }

  function PutDeps(h: Header): Bytes {
    PutRle(h.depPeers, 0, PutU64) + (PutDelta(h.depCounters) + PutDelta(h.lamports))
  }

  function TakePeers(b: Bytes): Taken<seq<nat>> {
    match TakeUvarint(b, 0)
    case Bad(e) => Bad(e)
    case Got(n, r) => if n > |r| / 8 then Bad(Malformed) else TakeEach(r, n, TakeFixed)
  }

  function TakeLens(b: Bytes, n: int): Taken<seq<nat>> {
    if Max0(n - 1) > |b| then Bad(Malformed) else TakeEach(b, Max0(n - 1), TakeU64)
  }

  predicate RowCount(count: int) { 0 <= count <= MAX_ROWS }

  function TakeFlags(b: Bytes, count: int): Taken<seq<bool>> { if RowCount(count) then TakeBools(b, count, false) else Bad(Malformed) }

  function TakeNumbers(b: Bytes, count: int): Taken<seq<nat>> { if RowCount(count) then TakeRle(b, count, TakeU64) else Bad(Malformed) }

  function TakeDeltas(b: Bytes, count: int): Taken<seq<int>> { if RowCount(count) then TakeDelta(b, count) else Bad(Malformed) }

  /** The header of n changes, which fills its blob. A block with more dependencies than bytes left is
      refused. */
  function TakeHeader(b: Bytes, n: int): Result<Header, Fault> {
    match TakePeers(b)
    case Bad(e) => Err(e)
    case Got(peers, b1) =>
      match TakeLens(b1, n)
      case Bad(e) => Err(e)
      case Got(lens, b2) =>
        match TakeFlags(b2, n)
        case Bad(e) => Err(e)
        case Got(self, b3) =>
          match TakeNumbers(b3, n)
          case Bad(e) => Err(e)
          case Got(deps, b4) =>
            if SumOf(deps) > |b4| then Err(Malformed) else TakeDeps(b4, n, Header(peers, lens, self, deps, [], [], []))
  }

  function TakeDeps(b: Bytes, n: int, h: Header): Result<Header, Fault> {
    var sum := SumOf(h.depLens);
    match TakeNumbers(b, sum)
    case Bad(e) => Err(e)
    case Got(peers, b1) =>
      match TakeDeltas(b1, sum)
      case Bad(e) => Err(e)
      case Got(counters, b2) =>
        match TakeDeltas(b2, Max0(n - 1))
        case Bad(e) => Err(e)
        case Got(lamports, b3) =>
          if b3 != [] then Err(Malformed) else Ok(h.(depPeers := peers, depCounters := counters, lamports := lamports))
  }

  /** Column lengths agree, values are 64 bits wide, and no column passes the row limit. */
  ghost predicate HeaderFor(h: Header, n: int) {
    && 0 <= n <= MAX_ROWS && |h.atomLens| == |h.lamports| == Max0(n - 1) && |h.depOnSelf| == |h.depLens| == n
    && |h.depPeers| == |h.depCounters| == SumOf(h.depLens) <= MAX_ROWS && |h.peers| < TWO63
    && AllU64(h.peers) && AllU64(h.atomLens) && AllU64(h.depLens) && AllU64(h.depPeers) && AllI64(h.depCounters) && AllI64(h.lamports)
  }

  lemma {:induction false} NumbersBack(vals: seq<nat>, rest: Bytes)
    requires AllU64(vals) && |vals| <= MAX_ROWS
    ensures TakeNumbers(PutRle(vals, 0, PutU64) + rest, |vals|) == Got(vals, rest)
  {
    hide Comes, TakeRle, PutRle;
    forall k | 0 <= k < |vals| ensures Comes(PutU64, TakeU64, vals[k]) { U64Comes(vals[k]); }
    RleBack(vals, 0, PutU64, TakeU64, rest);
    assert vals[0..] == vals;
  }

  lemma {:induction false} FlagsBack(vals: seq<bool>, rest: Bytes)
    requires |vals| <= MAX_ROWS
    ensures TakeFlags(PutBools(vals, 0, false) + rest, |vals|) == Got(vals, rest)
  {
    hide TakeBools, PutBools;
    BoolsBack(vals, 0, false, rest);
    assert vals[0..] == vals;
  }

  lemma {:induction false} EachSize<T>(vals: seq<T>, put: T -> Bytes, least: nat)
    requires forall v: T :: |put(v)| >= least
    ensures |PutEach(vals, put)| >= |vals| * least
  {
    if vals != [] { EachSize(vals[..|vals| - 1], put, least); }
  }

  lemma {:induction false} PeersBack(peers: seq<nat>, rest: Bytes)
    requires AllU64(peers) && |peers| < TWO63
    ensures TakePeers(PutUvarint(|peers|) + (PutEach(peers, PutFixed) + rest)) == Got(peers, rest)
  {
    hide Comes, TakeUvarint, PutUvarint, TakeEach, PutEach, Little;
    var tail := PutEach(peers, PutFixed) + rest;
    VarintBack(|peers|, tail);
    EachSize(peers, PutFixed, 8);
    forall k | 0 <= k < |peers| ensures Comes(PutFixed, TakeFixed, peers[k]) { FixedComes(peers[k]); }
    EachBack(peers, PutFixed, TakeFixed, rest);
  }

  lemma {:induction false} LensBack(lens: seq<nat>, n: int, rest: Bytes)
    requires AllU64(lens) && |lens| == Max0(n - 1)
    ensures TakeLens(PutEach(lens, PutU64) + rest, n) == Got(lens, rest)
  {
    hide Comes, TakeEach, PutEach;
    forall v: nat ensures |PutU64(v)| >= 1 { PutSize(v); }
    EachSize(lens, PutU64, 1);
    forall k | 0 <= k < |lens| ensures Comes(PutU64, TakeU64, lens[k]) { U64Comes(lens[k]); }
    EachBack(lens, PutU64, TakeU64, rest);
  }

  lemma {:induction false} DepsBack(h: Header, n: int)
    requires HeaderFor(h, n)
    ensures TakeDeps(PutDeps(h), n, h.(depPeers := [], depCounters := [], lamports := [])) == Ok(h)
  {
    hide TakeNumbers, PutRle, TakeDelta, PutDelta, SumOf, AllU64, AllI64;
    NumbersBack(h.depPeers, PutDelta(h.depCounters) + PutDelta(h.lamports));
    DeltaBack(h.depCounters, PutDelta(h.lamports));
    DeltaBack(h.lamports, []);
    assert PutDelta(h.lamports) + [] == PutDelta(h.lamports);
  }

  /** Decoding a header's encoding gives the header back exactly when its dependencies are no more than
      the bytes their columns take; otherwise it is refused. */
  lemma {:induction false} HeaderBack(h: Header, n: int)
    requires HeaderFor(h, n)
    ensures SumOf(h.depLens) <= |PutDeps(h)| ==> TakeHeader(PutHeader(h), n) == Ok(h)
    ensures SumOf(h.depLens) > |PutDeps(h)| ==> TakeHeader(PutHeader(h), n) == Err(Malformed)
  {
    hide TakePeers, TakeLens, TakeFlags, TakeNumbers, TakeDeps, PutDeps, PutRle, PutBools, PutEach, PutUvarint, SumOf, AllU64, AllI64;
    var b4 := PutDeps(h);
    var b3 := PutRle(h.depLens, 0, PutU64) + b4;
    var b2 := PutBools(h.depOnSelf, 0, false) + b3;
    var b1 := PutEach(h.atomLens, PutU64) + b2;
    PeersBack(h.peers, b1);
    LensBack(h.atomLens, n, b2);
    FlagsBack(h.depOnSelf, b3);
    NumbersBack(h.depLens, b4);
    DepsBack(h, n);
  }

  // ----- metadata -----

  function Joined(messages: seq<Bytes>): Bytes { if messages == [] then [] else messages[0] + Joined(messages[1..]) }

  function Lengths(messages: seq<Bytes>): (r: seq<nat>)
    ensures |r| == |messages|
  {
    if messages == [] then [] else Lengths(messages[..|messages| - 1]) + [|messages[|messages| - 1]|]
  }

  function TakeSlices(b: Bytes, lens: seq<nat>): Taken<seq<Bytes>> {
    if lens == [] then Got([], b)
    else if lens[0] > |b| then Bad(Truncated)
    else After([b[..lens[0]]], TakeSlices(b[lens[0]..], lens[1..]))
  }

  function PutMeta(m: Meta): Bytes {
    PutDelta(m.timestamps) + (PutRle(Lengths(m.messages), 0, PutU64) + Joined(m.messages))
  }

  function TakeMeta(b: Bytes, n: int): Result<Meta, Fault> {
    match TakeDeltas(b, n)
    case Bad(e) => Err(e)
    case Got(ts, b1) =>
      match TakeNumbers(b1, n)
      case Bad(e) => Err(e)
      case Got(lens, b2) =>
        match TakeSlices(b2, lens)
        case Bad(e) => Err(e)
        case Got(messages, b3) => if b3 != [] then Err(Malformed) else Ok(Meta(ts, messages))
  }

  ghost predicate MetaFor(m: Meta, n: int) {
    && 0 <= n <= MAX_ROWS && |m.timestamps| == |m.messages| == n && AllI64(m.timestamps)
    && forall k :: 0 <= k < n ==> IsU64(|m.messages[k]|)
  }

  lemma {:induction false} LengthsSplit(messages: seq<Bytes>)
    requires messages != []
    ensures Lengths(messages) == [|messages[0]|] + Lengths(messages[1..])
  {
    var n := |messages| - 1;
    if n > 0 {
      LengthsSplit(messages[..n]);
      assert messages[..n][1..] == messages[1..][..n - 1];
    }
  }

  lemma {:induction false} LengthAt(messages: seq<Bytes>, k: nat)
    requires k < |messages|
    ensures Lengths(messages)[k] == |messages[k]|
  {
    if k < |messages| - 1 { LengthAt(messages[..|messages| - 1], k); }
  }

  lemma {:induction false} SlicesBack(messages: seq<Bytes>, rest: Bytes)
    ensures TakeSlices(Joined(messages) + rest, Lengths(messages)) == Got(messages, rest)
  {
    var b := Joined(messages) + rest;
    if messages == [] {
      assert b == rest;
    } else {
      LengthsSplit(messages);
      var tail := Joined(messages[1..]) + rest;
      assert b == messages[0] + tail;
      SlicesBack(messages[1..], rest);
      assert [messages[0]] + messages[1..] == messages;
    }
  }

  /** Decoding metadata's encoding gives the metadata back. */
  lemma {:induction false} MetaBack(m: Meta, n: int)
    requires MetaFor(m, n)
    ensures TakeMeta(PutMeta(m), n) == Ok(m)
  {
    hide TakeDelta, PutDelta, TakeNumbers, PutRle, AllI64, Lengths, Joined, TakeSlices;
    DeltaBack(m.timestamps, PutRle(Lengths(m.messages), 0, PutU64) + Joined(m.messages));
    forall k | 0 <= k < n ensures IsU64(Lengths(m.messages)[k]) { LengthAt(m.messages, k); }
    NumbersBack(Lengths(m.messages), Joined(m.messages));
    SlicesBack(m.messages, []);
    assert Joined(m.messages) + [] == Joined(m.messages);
  }

  // ----- the codecs -----

  /** The header blob: peers and atom lengths, then the columns. */
  method EncodeHeader(h: Header) returns (out: Bytes)
    requires AllI64(h.depCounters) && AllI64(h.lamports)
    ensures out == PutUvarint(|h.peers|) + PutEach(h.peers, PutFixed) + PutEach(h.atomLens, PutU64)
                   + PutBools(h.depOnSelf, 0, false) + PutRle(h.depLens, 0, PutU64) + PutRle(h.depPeers, 0, PutU64)
                   + PutDelta(h.depCounters) + PutDelta(h.lamports)
    ensures out == PutHeader(h)
  {
    hide PutUvarint, PutEach, PutBools, PutRle, PutDelta, Little, AllI64;
    out := AppendUvarint([], |h.peers|);
    out := WriteEach(out, h.peers, PutFixed);
    out := WriteEach(out, h.atomLens, PutU64);
    var self := EncodeBoolRle(h.depOnSelf);
    var lens := EncodeRle(h.depLens, PutU64);
    var peers := EncodeRle(h.depPeers, PutU64);
    var counters := EncodeDeltaOfDelta(h.depCounters);
    var lamports := EncodeDeltaOfDelta(h.lamports);
    out := out + self + lens + peers + counters + lamports;
    Regrouped(PutUvarint(|h.peers|), PutEach(h.peers, PutFixed), PutEach(h.atomLens, PutU64), self, lens, peers, counters, lamports);
  }

  lemma {:induction false} Regrouped(a: Bytes, b: Bytes, c: Bytes, d: Bytes, e: Bytes, f: Bytes, g: Bytes, h: Bytes)
    ensures [] + a + b + c + d + e + f + g + h == a + (b + (c + (d + (e + (f + (g + h))))))
  {
  }

  /** Reads a header blob of n changes to its very end. */
  method DecodeHeader(blob: Bytes, n: int) returns (res: Result<Header, Fault>)
    ensures res == TakeHeader(blob, n)
  {
    hide TakeUvarint, TakeEach, TakeBools, TakeRle, TakeDelta, SumOf, TakeDeps;
    var r := new Reader(blob);
    var peers := ReadPeers(r);
    if peers.Err? { return Err(peers.error); }
    if Max0(n - 1) > r.Remaining() { return Err(Malformed); }
    var lens := Literals(r, Max0(n - 1));
    if lens.Err? { return Err(lens.error); }
    var self := BoolRleN(r, n);
    if self.Err? { return Err(self.error); }
    var deps := AnyRleNU64(r, n);
    if deps.Err? { return Err(deps.error); }
    var sum := Sum(deps.value, r.Remaining());
    if sum.Err? { return Err(Malformed); }
    res := ReadDeps(r, n, Header(peers.value, lens.value, self.value, deps.value, [], [], []));
  }

  /** The dependencies' peers and counters, and the lamports. */
  method ReadDeps(r: Reader, n: int, h: Header) returns (res: Result<Header, Fault>)
    requires r.Valid()
    modifies r
    ensures res == TakeDeps(old(r.Rest()), n, h)
  {
    hide TakeRle, TakeDelta, SumOf;
    var sum := SumOf(h.depLens);
    var peers := AnyRleNU64(r, sum);
    if peers.Err? { return Err(peers.error); }
    var counters := DeltaOfDeltaN(r, sum);
    if counters.Err? { return Err(counters.error); }
    var lamports := DeltaOfDeltaN(r, Max0(n - 1));
    if lamports.Err? { return Err(lamports.error); }
    if r.Remaining() > 0 { return Err(Malformed); }
    return Ok(h.(depPeers := peers.value, depCounters := counters.value, lamports := lamports.value));
  }

  /** The peer table, eight bytes a peer. */
  method ReadPeers(r: Reader) returns (res: Result<seq<nat>, Fault>)
    requires r.Valid()
    modifies r
    ensures r.Valid()
    ensures match TakePeers(old(r.Rest()))
            case Bad(e) => res == Err(e)
            case Got(vs, rest) => res == Ok(vs) && r.Rest() == rest
  {
    hide TakeUvarint, FromLittle;
    var n := r.Uvarint();
    if n.Err? { return Err(n.error); }
    if n.value > r.Remaining() / 8 { return Err(Malformed); }
    var out: seq<nat> := [];
    ghost var b0 := r.Rest();
    NothingAfter(TakeEach(b0, n.value, TakeFixed));
    for i := 0 to n.value
      invariant r.Valid() && |out| == i && TakeEach(b0, n.value, TakeFixed) == After(out, TakeEach(r.Rest(), n.value - i, TakeFixed))
    {
      var b := r.Take(8);
      if b.Err? { return Err(Truncated); }
      AfterTwice(out, [FromLittle(b.value)], TakeEach(r.Rest(), n.value - i - 1, TakeFixed));
      out := out + [FromLittle(b.value)];
    }
    NoneLeft(out, r.Rest());
    return Ok(out);
  }

  /** The sum, refused as soon as it passes the bytes left. */
  method Sum(lens: seq<nat>, remaining: nat) returns (res: Result<nat, Fault>)
    ensures res == if SumOf(lens) > remaining then Err(Malformed) else Ok(SumOf(lens))
  {
    var sum := 0;
    for i := 0 to |lens|
      invariant sum == SumOf(lens[..i]) && sum <= remaining
    {
      var d := lens[i];
      SumAtLeast(lens, i);
      assert lens[..i + 1][..i] == lens[..i];
      if d > remaining { return Err(Malformed); }
      sum := sum + d;
      if sum > remaining { return Err(Malformed); }
    }
    assert lens[..|lens|] == lens;
    return Ok(sum);
  }

  lemma {:induction false} SumAtLeast(lens: seq<nat>, i: nat)
    requires i < |lens|
    ensures SumOf(lens) >= SumOf(lens[..i]) + lens[i]
  {
    var n := |lens| - 1;
    if i < n {
      SumAtLeast(lens[..n], i);
      assert lens[..n][..i] == lens[..i];
    }
  }

  /** The metadata blob: timestamps, message lengths, messages. */
  method EncodeMeta(m: Meta) returns (out: Bytes)
    requires AllI64(m.timestamps)
    ensures out == PutDelta(m.timestamps) + PutRle(Lengths(m.messages), 0, PutU64) + Joined(m.messages)
    ensures out == PutMeta(m)
  {
    hide PutRle, PutDelta, AllI64;
    out := EncodeDeltaOfDelta(m.timestamps);
    var lens: seq<nat> := [];
    for i := 0 to |m.messages|
      invariant lens == Lengths(m.messages[..i])
    {
      assert m.messages[..i + 1][..i] == m.messages[..i];
      lens := lens + [|m.messages[i]|];
    }
    assert m.messages[..|m.messages|] == m.messages;
    var column := EncodeRle(lens, PutU64);
    out := out + column;
    ghost var head := out;
    for i := 0 to |m.messages|
      invariant out + Joined(m.messages[i..]) == head + Joined(m.messages)
    {
      out := out + m.messages[i];
    }
    assert m.messages[|m.messages|..] == [];
    assert PutDelta(m.timestamps) + column + Joined(m.messages) == PutDelta(m.timestamps) + (column + Joined(m.messages));
  }

  /** Reads a metadata blob of n changes to its very end. */
  method DecodeMeta(blob: Bytes, n: int) returns (res: Result<Meta, Fault>)
    ensures res == TakeMeta(blob, n)
  {
    hide TakeRle, TakeDelta;
    var r := new Reader(blob);
    var ts := DeltaOfDeltaN(r, n);
    if ts.Err? { return Err(ts.error); }
    var lens := AnyRleNU64(r, n);
    if lens.Err? { return Err(lens.error); }
    var msgs := ReadSlices(r, lens.value);
    if msgs.Err? { return Err(msgs.error); }
    if r.Remaining() > 0 { return Err(Malformed); }
    return Ok(Meta(ts.value, msgs.value));
  }

  /** Messages of the given lengths, one after another. */
  method ReadSlices(r: Reader, lens: seq<nat>) returns (res: Result<seq<Bytes>, Fault>)
    requires r.Valid()
    modifies r
    ensures r.Valid()
    ensures match TakeSlices(old(r.Rest()), lens)
            case Bad(e) => res == Err(e)
            case Got(vs, rest) => res == Ok(vs) && r.Rest() == rest
  {
    var out: seq<Bytes> := [];
    ghost var b0 := r.Rest();
    NothingAfter(TakeSlices(b0, lens));
    assert lens[0..] == lens;
    for i := 0 to |lens|
      invariant r.Valid() && TakeSlices(b0, lens) == After(out, TakeSlices(r.Rest(), lens[i..]))
    {
      assert lens[i..][1..] == lens[i + 1..];
      var s := r.Take(lens[i]);
      if s.Err? { return Err(Truncated); }
      AfterTwice(out, [s.value], TakeSlices(r.Rest(), lens[i + 1..]));
      out := out + [s.value];
    }
    NoneLeft(out, r.Rest());
    return Ok(out);
  }
}
