/** Fractional indexes: byte strings ending in 0x80, with room for another strictly between any two. */
module FracIndices {
  import opened Common

  type Byte = x: int | 0 <= x < 0x100
  type Bytes = seq<Byte>

  const TERMINATOR: Byte := 0x80

  /** Byte order. */
  predicate Less(a: Bytes, b: Bytes) {
    |b| > 0 && (|a| == 0 || a[0] < b[0] || (a[0] == b[0] && Less(a[1..], b[1..])))
  }

  predicate Ends(b: Bytes) { |b| > 0 && b[|b| - 1] == TERMINATOR }

  function Join(prefix: Bytes, suffix: Option<Bytes>): Option<Bytes> {
    if suffix.None? then None else Some(prefix + suffix.value)
  }

  // ----- what the loops compute -----

  /** Without its terminator, an index before b. */
  function BeforeOf(b: Bytes): Option<Bytes> {
    if b == [] then None
    else if b[0] > TERMINATOR then Some([])
    else if b[0] > 0 then Some([b[0] - 1])
    else Join([b[0]], BeforeOf(b[1..]))
  }

  /** Without its terminator, an index after b. */
  function AfterOf(b: Bytes): Option<Bytes> {
    if b == [] then None
    else if b[0] < TERMINATOR then Some([])
    else if b[0] < 0xff then Some([b[0] + 1])
    else Join([b[0]], AfterOf(b[1..]))
  }

  /** Without its terminator, an index between l and r. */
  function BetweenOf(l: Bytes, r: Bytes): Option<Bytes> {
    if l == [] || r == [] then None
    else if |l| > 1 && |r| > 1 then
      if r[0] as int - l[0] as int > 1 then Some([Halfway(l[0], r[0])])
      else if r[0] as int - l[0] as int == 1 then Join([l[0]], AfterOf(l[1..]))
      else if r[0] < l[0] then None
      else Join([l[0]], BetweenOf(l[1..], r[1..]))
    else if |l| < |r| then if r[0] < TERMINATOR then None else Join([r[0]], BeforeOf(r[1..]))
    else if |l| > |r| then if l[0] >= TERMINATOR then None else Join([l[0]], AfterOf(l[1..]))
    else None
  }

  function Halfway(l: Byte, r: Byte): Byte
    requires l < r
  {
    l + (r - l) / 2
  }

  function NewOf(lower: Option<Bytes>, upper: Option<Bytes>): Option<Bytes> {
    match (lower, upper)
    case (Some(l), Some(u)) => Terminated(BetweenOf(l, u))
    case (Some(l), None) => Terminated(AfterOf(l))
    case (None, Some(u)) => Terminated(BeforeOf(u))
    case (None, None) => Some([TERMINATOR])
  }

  function Terminated(b: Option<Bytes>): Option<Bytes> {
    if b.None? then None else Some(b.value + [TERMINATOR])
  }

  /** n indexes by recursive halving of the gap, listed in rising order. */
  function SpreadOf(lower: Option<Bytes>, upper: Option<Bytes>, n: nat): Option<seq<Bytes>>
    decreases n
  {
    if n == 0 then Some([])
    else
      var mid := NewOf(lower, upper);
      if mid.None? then None
      else
        var a := SpreadOf(lower, mid, n / 2);
        var b := SpreadOf(mid, upper, n - n / 2 - 1);
        if a.None? || b.None? then None else Some(a.value + [mid.value] + b.value)
  }

  // ----- the loops -----

  /** Without its terminator, an index before b. */
  method Before(b: Bytes) returns (r: Option<Bytes>)
    ensures r == BeforeOf(b)
  {
    JoinNothing(b, BeforeOf(b));
    for i := 0 to |b|
      invariant BeforeOf(b) == Join(b[..i], BeforeOf(b[i..]))
    {
      Apart(b, i);
      JoinNothing(b[..i], None);
      if b[i] > TERMINATOR { return Some(b[..i]); }
      if b[i] > 0 { return Some(b[..i] + [b[i] - 1]); }
      JoinTwice(b[..i], b[i], BeforeOf(b[i + 1..]));
    }
    return None;
  }

  /** Without its terminator, an index after b. */
  method After(b: Bytes) returns (r: Option<Bytes>)
    ensures r == AfterOf(b)
  {
    JoinNothing(b, AfterOf(b));
    for i := 0 to |b|
      invariant AfterOf(b) == Join(b[..i], AfterOf(b[i..]))
    {
      Apart(b, i);
      JoinNothing(b[..i], None);
      if b[i] < TERMINATOR { return Some(b[..i]); }
      if b[i] < 0xff { return Some(b[..i] + [b[i] + 1]); }
      JoinTwice(b[..i], b[i], AfterOf(b[i + 1..]));
    }
    return None;
  }

  /** Without its terminator, an index between the two. */
  method Between(left: Bytes, right: Bytes) returns (r: Option<Bytes>)
    ensures r == BetweenOf(left, right)
  {
    if left == [] || right == [] { return None; }
    var shorter := Min(|left|, |right|) - 1;
    JoinNothing(left, BetweenOf(left, right));
    assert left[0..] == left && right[0..] == right;
    for i := 0 to shorter
      invariant left[..i] == right[..i]
      invariant BetweenOf(left, right) == Join(left[..i], BetweenOf(left[i..], right[i..]))
    {
      Apart(left, i);
      Apart(right, i);
      var diff := right[i] as int - left[i] as int;
      if diff > 1 {
        return Some(left[..i] + [left[i] + diff / 2]);
      } else if diff == 1 {
        var suffix := After(left[i + 1..]);
        JoinTwice(left[..i], left[i], suffix);
        return Join(left[..i + 1], suffix);
      } else if diff < 0 {
        return None;
      }
      JoinTwice(left[..i], left[i], BetweenOf(left[i + 1..], right[i + 1..]));
    }
    Apart(left, shorter);
    Apart(right, shorter);
    if |left| < |right| {
      var prefix := right[..shorter + 1];
      if prefix[|prefix| - 1] < TERMINATOR { return None; }
      var suffix := Before(right[shorter + 1..]);
      JoinTwice(right[..shorter], right[shorter], suffix);
      return Join(prefix, suffix);
    } else if |left| > |right| {
      var prefix := left[..shorter + 1];
      if prefix[|prefix| - 1] >= TERMINATOR { return None; }
      var suffix := After(left[shorter + 1..]);
      JoinTwice(left[..shorter], left[shorter], suffix);
      return Join(prefix, suffix);
    }
    return None;
  }

  lemma {:induction false} Apart(b: Bytes, i: nat)
    requires i < |b|
    ensures b[i..] != [] && b[i..][0] == b[i] && b[i..][1..] == b[i + 1..] && b[..i] + [b[i]] == b[..i + 1]
  {
  }

  lemma {:induction false} JoinNothing(p: Bytes, s: Option<Bytes>)
    ensures Join(p[..0], s) == s && Join(p, Some([])) == Some(p) && p[0..] == p
  {
    if s.Some? { assert p[..0] + s.value == s.value; }
    assert p + [] == p;
  }

  lemma {:induction false} JoinTwice(p: Bytes, c: Byte, s: Option<Bytes>)
    ensures Join(p, Join([c], s)) == Join(p + [c], s)
  {
    if s.Some? { assert p + ([c] + s.value) == p + [c] + s.value; }
  }

  /** An index between the bounds, either of which may be absent: whenever there is one, it lies
      strictly between; and there is one when the bounds are indexes in order. */
  method New(lower: Option<Bytes>, upper: Option<Bytes>) returns (r: Option<Bytes>)
    ensures r == NewOf(lower, upper)
    ensures Sorted2(lower, upper) && r.Some? ==> Between2(lower, r.value, upper) && Ends(r.value)
    ensures Sorted2(lower, upper) && EndsTwo(lower, upper) ==> r.Some?
  {
    hide BetweenOf, AfterOf, BeforeOf, Less, Ends;
    if Sorted2(lower, upper) { NewBetween(lower, upper); }
    var b: Option<Bytes>;
    match (lower, upper) {
      case (Some(l), Some(u)) => b := Between(l, u);
      case (Some(l), None) => b := After(l);
      case (None, Some(u)) => b := Before(u);
      case (None, None) => return Some([TERMINATOR]);
    }
    return Terminated(b);
  }

  /** n indexes between the bounds, none when those are not in order. */
  method Evenly(lower: Option<Bytes>, upper: Option<Bytes>, n: nat) returns (r: Option<seq<Bytes>>)
    ensures r == if Sorted2(lower, upper) then SpreadOf(lower, upper, n) else None
    ensures r.Some? ==> |r.value| == n && Rises(lower, r.value, upper)
    ensures Sorted2(lower, upper) && EndsTwo(lower, upper) ==> r.Some?
  {
    hide SpreadOf, Rises, Less, Ends;
    if Sorted2(lower, upper) { SpreadRises(lower, upper, n); }
    if lower.Some? && upper.Some? && !Less(lower.value, upper.value) { return None; }
    var ok, out := Spread(lower, upper, n, []);
    if !ok { return None; }
    assert [] + SpreadOf(lower, upper, n).value == SpreadOf(lower, upper, n).value;
    return Some(out);
  }

  /** Appends n indexes between the bounds. */
  method Spread(lower: Option<Bytes>, upper: Option<Bytes>, n: nat, out: seq<Bytes>) returns (ok: bool, r: seq<Bytes>)
    ensures ok <==> SpreadOf(lower, upper, n).Some?
    ensures ok ==> r == out + SpreadOf(lower, upper, n).value
    decreases n
  {
    hide NewOf;
    if n == 0 { return true, out; }
    var mid := New(lower, upper);
    if mid.None? { return false, out; }
    if n == 1 { return true, out + [mid.value]; }
    ok, r := Spread(lower, mid, n / 2, out);
    if !ok { return; }
    r := r + [mid.value];
    ok, r := Spread(mid, upper, n - n / 2 - 1, r);
    SpreadParts(lower, upper, n, out);
  }

  lemma {:induction false} SpreadParts(lower: Option<Bytes>, upper: Option<Bytes>, n: nat, out: seq<Bytes>)
    requires n > 0 && NewOf(lower, upper).Some? && SpreadOf(lower, NewOf(lower, upper), n / 2).Some?
    ensures var mid := NewOf(lower, upper);
      var b := SpreadOf(mid, upper, n - n / 2 - 1);
      && SpreadOf(lower, upper, n).Some? == b.Some?
      && (b.Some? ==> out + SpreadOf(lower, upper, n).value == out + SpreadOf(lower, mid, n / 2).value + [mid.value] + b.value)
  {
    hide NewOf;
    var mid := NewOf(lower, upper);
    var b := SpreadOf(mid, upper, n - n / 2 - 1);
    if b.Some? { Regroup(out, SpreadOf(lower, mid, n / 2).value, mid.value, b.value); }
  }

  lemma {:induction false} Regroup(out: seq<Bytes>, a: seq<Bytes>, mid: Bytes, b: seq<Bytes>)
    ensures out + (a + [mid] + b) == out + a + [mid] + b
  {
  }

  // ----- byte order -----

  lemma {:induction false} LessTrans(a: Bytes, b: Bytes, c: Bytes)
    requires Less(a, b) && Less(b, c)
    ensures Less(a, c)
  {
    if a != [] && a[0] == b[0] == c[0] { LessTrans(a[1..], b[1..], c[1..]); }
  }

  lemma {:induction false} LessTotal(a: Bytes, b: Bytes)
    ensures Less(a, b) || Less(b, a) || a == b
    ensures Less(a, b) ==> !Less(b, a) && a != b
  {
    if a != [] && b != [] && a[0] == b[0] {
      LessTotal(a[1..], b[1..]);
      assert a == [a[0]] + a[1..] && b == [b[0]] + b[1..];
    }
  }

  /** The bounds are in order. */
  predicate Sorted2(lower: Option<Bytes>, upper: Option<Bytes>) {
    lower.Some? && upper.Some? ==> Less(lower.value, upper.value)
  }

  predicate Between2(lower: Option<Bytes>, x: Bytes, upper: Option<Bytes>) {
    Sorted2(lower, Some(x)) && Sorted2(Some(x), upper)
  }

  predicate EndsTwo(lower: Option<Bytes>, upper: Option<Bytes>) {
    (lower.Some? ==> Ends(lower.value)) && (upper.Some? ==> Ends(upper.value))
  }

  lemma {:induction false} BeforeLess(b: Bytes)
    ensures BeforeOf(b).Some? ==> Less(BeforeOf(b).value + [TERMINATOR], b)
    ensures Ends(b) ==> BeforeOf(b).Some?
  {
    if b != [] && b[0] == 0 {
      BeforeLess(b[1..]);
      if BeforeOf(b[1..]).Some? { Tail(b[0], BeforeOf(b[1..]).value); }
    }
  }

  lemma {:induction false} AfterLess(b: Bytes)
    ensures AfterOf(b).Some? ==> Less(b, AfterOf(b).value + [TERMINATOR])
    ensures Ends(b) ==> AfterOf(b).Some?
  {
    if b != [] && b[0] == 0xff {
      AfterLess(b[1..]);
      if AfterOf(b[1..]).Some? { Tail(b[0], AfterOf(b[1..]).value); }
    }
  }

  lemma {:induction false} Tail(c: Byte, s: Bytes)
    ensures ([c] + s + [TERMINATOR])[0] == c && ([c] + s + [TERMINATOR])[1..] == s + [TERMINATOR]
  {
  }

  lemma {:induction false} BetweenLess(l: Bytes, r: Bytes)
    requires Less(l, r)
    ensures BetweenOf(l, r).Some? ==> Less(l, BetweenOf(l, r).value + [TERMINATOR]) && Less(BetweenOf(l, r).value + [TERMINATOR], r)
    ensures Ends(l) && Ends(r) ==> BetweenOf(l, r).Some?
  {
    if l != [] {
      AfterLess(l[1..]);
      BeforeLess(r[1..]);
      if AfterOf(l[1..]).Some? { Tail(l[0], AfterOf(l[1..]).value); }
      if BeforeOf(r[1..]).Some? { Tail(r[0], BeforeOf(r[1..]).value); }
      if l[0] == r[0] && |l| > 1 && |r| > 1 {
        BetweenLess(l[1..], r[1..]);
        if BetweenOf(l[1..], r[1..]).Some? { Tail(l[0], BetweenOf(l[1..], r[1..]).value); }
      }
    }
  }

  /** A new index lies strictly between its bounds, ends in the terminator, and always exists between
      indexes that do. */
  lemma {:induction false} NewBetween(lower: Option<Bytes>, upper: Option<Bytes>)
    requires Sorted2(lower, upper)
    ensures NewOf(lower, upper).Some? ==> Between2(lower, NewOf(lower, upper).value, upper) && Ends(NewOf(lower, upper).value)
    ensures EndsTwo(lower, upper) ==> NewOf(lower, upper).Some?
  {
    match (lower, upper)
    case (Some(l), Some(u)) => BetweenLess(l, u);
    case (Some(l), None) => AfterLess(l);
    case (None, Some(u)) => BeforeLess(u);
    case (None, None) =>
  }

  /** Strictly rising, all strictly between the bounds, all ending in the terminator. */
  predicate Rises(lower: Option<Bytes>, s: seq<Bytes>, upper: Option<Bytes>) {
    && (forall i :: 0 <= i < |s| ==> Ends(s[i]) && Between2(lower, s[i], upper))
    && (forall i, j :: 0 <= i < j < |s| ==> Less(s[i], s[j]))
  }

  /** n indexes, strictly rising between the bounds; there are as many as asked for between indexes. */
  lemma {:induction false} SpreadRises(lower: Option<Bytes>, upper: Option<Bytes>, n: nat)
    requires Sorted2(lower, upper)
    ensures SpreadOf(lower, upper, n).Some? ==> |SpreadOf(lower, upper, n).value| == n && Rises(lower, SpreadOf(lower, upper, n).value, upper)
    ensures EndsTwo(lower, upper) ==> SpreadOf(lower, upper, n).Some?
    decreases n
  {
    hide NewOf, Rises, Less;
    if n == 0 {
      NoneRise(lower, upper);
    } else {
      NewBetween(lower, upper);
      var mid := NewOf(lower, upper);
      if mid.Some? {
        SpreadRises(lower, mid, n / 2);
        SpreadRises(mid, upper, n - n / 2 - 1);
        if SpreadOf(lower, upper, n).Some? {
          JoinRises(lower, SpreadOf(lower, mid, n / 2).value, mid.value, SpreadOf(mid, upper, n - n / 2 - 1).value, upper);
        }
      }
    }
  }

  lemma {:induction false} NoneRise(lower: Option<Bytes>, upper: Option<Bytes>)
    ensures Rises(lower, [], upper)
  {
  }

  lemma {:induction false} JoinRises(lower: Option<Bytes>, a: seq<Bytes>, mid: Bytes, b: seq<Bytes>, upper: Option<Bytes>)
    requires Rises(lower, a, Some(mid)) && Rises(Some(mid), b, upper) && Between2(lower, mid, upper) && Ends(mid)
    ensures Rises(lower, a + [mid] + b, upper)
  {
    hide Less, Ends;
    var s := a + [mid] + b;
    forall i | 0 <= i < |s| ensures Ends(s[i]) && Between2(lower, s[i], upper) {
      if i < |a| {
        assert s[i] == a[i];
        if upper.Some? { LessTrans(a[i], mid, upper.value); }
      } else if i > |a| {
        assert s[i] == b[i - |a| - 1];
        if lower.Some? { LessTrans(lower.value, mid, s[i]); }
      }
    }
    forall i, j | 0 <= i < j < |s| ensures Less(s[i], s[j]) { RiseTwo(a, mid, b, i, j); }
  }

  lemma {:induction false} RiseTwo(a: seq<Bytes>, mid: Bytes, b: seq<Bytes>, i: nat, j: nat)
    requires i < j < |a| + 1 + |b|
    requires forall k :: 0 <= k < |a| ==> Less(a[k], mid)
    requires forall k :: 0 <= k < |b| ==> Less(mid, b[k])
    requires forall x, y :: 0 <= x < y < |a| ==> Less(a[x], a[y])
    requires forall x, y :: 0 <= x < y < |b| ==> Less(b[x], b[y])
    ensures Less((a + [mid] + b)[i], (a + [mid] + b)[j])
  {
    hide Less;
    if i < |a| < j { LessTrans(a[i], mid, b[j - |a| - 1]); }
  }
}
