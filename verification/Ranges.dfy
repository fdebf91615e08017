/** Sets of counters kept as sorted, disjoint, non-touching ranges. */
module Ranges {
  import opened Common

  /** Counters [start, end). */
  datatype Range = Range(start: int, end: int)

  predicate In(r: Range, k: int) { r.start <= k < r.end }

  ghost predicate Covered(rs: seq<Range>, k: int) { exists i :: 0 <= i < |rs| && In(rs[i], k) }

  /** Nonempty, in order, none touching the next. */
  ghost predicate Neat(rs: seq<Range>) {
    && (forall i :: 0 <= i < |rs| ==> rs[i].start < rs[i].end)
    && (forall i, j :: 0 <= i < j < |rs| ==> rs[i].end < rs[j].start)
  }

  /** Nonempty, in order, none overlapping the next, all within [lo, hi). */
  ghost predicate Ascending(rs: seq<Range>, lo: int, hi: int) {
    && (forall i :: 0 <= i < |rs| ==> lo <= rs[i].start < rs[i].end <= hi)
    && (forall i, j :: 0 <= i < j < |rs| ==> rs[i].end <= rs[j].start)
  }

  lemma {:induction false} CoveredConcat(a: seq<Range>, b: seq<Range>, k: int)
    ensures Covered(a + b, k) <==> Covered(a, k) || Covered(b, k)
  {
    var t := a + b;
    if i :| 0 <= i < |a| && In(a[i], k) { assert t[i] == a[i]; }
    if i :| 0 <= i < |b| && In(b[i], k) { assert t[|a| + i] == b[i]; }
  }

  lemma {:induction false} CoveredFirst(rs: seq<Range>, k: int)
    requires rs != []
    ensures Covered(rs, k) <==> In(rs[0], k) || Covered(rs[1..], k)
  {
    assert rs == [rs[0]] + rs[1..];
    CoveredConcat([rs[0]], rs[1..], k);
    assert Covered([rs[0]], k) <==> In(rs[0], k) by { assert [rs[0]][0] == rs[0]; }
  }

  // ----- what ranges leave of another -----

  /** What is left of [cur, end) by ranges that end past cur. */
  function Gaps(have: seq<Range>, cur: int, end: int): seq<Range>
    requires cur < end
  {
    if have == [] then [Range(cur, end)]
    else
      var h := have[0];
      if h.end <= cur then Gaps(have[1..], cur, end)
      else if h.start >= end then [Range(cur, end)]
      else
        (if h.start > cur then [Range(cur, Min(h.start, end))] else [])
          + if h.end >= end then [] else Gaps(have[1..], h.end, end)
  }

  lemma {:induction false} AscendingConcat(a: seq<Range>, b: seq<Range>, lo: int, mid: int, hi: int)
    requires lo <= mid <= hi && Ascending(a, lo, mid) && Ascending(b, mid, hi)
    ensures Ascending(a + b, lo, hi)
  {
    var t := a + b;
    forall i | 0 <= i < |t| ensures lo <= t[i].start < t[i].end <= hi {
      if i < |a| { assert t[i] == a[i]; } else { assert t[i] == b[i - |a|]; }
    }
    forall i, j | 0 <= i < j < |t| ensures t[i].end <= t[j].start {
      if j < |a| { assert t[i] == a[i] && t[j] == a[j]; }
      else if i >= |a| { assert t[i] == b[i - |a|] && t[j] == b[j - |a|]; }
      else { assert t[i] == a[i] && t[j] == b[j - |a|]; }
    }
  }

  lemma {:induction false} AscendingOne(lo: int, hi: int, mid: int)
    requires lo <= mid
    ensures Ascending([], lo, mid) && (lo < hi <= mid ==> Ascending([Range(lo, hi)], lo, mid))
  {
  }

  /** The gaps are exactly the set difference. */
  lemma {:induction false} GapsAre(have: seq<Range>, cur: int, end: int, k: int)
    requires Neat(have) && cur < end
    ensures Ascending(Gaps(have, cur, end), cur, end)
    ensures Covered(Gaps(have, cur, end), k) <==> cur <= k < end && !Covered(have, k)
    decreases |have|
  {
    hide Covered, Neat, Ascending;
    NoneCovered(k);
    AscendingOne(cur, end, end);
    if have == [] {
      OneCovered(Range(cur, end), k);
    } else {
      var h := have[0];
      NeatRest(have);
      CoveredFirst(have, k);
      LaterPast(have, k);
      if h.end <= cur {
        GapsAre(have[1..], cur, end, k);
      } else if h.start >= end {
        OneCovered(Range(cur, end), k);
      } else {
        if h.end < end { GapsAre(have[1..], h.end, end, k); }
        GapJoins(h, if h.end >= end then [] else Gaps(have[1..], h.end, end), cur, end, k);
      }
    }
  }

  /** The gap before a range, and those after it. */
  lemma {:induction false} GapJoins(h: Range, b: seq<Range>, cur: int, end: int, k: int)
    requires cur < end && cur < h.end && h.start < end && h.start < h.end
    requires if h.end >= end then b == [] else Ascending(b, h.end, end)
    ensures var a := if h.start > cur then [Range(cur, Min(h.start, end))] else [];
      && Ascending(a + b, cur, end)
      && (Covered(a + b, k) <==> (cur <= k < h.start && k < end) || Covered(b, k))
  {
    hide Covered, Ascending;
    var a := if h.start > cur then [Range(cur, Min(h.start, end))] else [];
    NoneCovered(k);
    OneCovered(Range(cur, Min(h.start, end)), k);
    CoveredConcat(a, b, k);
    if h.end < end {
      AscendingOne(cur, Min(h.start, end), h.end);
      AscendingConcat(a, b, cur, h.end, end);
    } else {
      AscendingOne(cur, Min(h.start, end), end);
      assert a + [] == a;
    }
  }

  lemma {:induction false} NoneCovered(k: int)
    ensures !Covered([], k)
  {
  }

  lemma {:induction false} OneCovered(r: Range, k: int)
    ensures Covered([r], k) <==> In(r, k)
  {
    assert [r][0] == r;
  }

  lemma {:induction false} NeatRest(rs: seq<Range>)
    requires Neat(rs) && rs != []
    ensures rs[0].start < rs[0].end
    ensures Neat(rs[1..]) && forall i :: 0 <= i < |rs[1..]| ==> rs[0].end < rs[1..][i].start
  {
  }

  /** What the later ranges cover lies past the first. */
  lemma {:induction false} LaterPast(rs: seq<Range>, k: int)
    requires Neat(rs) && rs != []
    ensures Covered(rs[1..], k) ==> k > rs[0].end
  {
    if i :| 0 <= i < |rs[1..]| && In(rs[1..][i], k) { assert rs[i + 1] == rs[1..][i]; }
  }

  /** out is what of want the ranges leave, in ascending order. */
  ghost predicate Left(have: seq<Range>, want: Range, out: seq<Range>) {
    Ascending(out, want.start, want.end) && forall k :: Covered(out, k) <==> In(want, k) && !Covered(have, k)
  }

  lemma {:induction false} GapsLeft(have: seq<Range>, want: Range)
    requires Neat(have) && want.start < want.end
    ensures Left(have, want, Gaps(have, want.start, want.end))
  {
    hide Neat, Covered, Ascending, Gaps;
    GapsAre(have, want.start, want.end, 0);
    forall k ensures Covered(Gaps(have, want.start, want.end), k) <==> In(want, k) && !Covered(have, k) {
      GapsAre(have, want.start, want.end, k);
    }
  }

  /** The parts of want none of the ranges covers. */
  method Uncovered(have: seq<Range>, want: Range) returns (out: seq<Range>)
    requires Neat(have) && want.start < want.end
    ensures Left(have, want, out)
  {
    hide Neat, Left, Gaps;
    ghost var all := Gaps(have, want.start, want.end);
    GapsLeft(have, want);
    out := [];
    var cur := want.start;
    assert have[0..] == have && [] + all == all;
    for i := 0 to |have|
      invariant cur < want.end && all == out + Gaps(have[i..], cur, want.end)
    {
      var h := have[i];
      GapsStep(have, i, cur, want.end, out);
      if h.end <= cur { continue; }
      if h.start >= want.end {
        out := out + [Range(cur, want.end)];
        return;
      }
      if h.start > cur { out := out + [Range(cur, Min(h.start, want.end))]; }
      if h.end > cur { cur := h.end; }
      if cur >= want.end { return; }
    }
    GapsEnd(have, cur, want.end);
    if cur < want.end { out := out + [Range(cur, want.end)]; }
  }

  lemma {:induction false} GapsEnd(have: seq<Range>, cur: int, end: int)
    requires cur < end
    ensures Gaps(have[|have|..], cur, end) == [Range(cur, end)]
  {
  }

  /** What one range does to what is found. */
  lemma {:induction false} GapsStep(have: seq<Range>, i: nat, cur: int, end: int, out: seq<Range>)
    requires i < |have| && cur < end
    ensures var h := have[i]; var rest := out + Gaps(have[i..], cur, end);
      if h.end <= cur then rest == out + Gaps(have[i + 1..], cur, end)
      else if h.start >= end then rest == out + [Range(cur, end)]
      else
        var more := if h.start > cur then out + [Range(cur, Min(h.start, end))] else out;
        if h.end >= end then rest == more else rest == more + Gaps(have[i + 1..], h.end, end)
  {
    var h := have[i];
    assert have[i..][0] == h && have[i..][1..] == have[i + 1..];
    if h.end > cur && h.start < end {
      var a: seq<Range> := if h.start > cur then [Range(cur, Min(h.start, end))] else [];
      var b: seq<Range> := if h.end >= end then [] else Gaps(have[i + 1..], h.end, end);
      assert out + (a + b) == (out + a) + b;
      assert out + [] == out;
    }
  }

  // ----- adding a range -----

  /** The rest of the ranges with r put in, or after it was. */
  function Added(have: seq<Range>, r: Range, placed: bool): seq<Range> {
    if have == [] then (if placed then [] else [r])
    else
      var h := have[0];
      if h.end < r.start then [h] + Added(have[1..], r, placed)
      else if h.start > r.end then (if placed then [] else [r]) + [h] + Added(have[1..], r, true)
      else Added(have[1..], Range(Min(r.start, h.start), Max(r.end, h.end)), placed)
  }

  lemma {:induction false} NeatCons(h: Range, rs: seq<Range>)
    requires h.start < h.end && Neat(rs) && forall i :: 0 <= i < |rs| ==> h.end < rs[i].start
    ensures Neat([h] + rs)
  {
    var t := [h] + rs;
    forall i | 0 < i < |t| ensures t[i] == rs[i - 1] { }
  }

  lemma {:induction false} CoveredCons(h: Range, rs: seq<Range>, k: int)
    ensures Covered([h] + rs, k) <==> In(h, k) || Covered(rs, k)
  {
    CoveredConcat([h], rs, k);
    OneCovered(h, k);
  }

  /** Putting a range in gives exactly the union, still neat. */
  lemma {:induction false} AddedIs(have: seq<Range>, r: Range, placed: bool, low: int, k: int)
    requires Neat(have) && r.start < r.end
    requires (forall i :: 0 <= i < |have| ==> low < have[i].start) && (placed || low < r.start)
    requires placed ==> forall i :: 0 <= i < |have| ==> have[i].start > r.end
    ensures var t := Added(have, r, placed);
      && Neat(t) && (forall i :: 0 <= i < |t| ==> low < t[i].start)
      && (Covered(t, k) <==> Covered(have, k) || (!placed && In(r, k)))
    decreases |have|
  {
    hide Covered, Neat;
    if have == [] {
      NoneCovered(k);
      OneCovered(r, k);
      NeatOne(r);
    } else {
      var h, rest := have[0], have[1..];
      NeatRest(have);
      CoveredFirst(have, k);
      if h.end < r.start {
        AddedIs(rest, r, placed, h.end, k);
        NeatCons(h, Added(rest, r, placed));
        CoveredCons(h, Added(rest, r, placed), k);
      } else if h.start > r.end {
        AddedIs(rest, r, true, h.end, k);
        PutBefore(h, r, placed, Added(rest, r, true), k);
      } else {
        AddedIs(rest, Range(Min(r.start, h.start), Max(r.end, h.end)), placed, low, k);
        InBoth(r, h, k);
      }
    }
  }

  lemma {:induction false} NeatOne(r: Range)
    requires r.start < r.end
    ensures Neat([r]) && Neat([])
  {
  }

  lemma {:induction false} InBoth(a: Range, b: Range, k: int)
    requires a.start <= b.end && b.start <= a.end && a.start < a.end && b.start < b.end
    ensures In(Range(Min(a.start, b.start), Max(a.end, b.end)), k) <==> In(a, k) || In(b, k)
  {
  }

  /** r, unless it is there already, and the range h after it go before the rest. */
  lemma {:induction false} PutBefore(h: Range, r: Range, placed: bool, t: seq<Range>, k: int)
    requires h.start < h.end && r.start < r.end < h.start && Neat(t) && forall i :: 0 <= i < |t| ==> h.end < t[i].start
    ensures var u := (if placed then [] else [r]) + [h] + t;
      && Neat(u) && (forall i :: 0 <= i < |u| ==> u[i].start >= if placed then h.start else r.start)
      && (Covered(u, k) <==> In(h, k) || Covered(t, k) || (!placed && In(r, k)))
  {
    hide Covered, Neat;
    NeatCons(h, t);
    CoveredCons(h, t, k);
    if !placed {
      NeatCons(r, [h] + t);
      CoveredCons(r, [h] + t, k);
      assert [r] + [h] + t == [r] + ([h] + t);
    } else {
      assert [] + [h] + t == [h] + t;
    }
  }

  /** out is the union, neat. */
  ghost predicate Union(have: seq<Range>, r: Range, out: seq<Range>) {
    Neat(out) && forall k :: Covered(out, k) <==> Covered(have, k) || In(r, k)
  }

  lemma {:induction false} AddedUnion(have: seq<Range>, r: Range)
    requires Neat(have) && r.start < r.end
    ensures Union(have, r, Added(have, r, false))
  {
    hide Covered, Added;
    var low := Min(r.start, if have == [] then r.start else have[0].start) - 1;
    AddedIs(have, r, false, low, 0);
    forall k ensures Covered(Added(have, r, false), k) <==> Covered(have, k) || In(r, k) { AddedIs(have, r, false, low, k); }
  }

  /** Merges a range into the others. */
  method AddRange(have: seq<Range>, r0: Range) returns (out: seq<Range>)
    requires Neat(have) && r0.start < r0.end
    ensures Union(have, r0, out)
  {
    hide Neat, Union, Added;
    ghost var all := Added(have, r0, false);
    AddedUnion(have, r0);
    out := [];
    var placed, r := false, r0;
    assert have[0..] == have && [] + all == all;
    for i := 0 to |have|
      invariant all == out + Added(have[i..], r, placed)
    {
      var h := have[i];
      AddedStep(have, i, r, placed, out);
      if h.end < r.start {
        out := out + [h];
      } else if h.start > r.end {
        if !placed {
          out := out + [r];
          placed := true;
        }
        out := out + [h];
      } else {
        r := Range(Min(r.start, h.start), Max(r.end, h.end));
      }
    }
    AddedEnd(have, r, placed, out);
    if !placed { out := out + [r]; }
  }

  lemma {:induction false} AddedEnd(have: seq<Range>, r: Range, placed: bool, out: seq<Range>)
    ensures out + Added(have[|have|..], r, placed) == if placed then out else out + [r]
  {
  }

  lemma {:induction false} AddedStep(have: seq<Range>, i: nat, r: Range, placed: bool, out: seq<Range>)
    requires i < |have|
    ensures var h := have[i]; var rest := out + Added(have[i..], r, placed);
      if h.end < r.start then rest == out + [h] + Added(have[i + 1..], r, placed)
      else if h.start > r.end then rest == (if placed then out else out + [r]) + [h] + Added(have[i + 1..], r, true)
      else rest == out + Added(have[i + 1..], Range(Min(r.start, h.start), Max(r.end, h.end)), placed)
  {
    var h := have[i];
    assert have[i..][0] == h && have[i..][1..] == have[i + 1..];
    if h.end < r.start {
      assert out + ([h] + Added(have[i + 1..], r, placed)) == out + [h] + Added(have[i + 1..], r, placed);
    } else if h.start > r.end {
      var a: seq<Range> := if placed then [] else [r];
      var t := Added(have[i + 1..], r, true);
      assert out + (a + [h] + t) == (out + a) + [h] + t;
      assert out + [] == out;
    }
  }
}
