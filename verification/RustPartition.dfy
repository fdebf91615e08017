/** The cyclic Hoare partition: elements move through one gap, each once. */
module RustPartition {
  import opened SortOrder

  /** The array stands for s: the element of the gap is out, in `val`. */
  ghost predicate Stands<T>(a: seq<T>, s: seq<T>, gap: bool, pos: int, val: T) {
    |a| == |s| && if gap then 0 <= pos < |a| && s == a[pos := val] else s == a
  }

  ghost predicate AllLess<T>(s: seq<T>, lo: int, hi: int, pivot: T, less: (T, T) -> bool)
    requires 0 <= lo && hi <= |s|
  {
    forall k :: lo <= k < hi ==> less(s[k], pivot)
  }

  ghost predicate NoneLess<T>(s: seq<T>, lo: int, hi: int, pivot: T, less: (T, T) -> bool)
    requires 0 <= lo && hi <= |s|
  {
    forall k :: lo <= k < hi ==> !less(s[k], pivot)
  }

  /** What the array stands for once the elements at l and r change sides. */
  ghost function Exchanged<T>(s: seq<T>, l: int, r: int, gap: bool, pos: int): (t: seq<T>)
    requires 0 <= l < r < |s| && (gap ==> r < pos < |s|)
    ensures |t| == |s|
  {
    var t := Swapped(s, l, r);
    if gap then Swapped(t, r, pos) else t
  }

  lemma {:induction false} ExchangeShuffles<T>(s: seq<T>, l: int, r: int, gap: bool, pos: int, lo: int, hi: int)
    requires 0 <= lo <= l < r < hi <= |s| && (gap ==> r < pos < hi)
    ensures Shuffled(s, Exchanged(s, l, r, gap, pos), lo, hi)
  {
    hide Shuffled, Swapped;
    SwapShuffles(s, l, r, lo, hi);
    if gap {
      var t := Swapped(s, l, r);
      SwapShuffles(t, r, pos, lo, hi);
      ShuffledTrans(s, t, Swapped(t, r, pos), lo, hi);
    }
  }

  lemma {:induction false} ExchangeSides<T>(s: seq<T>, l: int, r: int, gap: bool, pos: int, lo: int, hi: int, pivot: T, less: (T, T) -> bool)
    requires 0 <= lo <= l < r < hi <= |s| && (gap ==> r < pos < hi)
    requires AllLess(s, lo, l, pivot, less) && NoneLess(s, r + 1, hi, pivot, less)
    requires !less(s[l], pivot) && less(s[r], pivot)
    ensures var t := Exchanged(s, l, r, gap, pos); AllLess(t, lo, l + 1, pivot, less) && NoneLess(t, r, hi, pivot, less)
  {
    var t := Exchanged(s, l, r, gap, pos);
    assert t[l] == s[r];
    forall k | r <= k < hi ensures !less(t[k], pivot) {
      if k == r { assert t[k] == if gap then s[pos] else s[l]; }
      else if gap && k == pos { assert t[k] == s[l]; }
      else { assert t[k] == s[k]; }
    }
  }

  /** Moves the element at l out or into the gap, and the one at r to l: the gap is then at r. */
  method Exchange<T>(a: array<T>, l: nat, r: nat, gap: bool, pos: nat, val: T, ghost s: seq<T>) returns (out: T)
    requires l < r < a.Length && Stands(a[..], s, gap, pos, val) && (gap ==> r < pos)
    modifies a
    ensures Stands(a[..], Exchanged(s, l, r, gap, pos), true, r, out)
  {
    if !gap {
      out := a[l];
    } else {
      out := val;
      a[pos] := a[l];
    }
    a[l] := a[r];
    var t := Exchanged(s, l, r, gap, pos);
    assert a[..][r := out] == t;
  }

  /** Rearranges the stretch so that exactly the elements less than the pivot come before the index returned,
      whatever order the two sides end in. */
  method HoareCyclic<T>(a: array<T>, lo: nat, hi: nat, pivot: T, less: (T, T) -> bool) returns (left: nat)
    requires lo <= hi <= a.Length
    modifies a
    ensures lo <= left <= hi && Shuffled(old(a[..]), a[..], lo, hi)
    ensures AllLess(a[..], lo, left, pivot, less) && NoneLess(a[..], left, hi, pivot, less)
  {
    hide Shuffled, AllLess, NoneLess, Stands, Exchanged;
    ghost var s := a[..];
    left := lo;
    var right: int := hi;
    var pos: nat := 0;
    var gap, val := false, pivot;
    Starts(s, lo, hi, pivot, less, val);
    while true
      invariant lo <= left <= right <= hi && (gap ==> pos == right < hi)
      invariant |s| == a.Length && Stands(a[..], s, gap, pos, val) && Shuffled(old(a[..]), s, lo, hi)
      invariant AllLess(s, lo, left, pivot, less) && NoneLess(s, right, hi, pivot, less)
      decreases right - left
    {
      left := FromLeft(a, left, right, pivot, less, s, gap, pos, val, lo);
      ghost var end := right;
      right := FromRight(a, left, right, pivot, less, s, gap, pos, val, hi);
      if left >= right {
        Met(s, left, right, end, hi, pivot, less);
        break;
      }
      ExchangeShuffles(s, left, right, gap, pos, lo, hi);
      ExchangeSides(s, left, right, gap, pos, lo, hi, pivot, less);
      ghost var t := Exchanged(s, left, right, gap, pos);
      ShuffledTrans(old(a[..]), s, t, lo, hi);
      val := Exchange(a, left, right, gap, pos, val, s);
      s, gap, pos, left := t, true, right, left + 1;
    }
    Fill(a, gap, pos, val, s);
  }

  method Fill<T>(a: array<T>, gap: bool, pos: nat, val: T, ghost s: seq<T>)
    requires Stands(a[..], s, gap, pos, val)
    modifies a
    ensures a[..] == s
  {
    if gap { a[pos] := val; }
  }

  lemma {:induction false} Starts<T>(s: seq<T>, lo: int, hi: int, pivot: T, less: (T, T) -> bool, val: T)
    requires 0 <= lo <= hi <= |s|
    ensures AllLess(s, lo, lo, pivot, less) && NoneLess(s, hi, hi, pivot, less) && Shuffled(s, s, lo, hi) && Stands(s, s, false, 0, val)
  {
  }

  lemma {:induction false} Met<T>(s: seq<T>, left: int, right: int, end: int, hi: int, pivot: T, less: (T, T) -> bool)
    requires 0 <= left <= end <= hi <= |s| && left - 1 <= right <= left && (right < left ==> left == end)
    requires NoneLess(s, end, hi, pivot, less)
    requires left < end ==> !less(s[left], pivot) && NoneLess(s, right + 1, hi, pivot, less)
    ensures NoneLess(s, left, hi, pivot, less)
  {
  }

  /** The first element from `from` on, before `right`, not less than the pivot. */
  method FromLeft<T>(a: array<T>, from: nat, right: nat, pivot: T, less: (T, T) -> bool, ghost s: seq<T>, ghost gap: bool, ghost pos: nat,
                     ghost val: T, ghost lo: nat) returns (left: nat)
    requires lo <= from <= right <= a.Length && Stands(a[..], s, gap, pos, val) && (gap ==> pos == right)
    requires AllLess(s, lo, from, pivot, less)
    ensures from <= left <= right && AllLess(s, lo, left, pivot, less)
    ensures left < right ==> !less(s[left], pivot)
  {
    left := from;
    while left < right && less(a[left], pivot)
      invariant from <= left <= right && AllLess(s, lo, left, pivot, less)
    {
      assert a[..][left] == s[left];
      left := left + 1;
    }
    if left < right { assert a[..][left] == s[left]; }
  }

  /** From before `end` down, the last element less than the pivot, or where the left side ends. */
  method FromRight<T>(a: array<T>, left: nat, end: nat, pivot: T, less: (T, T) -> bool, ghost s: seq<T>, ghost gap: bool, ghost pos: nat,
                      ghost val: T, ghost hi: nat) returns (right: int)
    requires left <= end <= hi <= a.Length && Stands(a[..], s, gap, pos, val) && (gap ==> pos == end)
    requires NoneLess(s, end, hi, pivot, less)
    ensures left - 1 <= right < end || right == end - 1
    ensures left < end ==> left <= right && NoneLess(s, right + 1, hi, pivot, less)
    ensures left < right ==> less(s[right], pivot)
  {
    right := end - 1;
    while !(left >= right || less(a[right], pivot))
      invariant right < end && (left < end ==> left <= right && NoneLess(s, right + 1, hi, pivot, less))
      invariant left == end ==> right == end - 1
      decreases right
    {
      assert a[..][right] == s[right];
      right := right - 1;
    }
    if left < right { assert a[..][right] == s[right]; }
  }

  method Swap<T>(a: array<T>, i: nat, j: nat)
    requires i < a.Length && j < a.Length
    modifies a
    ensures a[..] == Swapped(old(a[..]), i, j)
  {
    a[i], a[j] := a[j], a[i];
  }

  /** Splits a stretch around its element at p; m is where that element ends up. */
  method Partition<T>(a: array<T>, lo: nat, hi: nat, p: nat, less: (T, T) -> bool) returns (m: nat)
    requires lo <= p < hi <= a.Length
    modifies a
    ensures lo <= m < hi && Shuffled(old(a[..]), a[..], lo, hi) && a[..][m] == old(a[..])[p]
    ensures AllLess(a[..], lo, m, a[..][m], less) && NoneLess(a[..], m + 1, hi, a[..][m], less)
  {
    hide Shuffled, AllLess, NoneLess, Swapped;
    ghost var s := a[..];
    Swap(a, lo, p);
    ghost var t := a[..];
    SwapShuffles(s, lo, p, lo, hi);
    SwappedAt(s, lo, p);
    var pivot := a[lo];
    assert t[lo] == pivot;
    var left := HoareCyclic(a, lo + 1, hi, pivot, less);
    ghost var u := a[..];
    ShuffledWider(t, u, lo + 1, hi, lo, hi);
    ShuffledTrans(s, t, u, lo, hi);
    ShuffledOut(t, u, lo + 1, hi, lo);
    m := left - 1;
    Swap(a, lo, m);
    SwapShuffles(u, lo, m, lo, hi);
    ShuffledTrans(s, u, a[..], lo, hi);
    SwappedAt(u, lo, m);
    PivotPlaced(u, lo, m, hi, pivot, less);
  }

  lemma {:induction false} SwappedAt<T>(s: seq<T>, i: int, j: int)
    requires 0 <= i < |s| && 0 <= j < |s|
    ensures var t := Swapped(s, i, j); |t| == |s| && t[i] == s[j] && t[j] == s[i]
  {
  }

  lemma {:induction false} ShuffledOut<T>(s: seq<T>, t: seq<T>, lo: int, hi: int, k: int)
    requires 0 <= k < lo <= hi <= |s| && Shuffled(s, t, lo, hi)
    ensures |t| == |s| && t[k] == s[k]
  {
  }

  lemma {:induction false} PivotPlaced<T>(u: seq<T>, lo: int, m: int, hi: int, pivot: T, less: (T, T) -> bool)
    requires 0 <= lo <= m < hi <= |u| && u[lo] == pivot
    requires AllLess(u, lo + 1, m + 1, pivot, less) && NoneLess(u, m + 1, hi, pivot, less)
    ensures var t := Swapped(u, lo, m); AllLess(t, lo, m, pivot, less) && NoneLess(t, m + 1, hi, pivot, less)
  {
  }
}
