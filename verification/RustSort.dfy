/** Rust's unstable sort for large elements: a sorted permutation for every order and length, and a
    sorted input comes out as it was. */
module RustSort {
  import opened Common
  import opened SortOrder
  import opened RustPartition
  import opened RustHeap
  import opened RustParts

  /** No element of [m, hi) is less than one of [lo, m). */
  ghost predicate Below<T>(s: seq<T>, lo: int, m: int, hi: int, less: (T, T) -> bool)
    requires 0 <= lo && m <= |s| && 0 <= m && hi <= |s|
  {
    forall i, j :: lo <= i < m && m <= j < hi ==> !less(s[j], s[i])
  }

  ghost predicate Bound<T>(s: seq<T>, lo: int, hi: int, low: Option<T>, less: (T, T) -> bool)
    requires 0 <= lo && hi <= |s|
  {
    low.Some? ==> forall k :: lo <= k < hi ==> !less(s[k], low.value)
  }

  lemma {:induction false} BelowKept<T>(s: seq<T>, t: seq<T>, lo: int, m: int, hi: int, less: (T, T) -> bool)
    requires 0 <= lo <= m <= hi <= |s| && Below(s, lo, m, hi, less) && SortedIn(s, lo, m, less) && Shuffled(s, t, m, hi)
    ensures |t| == |s| && Below(t, lo, m, hi, less) && SortedIn(t, lo, m, less)
  {
    forall i, j | lo <= i < m && m <= j < hi ensures !less(t[j], t[i]) {
      var k := ShuffledFrom(s, t, m, hi, j);
      assert t[i] == s[i] && t[j] == s[k];
    }
    forall i, j | lo <= i < j < m ensures !less(t[j], t[i]) { assert t[i] == s[i] && t[j] == s[j]; }
  }

  lemma {:induction false} BoundKept<T>(s: seq<T>, t: seq<T>, lo: int, hi: int, low: Option<T>, less: (T, T) -> bool)
    requires 0 <= lo <= hi <= |s| && Bound(s, lo, hi, low, less) && Shuffled(s, t, lo, hi)
    ensures |t| == |s| && Bound(t, lo, hi, low, less)
  {
    hide Shuffled;
    ShuffledLength(s, t, lo, hi);
    forall k | lo <= k < hi ensures low.Some? ==> !less(t[k], low.value) { var j := ShuffledFrom(s, t, lo, hi, k); }
  }

  lemma {:induction false} ShuffledLength<T>(s: seq<T>, t: seq<T>, lo: int, hi: int)
    requires 0 <= lo <= hi <= |s| && Shuffled(s, t, lo, hi)
    ensures |t| == |s|
  {
  }

  lemma {:induction false} SortedMore<T(!new)>(s: seq<T>, lo: int, m: int, n: int, hi: int, less: (T, T) -> bool)
    requires 0 <= lo <= m <= n <= hi <= |s|
    requires SortedIn(s, lo, m, less) && Below(s, lo, m, hi, less) && SortedIn(s, m, n, less) && Below(s, m, n, hi, less)
    ensures SortedIn(s, lo, n, less) && Below(s, lo, n, hi, less)
  {
  }

  /** The left side of a partition, sorted, with its pivot, is below the right side. */
  lemma {:induction false} LeftDone<T(!new)>(s: seq<T>, t: seq<T>, lo: int, m: int, hi: int, less: (T, T) -> bool)
    requires WeakOrder(less) && 0 <= lo <= m < hi <= |s| && Shuffled(s, t, lo, m) && SortedIn(t, lo, m, less)
    requires AllLess(s, lo, m, s[m], less) && NoneLess(s, m + 1, hi, s[m], less)
    ensures |t| == |s| && SortedIn(t, lo, m + 1, less) && Below(t, lo, m + 1, hi, less) && Bound(t, m + 1, hi, Some(t[m]), less)
  {
    hide WeakOrder;
    forall i | lo <= i < m ensures less(t[i], s[m]) { var k := ShuffledFrom(s, t, lo, m, i); }
    assert t[m] == s[m];
    forall j | m < j < hi ensures !less(t[j], t[m]) { assert t[j] == s[j]; }
    Joined(t, lo, m, hi, less);
  }

  lemma {:induction false} Joined<T(!new)>(t: seq<T>, lo: int, m: int, hi: int, less: (T, T) -> bool)
    requires WeakOrder(less) && 0 <= lo <= m < hi <= |t| && SortedIn(t, lo, m, less)
    requires forall i :: lo <= i < m ==> less(t[i], t[m])
    requires forall j :: m < j < hi ==> !less(t[j], t[m])
    ensures SortedIn(t, lo, m + 1, less) && Below(t, lo, m + 1, hi, less)
  {
    forall i, j | lo <= i < m + 1 && m + 1 <= j < hi ensures !less(t[j], t[i]) {
      if i < m { assert !less(t[m], t[i]); }
    }
  }

  function NotAfter<T>(less: (T, T) -> bool): (T, T) -> bool {
    (a, b) => !less(b, a)
  }

  /** Elements no less than a pivot and not after it are equal, so they are sorted. */
  lemma {:induction false} EqualsDone<T(!new)>(t: seq<T>, lo: int, m: int, hi: int, low: T, less: (T, T) -> bool)
    requires WeakOrder(less) && 0 <= lo <= m < hi <= |t| && Bound(t, lo, hi, Some(low), less) && !less(low, t[m])
    requires AllLess(t, lo, m, t[m], NotAfter(less)) && NoneLess(t, m + 1, hi, t[m], NotAfter(less))
    ensures SortedIn(t, lo, m + 1, less) && Below(t, lo, m + 1, hi, less)
  {
    var pivot := t[m];
    forall k | lo <= k <= m ensures !less(t[k], pivot) && !less(pivot, t[k]) {
      assert !less(t[k], low);
      if k < m { assert NotAfter(less)(t[k], pivot); }
    }
    forall i, j | lo <= i < j < m + 1 ensures !less(t[j], t[i]) { assert !less(pivot, t[i]); }
    forall i, j | lo <= i < m + 1 && m + 1 <= j < hi ensures !less(t[j], t[i]) {
      assert !NotAfter(less)(t[j], pivot);
      assert !less(t[j], pivot) && !less(pivot, t[i]);
    }
  }

  /** One turn of the quicksort: up to m the stretch is done. */
  method QuickStep<T(!new)>(a: array<T>, lo: nat, hi: nat, low: Option<T>, limit: nat, less: (T, T) -> bool)
    returns (m: nat, next: Option<T>)
    requires lo + 16 < hi <= a.Length && WeakOrder(less) && Bound(a[..], lo, hi, low, less)
    modifies a
    ensures lo < m <= hi && Shuffled(old(a[..]), a[..], lo, hi)
    ensures SortedIn(a[..], lo, m, less) && Below(a[..], lo, m, hi, less) && Bound(a[..], m, hi, next, less)
    decreases hi - lo, 0
  {
    hide Shuffled, AllLess, NoneLess, SortedIn, Below, Bound, WeakOrder, NotAfter;
    ghost var s := a[..];
    var p := ChoosePivot(a, lo, hi, less);
    if low.Some? && !less(low.value, a[p]) {
      var at := Partition(a, lo, hi, p, NotAfter(less));
      BoundKept(s, a[..], lo, hi, low, less);
      EqualsDone(a[..], lo, at, hi, low.value, less);
      Unbound(a[..], at + 1, hi, less);
      return at + 1, None;
    }
    var at := Partition(a, lo, hi, p, less);
    ghost var t := a[..];
    BoundKept(s, t, lo, hi, low, less);
    BoundLeft(t, lo, at, hi, low, less);
    var pivot := a[at];
    Quicksort(a, lo, at, low, limit, less);
    LeftDone(t, a[..], lo, at, hi, less);
    ShuffledWider(t, a[..], lo, at, lo, hi);
    ShuffledTrans(s, t, a[..], lo, hi);
    SameAt(t, a[..], lo, at);
    return at + 1, Some(pivot);
  }

  lemma {:induction false} SameAt<T>(s: seq<T>, t: seq<T>, lo: int, m: int)
    requires 0 <= lo <= m < |s| && Shuffled(s, t, lo, m)
    ensures |t| == |s| && t[m] == s[m]
  {
  }

  lemma {:induction false} Unbound<T>(s: seq<T>, lo: int, hi: int, less: (T, T) -> bool)
    requires 0 <= lo && hi <= |s|
    ensures Bound(s, lo, hi, None, less)
  {
  }

  lemma {:induction false} BoundLeft<T>(s: seq<T>, lo: int, m: int, hi: int, low: Option<T>, less: (T, T) -> bool)
    requires 0 <= lo <= m <= hi <= |s| && Bound(s, lo, hi, low, less)
    ensures Bound(s, lo, m, low, less)
  {
  }

  /** `low` is the pivot of the partition this stretch lies right of, none for the whole array. */
  method Quicksort<T(!new)>(a: array<T>, lo: nat, hi: nat, low: Option<T>, limit: nat, less: (T, T) -> bool)
    requires lo <= hi <= a.Length && WeakOrder(less) && Bound(a[..], lo, hi, low, less)
    modifies a
    ensures Shuffled(old(a[..]), a[..], lo, hi) && SortedIn(a[..], lo, hi, less)
    decreases hi - lo, 1
  {
    hide Shuffled, SortedIn, Below, Bound, WeakOrder;
    ghost var s := a[..];
    var from, left, bound := lo, limit, low;
    Nothing(s, lo, hi, less);
    while true
      invariant lo <= from <= hi && Shuffled(s, a[..], lo, hi) && |a[..]| == |s|
      invariant SortedIn(a[..], lo, from, less) && Below(a[..], lo, from, hi, less) && Bound(a[..], from, hi, bound, less)
      decreases hi - from
    {
      ghost var t := a[..];
      if hi - from <= 16 || left == 0 {
        if hi - from <= 16 { InsertionSort(a, from, hi, less); } else { Heapsort(a, from, hi, less); }
        AllDone(s, t, a[..], lo, from, hi, less);
        return;
      }
      left := left - 1;
      ghost var f := from;
      from, bound := QuickStep(a, from, hi, bound, left, less);
      BelowKept(t, a[..], lo, f, hi, less);
      SortedMore(a[..], lo, f, from, hi, less);
      ShuffledWider(t, a[..], f, hi, lo, hi);
      ShuffledTrans(s, t, a[..], lo, hi);
    }
  }

  lemma {:induction false} Nothing<T>(s: seq<T>, lo: int, hi: int, less: (T, T) -> bool)
    requires 0 <= lo <= hi <= |s|
    ensures Shuffled(s, s, lo, hi) && SortedIn(s, lo, lo, less) && Below(s, lo, lo, hi, less)
  {
  }

  lemma {:induction false} AllDone<T(!new)>(s: seq<T>, t: seq<T>, u: seq<T>, lo: int, from: int, hi: int, less: (T, T) -> bool)
    requires 0 <= lo <= from <= hi <= |s| && |t| == |s| && Shuffled(s, t, lo, hi)
    requires SortedIn(t, lo, from, less) && Below(t, lo, from, hi, less)
    requires Shuffled(t, u, from, hi) && |u| == |t| && SortedIn(u, from, hi, less)
    ensures Shuffled(s, u, lo, hi) && SortedIn(u, lo, hi, less)
  {
    hide Shuffled, SortedIn;
    BelowKept(t, u, lo, from, hi, less);
    SortedMore(u, lo, from, hi, hi, less);
    ShuffledWider(t, u, from, hi, lo, hi);
    ShuffledTrans(s, t, u, lo, hi);
  }

  /** The bits of n. */
  function BitLen(n: nat): nat { if n == 0 then 0 else 1 + BitLen(n / 2) }

  /** Sorts the array; one that is sorted already stays exactly as it is. */
  method Sort<T(!new)>(a: array<T>, less: (T, T) -> bool)
    requires WeakOrder(less)
    modifies a
    ensures multiset(a[..]) == multiset(old(a[..])) && SortedIn(a[..], 0, a.Length, less)
    ensures SortedIn(old(a[..]), 0, a.Length, less) ==> a[..] == old(a[..])
  {
    hide Shuffled, SortedIn, Bound, WeakOrder, Reversed;
    ghost var s := a[..];
    if a.Length < 2 {
      Short(s, less);
      return;
    }
    if a.Length <= 20 {
      InsertionSort(a, 0, a.Length, less);
      WholeShuffled(s, a[..]);
      return;
    }
    var run, descending := ExistingRun(a, less);
    if run == a.Length {
      RunDone(s, descending, less);
      if descending { Reverse(a); ReversedMultiset(s); }
      return;
    }
    NotSorted(s, run, descending, less);
    Unbound(s, 0, a.Length, less);
    Quicksort(a, 0, a.Length, None, 2 * (BitLen(a.Length) - 1), less);
    WholeShuffled(s, a[..]);
  }

  lemma {:induction false} Short<T>(s: seq<T>, less: (T, T) -> bool)
    requires |s| < 2
    ensures SortedIn(s, 0, |s|, less)
  {
  }

  lemma {:induction false} WholeShuffled<T>(s: seq<T>, t: seq<T>)
    requires Shuffled(s, t, 0, |s|)
    ensures multiset(t) == multiset(s) && |t| == |s|
  {
    assert s[0..|s|] == s && t[0..|t|] == t;
  }

  /** An array that is one run is sorted, or its reverse is and it was not. */
  lemma {:induction false} RunDone<T(!new)>(s: seq<T>, descending: bool, less: (T, T) -> bool)
    requires WeakOrder(less) && |s| >= 2
    requires descending ==> forall k :: 0 < k < |s| ==> less(s[k], s[k - 1])
    requires !descending ==> forall k :: 0 < k < |s| ==> !less(s[k], s[k - 1])
    ensures !descending ==> SortedIn(s, 0, |s|, less)
    ensures descending ==> SortedIn(Reversed(s), 0, |s|, less) && !SortedIn(s, 0, |s|, less)
  {
    if descending {
      var t := Reversed(s);
      forall i, j | 0 <= i < j < |s| ensures !less(t[j], t[i]) { DescentSorted(s, less, |s| - 1 - j, |s| - 1 - i); }
      assert less(s[1], s[0]);
    } else {
      forall i, j | 0 <= i < j < |s| ensures !less(s[j], s[i]) { RunSorted(s, less, i, j); }
    }
  }

  lemma {:induction false} NotSorted<T>(s: seq<T>, run: int, descending: bool, less: (T, T) -> bool)
    requires 2 <= run < |s| && (descending ==> less(s[1], s[0])) && (!descending ==> less(s[run], s[run - 1]))
    ensures !SortedIn(s, 0, |s|, less)
  {
  }
}
