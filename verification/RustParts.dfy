/** The pieces of the sort: insertion, runs and pivots. */
module RustParts {
  import opened SortOrder

  // ----- insertion -----

  /** The element at i taken out and put back at j. */
  function Moved<T>(s: seq<T>, j: int, i: int): (t: seq<T>)
    requires 0 <= j <= i < |s|
    ensures |t| == |s|
  {
    s[..j] + [s[i]] + s[j..i] + s[i + 1..]
  }

  lemma {:induction false} MovedAt<T>(s: seq<T>, j: int, i: int)
    requires 0 <= j <= i < |s|
    ensures var t := Moved(s, j, i);
      && |t| == |s| && t[j] == s[i]
      && (forall k :: 0 <= k < j || i < k < |s| ==> t[k] == s[k])
      && (forall k :: j < k <= i ==> t[k] == s[k - 1])
  {
  }

  lemma {:induction false} MovedMultiset<T>(s: seq<T>, j: int, i: int)
    requires 0 <= j <= i < |s|
    ensures multiset(Moved(s, j, i)) == multiset(s)
  {
    assert s == s[..j] + s[j..i] + [s[i]] + s[i + 1..];
  }

  lemma {:induction false} MovedShuffles<T>(s: seq<T>, j: int, i: int, lo: int, hi: int)
    requires 0 <= lo <= j <= i < hi <= |s|
    ensures Shuffled(s, Moved(s, j, i), lo, hi)
  {
    hide Moved;
    MovedAt(s, j, i);
    MovedAt(s[lo..hi], j - lo, i - lo);
    MovedMultiset(s[lo..hi], j - lo, i - lo);
    var t, u := Moved(s, j, i), Moved(s[lo..hi], j - lo, i - lo);
    assert t[lo..hi] == u;
  }

  /** Putting an element before those greater than it keeps a stretch sorted. */
  lemma {:induction false} MovedSorted<T(!new)>(s: seq<T>, lo: int, j: int, i: int, less: (T, T) -> bool)
    requires WeakOrder(less) && 0 <= lo <= j <= i < |s| && SortedIn(s, lo, i, less)
    requires forall k :: j <= k < i ==> less(s[i], s[k])
    requires j > lo ==> !less(s[i], s[j - 1])
    ensures SortedIn(Moved(s, j, i), lo, i + 1, less)
  {
    hide Moved;
    MovedAt(s, j, i);
    var t := Moved(s, j, i);
    forall x, y | lo <= x < y < i + 1 ensures !less(t[y], t[x]) {
      if y == j {
        assert t[y] == s[i] && t[x] == s[x];
        assert !less(s[j - 1], s[x]) || x == j - 1;
      } else if x == j {
        assert t[x] == s[i] && t[y] == s[y - 1];
        assert less(s[i], s[y - 1]);
      } else {
        assert t[x] == s[if x < j then x else x - 1] && t[y] == s[if y < j then y else y - 1];
      }
    }
  }

  /** Extends the sorted stretch [lo, i) by a[i]. */
  method InsertOne<T(!new)>(a: array<T>, lo: nat, i: nat, less: (T, T) -> bool) returns (ghost j: nat)
    requires lo <= i < a.Length
    modifies a
    ensures lo <= j <= i && a[..] == Moved(old(a[..]), j, i)
    ensures forall k :: j <= k < i ==> less(old(a[..])[i], old(a[..])[k])
    ensures j > lo ==> !less(old(a[..])[i], old(a[..])[j - 1])
  {
    ghost var s := a[..];
    var tmp, at := a[i], i;
    while at > lo && less(tmp, a[at - 1])
      invariant lo <= at <= i && tmp == s[i]
      invariant a[..] == s[..at + 1] + s[at..i] + s[i + 1..]
      invariant forall k :: at <= k < i ==> less(tmp, s[k])
    {
      assert a[..][at - 1] == s[at - 1];
      a[at] := a[at - 1];
      at := at - 1;
    }
    assert at > lo ==> a[..][at - 1] == s[at - 1];
    a[at] := tmp;
    j := at;
  }

  /** Inserts the elements from offset on, one by one, into the sorted ones before. */
  method InsertionSort<T(!new)>(a: array<T>, lo: nat, hi: nat, less: (T, T) -> bool)
    requires lo <= hi <= a.Length && WeakOrder(less)
    modifies a
    ensures Shuffled(old(a[..]), a[..], lo, hi) && SortedIn(a[..], lo, hi, less)
    ensures SortedIn(old(a[..]), lo, hi, less) ==> a[..] == old(a[..])
  {
    hide Shuffled, WeakOrder;
    ghost var s := a[..];
    ShuffledSame(s, lo, hi);
    var i := lo + 1;
    while i < hi
      invariant lo < i && (i <= hi || i == lo + 1)
      invariant Shuffled(s, a[..], lo, hi) && (i <= hi ==> SortedIn(a[..], lo, i, less))
      invariant |a[..]| == a.Length
      invariant SortedIn(s, lo, hi, less) ==> a[..] == s
    {
      ghost var t := a[..];
      if !less(a[i], a[i - 1]) {
        SortedOn(t, lo, i, less);
      } else {
        ghost var j := InsertOne(a, lo, i, less);
        MovedSorted(t, lo, j, i, less);
        MovedShuffles(t, j, i, lo, hi);
        ShuffledTrans(s, t, a[..], lo, hi);
      }
      i := i + 1;
    }
  }

  lemma {:induction false} SortedOn<T(!new)>(s: seq<T>, lo: int, i: int, less: (T, T) -> bool)
    requires WeakOrder(less) && 0 <= lo < i < |s| && SortedIn(s, lo, i, less) && !less(s[i], s[i - 1])
    ensures SortedIn(s, lo, i + 1, less)
  {
    forall x, y | lo <= x < y < i + 1 ensures !less(s[y], s[x]) {
      if y == i && x < i - 1 { assert !less(s[i - 1], s[x]); }
    }
  }

  // ----- runs -----

  /** The greatest n whose first n elements are sorted, or each less than the one before, and which of the two. */
  method ExistingRun<T(!new)>(a: array<T>, less: (T, T) -> bool) returns (n: nat, descending: bool)
    requires a.Length >= 2
    ensures 2 <= n <= a.Length
    ensures descending ==> forall k :: 0 < k < n ==> less(a[k], a[k - 1])
    ensures !descending ==> forall k :: 0 < k < n ==> !less(a[k], a[k - 1])
    ensures n < a.Length && !descending ==> less(a[n], a[n - 1])
    ensures descending <==> less(a[1], a[0])
  {
    n := 2;
    descending := less(a[1], a[0]);
    if descending {
      while n < a.Length && less(a[n], a[n - 1])
        invariant 2 <= n <= a.Length && forall k :: 0 < k < n ==> less(a[k], a[k - 1])
      {
        n := n + 1;
      }
    } else {
      while n < a.Length && !less(a[n], a[n - 1])
        invariant 2 <= n <= a.Length && forall k :: 0 < k < n ==> !less(a[k], a[k - 1])
      {
        n := n + 1;
      }
    }
  }

  function Reversed<T>(s: seq<T>): (t: seq<T>)
    ensures |t| == |s| && forall k :: 0 <= k < |s| ==> t[k] == s[|s| - 1 - k]
  {
    seq(|s|, k requires 0 <= k < |s| => s[|s| - 1 - k])
  }

  lemma {:induction false} ReversedMultiset<T>(s: seq<T>)
    ensures multiset(Reversed(s)) == multiset(s)
  {
    if s != [] {
      var m := |s| - 1;
      ReversedMultiset(s[..m]);
      assert s == s[..m] + [s[m]];
      assert Reversed(s) == [s[m]] + Reversed(s[..m]);
    }
  }

  /** Turns the array round. */
  method Reverse<T>(a: array<T>)
    modifies a
    ensures a[..] == Reversed(old(a[..]))
  {
    var i, j: int := 0, a.Length - 1;
    while i < j
      invariant 0 <= i && i + j == a.Length - 1 && -1 <= j
      invariant forall k :: 0 <= k < i ==> a[k] == old(a[a.Length - 1 - k]) && a[a.Length - 1 - k] == old(a[k])
      invariant forall k :: i <= k <= j ==> a[k] == old(a[k])
    {
      a[i], a[j] := a[j], a[i];
      i, j := i + 1, j - 1;
    }
  }

  lemma {:induction false} RunSorted<T(!new)>(s: seq<T>, less: (T, T) -> bool, i: int, j: int)
    requires WeakOrder(less) && 0 <= i < j < |s| && forall k :: 0 < k < |s| ==> !less(s[k], s[k - 1])
    ensures !less(s[j], s[i])
    decreases j
  {
    if i < j - 1 { RunSorted(s, less, i, j - 1); }
  }

  lemma {:induction false} DescentSorted<T(!new)>(s: seq<T>, less: (T, T) -> bool, i: int, j: int)
    requires WeakOrder(less) && 0 <= i < j < |s| && forall k :: 0 < k < |s| ==> less(s[k], s[k - 1])
    ensures !less(s[i], s[j])
    decreases j
  {
    if i < j - 1 {
      DescentSorted(s, less, i, j - 1);
      assert !less(s[j - 1], s[j]);
    }
  }

  // ----- pivots -----

  /** The middle one of three elements. */
  method Median3<T>(a: array<T>, x: nat, y: nat, z: nat, less: (T, T) -> bool) returns (m: nat)
    requires x < a.Length && y < a.Length && z < a.Length
    ensures m == x || m == y || m == z
  {
    var p, q := less(a[x], a[y]), less(a[x], a[z]);
    if p == q {
      return if less(a[y], a[z]) != p then z else y;
    }
    return x;
  }

  /** The median of three samples, each a median itself while the stretch is long. */
  method Median3Rec<T>(a: array<T>, x: nat, y: nat, z: nat, n: nat, less: (T, T) -> bool, ghost lo: nat, ghost hi: nat) returns (m: nat)
    requires n > 0 && lo <= x && lo <= y && lo <= z && x + n <= hi && y + n <= hi && z + n <= hi <= a.Length
    ensures lo <= m < hi
    decreases n
  {
    var i, j, k := x, y, z;
    if n * 8 >= 64 {
      var n8 := n / 8;
      i := Median3Rec(a, x, x + n8 * 4, x + n8 * 7, n8, less, lo, hi);
      j := Median3Rec(a, y, y + n8 * 4, y + n8 * 7, n8, less, lo, hi);
      k := Median3Rec(a, z, z + n8 * 4, z + n8 * 7, n8, less, lo, hi);
    }
    m := Median3(a, i, j, k, less);
  }

  /** The index of some element of the stretch: any would do for the sort. */
  method ChoosePivot<T>(a: array<T>, lo: nat, hi: nat, less: (T, T) -> bool) returns (m: nat)
    requires lo + 8 <= hi <= a.Length
    ensures lo <= m < hi
  {
    var n8 := (hi - lo) / 8;
    if hi - lo < 64 {
      m := Median3(a, lo, lo + n8 * 4, lo + n8 * 7, less);
    } else {
      m := Median3Rec(a, lo, lo + n8 * 4, lo + n8 * 7, n8, less, lo, hi);
    }
  }
}
