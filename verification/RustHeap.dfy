/** The heapsort the quicksort turns to after too many bad pivots. */
module RustHeap {
  import opened SortOrder
  import opened RustPartition

  function Parent(c: int): int
    requires c >= 1
  {
    (c - 1) / 2
  }

  /** The c-th element of the heap at lo is not greater than its parent. */
  ghost predicate Under<T>(s: seq<T>, lo: int, c: int, less: (T, T) -> bool)
    requires 0 <= lo && 1 <= c && lo + c < |s|
  {
    !less(s[lo + Parent(c)], s[lo + c])
  }

  /** Below `from`-th elements the m elements at lo form a heap, but for what is below `node`. */
  ghost predicate HeapBut<T>(s: seq<T>, lo: int, m: int, from: int, node: int, less: (T, T) -> bool)
    requires 0 <= lo && lo + m <= |s|
  {
    forall c :: 1 <= c < m && from <= Parent(c) && Parent(c) != node ==> Under(s, lo, c, less)
  }

  /** What is below `node` is not greater than its parent. */
  ghost predicate Bridged<T>(s: seq<T>, lo: int, m: int, from: int, node: int, less: (T, T) -> bool)
    requires 0 <= lo && lo + m <= |s| && 0 <= node
  {
    node >= 1 && from <= Parent(node) ==>
      forall c :: 1 <= c < m && Parent(c) == node && Parent(node) < m ==> !less(s[lo + Parent(node)], s[lo + c])
  }

  /** The greater child of a node, and whether it is greater than the node. */
  method GreaterChild<T(!new)>(a: array<T>, lo: nat, m: nat, node: nat, less: (T, T) -> bool) returns (child: nat)
    requires WeakOrder(less) && lo + m <= a.Length && 2 * node + 1 < m
    ensures (child == 2 * node + 1 || child == 2 * node + 2) && child < m
    ensures forall c :: 1 <= c < m && Parent(c) == node ==> !less(a[..][lo + child], a[..][lo + c])
  {
    child := 2 * node + 1;
    if child + 1 < m && less(a[lo + child], a[lo + child + 1]) { child := child + 1; }
    forall c | 1 <= c < m && Parent(c) == node ensures !less(a[..][lo + child], a[..][lo + c]) {
      assert c == 2 * node + 1 || c == 2 * node + 2;
    }
  }

  lemma {:induction false} SiftDone<T(!new)>(s: seq<T>, lo: int, m: int, from: int, node: int, child: int, less: (T, T) -> bool)
    requires WeakOrder(less) && 0 <= lo && lo + m <= |s| && 0 <= node < m && 0 <= child < m
    requires HeapBut(s, lo, m, from, node, less) && !less(s[lo + node], s[lo + child])
    requires forall c :: 1 <= c < m && Parent(c) == node ==> !less(s[lo + child], s[lo + c])
    ensures HeapBut(s, lo, m, from, -1, less)
  {
    forall c | 1 <= c < m && from <= Parent(c) ensures Under(s, lo, c, less) {
      if Parent(c) == node { assert !less(s[lo + child], s[lo + c]); }
    }
  }

  lemma {:induction false} SiftStep<T(!new)>(s: seq<T>, lo: int, m: int, from: int, node: int, child: int, less: (T, T) -> bool)
    requires WeakOrder(less) && 0 <= lo && lo + m <= |s| && 0 <= node < child < m && Parent(child) == node && from <= node
    requires HeapBut(s, lo, m, from, node, less) && Bridged(s, lo, m, from, node, less) && less(s[lo + node], s[lo + child])
    requires forall c :: 1 <= c < m && Parent(c) == node ==> !less(s[lo + child], s[lo + c])
    ensures var t := Swapped(s, lo + node, lo + child); HeapBut(t, lo, m, from, child, less) && Bridged(t, lo, m, from, child, less)
  {
    var t := Swapped(s, lo + node, lo + child);
    forall c | 1 <= c < m && from <= Parent(c) && Parent(c) != child ensures Under(t, lo, c, less) {
      StepUnder(s, lo, m, from, node, child, c, less);
    }
    forall c | 1 <= c < m && Parent(c) == child ensures !less(t[lo + node], t[lo + c]) {
      assert Under(s, lo, c, less);
    }
  }

  lemma {:induction false} StepUnder<T(!new)>(s: seq<T>, lo: int, m: int, from: int, node: int, child: int, c: int, less: (T, T) -> bool)
    requires WeakOrder(less) && 0 <= lo && lo + m <= |s| && 0 <= node < child < m && Parent(child) == node && from <= node
    requires HeapBut(s, lo, m, from, node, less) && Bridged(s, lo, m, from, node, less) && less(s[lo + node], s[lo + child])
    requires forall c :: 1 <= c < m && Parent(c) == node ==> !less(s[lo + child], s[lo + c])
    requires 1 <= c < m && from <= Parent(c) && Parent(c) != child
    ensures Under(Swapped(s, lo + node, lo + child), lo, c, less)
  {
    if c == node {
      assert !less(s[lo + Parent(node)], s[lo + child]);
    } else if Parent(c) == node {
      assert !less(s[lo + child], s[lo + c]);
    } else {
      assert Under(s, lo, c, less);
    }
  }

  /** Moves a node down past greater children. */
  method Sift<T(!new)>(a: array<T>, lo: nat, m: nat, from: nat, start: nat, less: (T, T) -> bool)
    requires WeakOrder(less) && lo + m <= a.Length && from == start
    requires HeapBut(a[..], lo, m, from, start, less)
    modifies a
    ensures Shuffled(old(a[..]), a[..], lo, lo + m) && HeapBut(a[..], lo, m, from, -1, less)
  {
    hide Shuffled, HeapBut, Bridged, WeakOrder, Swapped;
    ghost var s := a[..];
    ShuffledSame(s, lo, lo + m);
    Unbridged(s, lo, m, from, start, less);
    var node := start;
    while 2 * node + 1 < m
      invariant from <= node && |a[..]| == |s| && Shuffled(s, a[..], lo, lo + m)
      invariant HeapBut(a[..], lo, m, from, node, less) && Bridged(a[..], lo, m, from, node, less)
      decreases m - node
    {
      ghost var t := a[..];
      var child := GreaterChild(a, lo, m, node, less);
      if !less(a[lo + node], a[lo + child]) {
        SiftDone(t, lo, m, from, node, child, less);
        return;
      }
      SiftStep(t, lo, m, from, node, child, less);
      SwapTrans(s, t, lo + node, lo + child, lo, lo + m);
      Swap(a, lo + node, lo + child);
      node := child;
    }
    Childless(a[..], lo, m, from, node, less);
  }

  lemma {:induction false} SwapTrans<T>(s: seq<T>, t: seq<T>, i: int, j: int, lo: int, hi: int)
    requires 0 <= lo <= i < hi <= |t| && lo <= j < hi && |s| == |t| && Shuffled(s, t, lo, hi)
    ensures Shuffled(s, Swapped(t, i, j), lo, hi)
  {
    hide Shuffled, Swapped;
    SwapShuffles(t, i, j, lo, hi);
    ShuffledTrans(s, t, Swapped(t, i, j), lo, hi);
  }

  lemma {:induction false} Unbridged<T>(s: seq<T>, lo: int, m: int, from: int, node: int, less: (T, T) -> bool)
    requires 0 <= lo && lo + m <= |s| && 0 <= node == from
    ensures Bridged(s, lo, m, from, node, less)
  {
  }

  lemma {:induction false} Childless<T>(s: seq<T>, lo: int, m: int, from: int, node: int, less: (T, T) -> bool)
    requires 0 <= lo && lo + m <= |s| && 2 * node + 1 >= m && HeapBut(s, lo, m, from, node, less)
    ensures HeapBut(s, lo, m, from, -1, less)
  {
  }

  // ----- the sort -----

  lemma {:induction false} RootGreatest<T(!new)>(s: seq<T>, lo: int, m: int, k: int, less: (T, T) -> bool)
    requires WeakOrder(less) && 0 <= lo && lo + m <= |s| && 0 <= k < m && HeapBut(s, lo, m, 0, -1, less)
    ensures !less(s[lo], s[lo + k])
    decreases k
  {
    if k > 0 {
      assert Under(s, lo, k, less);
      RootGreatest(s, lo, m, Parent(k), less);
    }
  }

  /** From index `at` on the stretch up to `hi` is sorted, and no element before is greater. */
  ghost predicate Tail<T>(s: seq<T>, lo: int, hi: int, at: int, less: (T, T) -> bool)
    requires 0 <= lo && hi <= |s|
  {
    forall x, y :: lo <= x < y < hi && at <= y ==> !less(s[y], s[x])
  }

  /** The greatest element taken out of the heap goes before the sorted tail. */
  lemma {:induction false} TailGrows<T(!new)>(s: seq<T>, lo: int, hi: int, i: int, t: seq<T>, less: (T, T) -> bool)
    requires WeakOrder(less) && 0 <= lo && 0 <= i && lo + i < hi <= |s| && Tail(s, lo, hi, lo + i + 1, less)
    requires HeapBut(s, lo, i + 1, 0, -1, less) && Shuffled(Swapped(s, lo, lo + i), t, lo, lo + i)
    ensures |t| == |s| && Tail(t, lo, hi, lo + i, less)
  {
    hide HeapBut, Swapped, WeakOrder;
    forall x, y | lo <= x < y < hi && lo + i <= y ensures !less(t[y], t[x]) {
      TailAt(s, lo, hi, i, t, x, y, less);
    }
  }

  /** Where an element of t was in s. */
  lemma {:induction false} CameFrom<T>(s: seq<T>, lo: int, i: int, t: seq<T>, x: int) returns (k: int)
    requires 0 <= lo <= x && 0 <= i && lo + i < |s| && x < |s| && Shuffled(Swapped(s, lo, lo + i), t, lo, lo + i)
    ensures |t| == |s| && lo <= k < |s| && t[x] == s[k] && (x <= lo + i ==> k <= lo + i) && (x == lo + i ==> k == lo) && (x > lo + i ==> k == x)
  {
    var u := Swapped(s, lo, lo + i);
    var j := x;
    if x < lo + i { j := ShuffledFrom(u, t, lo, lo + i, x); }
    k := if j == lo + i then lo else if j == lo then lo + i else j;
  }

  lemma {:induction false} TailAt<T(!new)>(s: seq<T>, lo: int, hi: int, i: int, t: seq<T>, x: int, y: int, less: (T, T) -> bool)
    requires WeakOrder(less) && 0 <= lo && 0 <= i && lo + i < hi <= |s| && Tail(s, lo, hi, lo + i + 1, less)
    requires HeapBut(s, lo, i + 1, 0, -1, less) && Shuffled(Swapped(s, lo, lo + i), t, lo, lo + i)
    requires lo <= x < y < hi && lo + i <= y
    ensures |t| == |s| && !less(t[y], t[x])
  {
    hide HeapBut, Swapped, Shuffled, WeakOrder;
    var k := CameFrom(s, lo, i, t, x);
    var l := CameFrom(s, lo, i, t, y);
    if y == lo + i { RootGreatest(s, lo, i + 1, k - lo, less); }
  }

  lemma {:induction false} SwapKeepsHeap<T>(s: seq<T>, lo: int, i: int, less: (T, T) -> bool)
    requires 0 <= lo && 0 <= i && lo + i < |s| && HeapBut(s, lo, i + 1, 0, -1, less)
    ensures HeapBut(Swapped(s, lo, lo + i), lo, i, 0, 0, less)
  {
    var t := Swapped(s, lo, lo + i);
    forall c | 1 <= c < i && Parent(c) != 0 ensures Under(t, lo, c, less) { assert Under(s, lo, c, less); }
  }

  lemma {:induction false} HeapNext<T>(s: seq<T>, lo: int, m: int, from: int, less: (T, T) -> bool)
    requires 0 <= lo && lo + m <= |s| && from >= 1 && HeapBut(s, lo, m, from, -1, less)
    ensures HeapBut(s, lo, m, from - 1, from - 1, less)
  {
  }

  lemma {:induction false} HeapStarts<T>(s: seq<T>, lo: int, n: int, less: (T, T) -> bool)
    requires 0 <= lo && 0 <= n && lo + n <= |s|
    ensures HeapBut(s, lo, n, n / 2, -1, less) && Tail(s, lo, lo + n, lo + n, less)
  {
  }

  lemma {:induction false} TailSorted<T>(s: seq<T>, lo: int, hi: int, less: (T, T) -> bool)
    requires 0 <= lo <= hi <= |s| && Tail(s, lo, hi, lo, less)
    ensures SortedIn(s, lo, hi, less)
  {
  }

  /** Down from n + n/2 - 1: first every inner node sifts down the whole heap, then the root goes to
      the end and its replacement sifts down what is left. */
  method Heapsort<T(!new)>(a: array<T>, lo: nat, hi: nat, less: (T, T) -> bool)
    requires lo <= hi <= a.Length && WeakOrder(less)
    modifies a
    ensures Shuffled(old(a[..]), a[..], lo, hi) && SortedIn(a[..], lo, hi, less)
  {
    hide Shuffled, HeapBut, Tail, SortedIn, Swapped, WeakOrder;
    var n := hi - lo;
    ghost var s := a[..];
    ShuffledSame(s, lo, hi);
    HeapStarts(s, lo, n, less);
    var i: int := n + n / 2 - 1;
    while i >= 0
      invariant -1 <= i < n + n / 2 || (i == -1 && n == 0)
      invariant |a[..]| == |s| && Shuffled(s, a[..], lo, hi)
      invariant i >= n - 1 ==> HeapBut(a[..], lo, n, i + 1 - n, -1, less)
      invariant i < n - 1 ==> HeapBut(a[..], lo, i + 1, 0, -1, less)
      invariant Tail(a[..], lo, hi, lo + if i >= n - 1 then n else i + 1, less)
      decreases i
    {
      ghost var t := a[..];
      if i >= n {
        HeapNext(t, lo, n, i + 1 - n, less);
        Sift(a, lo, n, i - n, i - n, less);
        ShuffledTrans(s, t, a[..], lo, hi);
        HeapStarts(a[..], lo, n, less);
      } else {
        SwapDown(a, lo, n, i, less);
        ShuffledTrans(s, t, a[..], lo, hi);
      }
      i := i - 1;
    }
    TailSorted(a[..], lo, hi, less);
  }

  /** One step of the second half. */
  method SwapDown<T(!new)>(a: array<T>, lo: nat, n: nat, i: nat, less: (T, T) -> bool)
    requires WeakOrder(less) && lo + n <= a.Length && i < n
    requires HeapBut(a[..], lo, i + 1, 0, -1, less) && Tail(a[..], lo, lo + n, lo + i + 1, less)
    modifies a
    ensures Shuffled(old(a[..]), a[..], lo, lo + n)
    ensures HeapBut(a[..], lo, i, 0, -1, less) && Tail(a[..], lo, lo + n, lo + i, less)
  {
    hide Shuffled, HeapBut, Tail, Swapped, WeakOrder;
    ghost var t := a[..];
    Swap(a, lo, lo + i);
    ghost var u := a[..];
    SwapShuffles(t, lo, lo + i, lo, lo + n);
    SwapKeepsHeap(t, lo, i, less);
    Sift(a, lo, i, 0, 0, less);
    TailGrows(t, lo, lo + n, i, a[..], less);
    ShuffledWider(u, a[..], lo, lo + i, lo, lo + n);
    ShuffledTrans(t, u, a[..], lo, lo + n);
  }
}
