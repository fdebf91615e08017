/** Orders, sorted stretches and shuffles of stretches of a sequence. */
module SortOrder {

  /** less is a strict weak order: its negation is a total preorder. */
  ghost predicate WeakOrder<T(!new)>(less: (T, T) -> bool) {
    && (forall a, b :: less(a, b) ==> !less(b, a))
    && (forall a, b, c :: !less(b, a) && !less(c, b) ==> !less(c, a))
  }

  ghost predicate SortedIn<T>(s: seq<T>, lo: int, hi: int, less: (T, T) -> bool)
    requires 0 <= lo <= hi <= |s|
  {
    forall i, j :: lo <= i < j < hi ==> !less(s[j], s[i])
  }

  /** t is s with the elements of [lo, hi) rearranged. */
  ghost predicate Shuffled<T>(s: seq<T>, t: seq<T>, lo: int, hi: int)
    requires 0 <= lo <= hi <= |s|
  {
    && |t| == |s| && multiset(t[lo..hi]) == multiset(s[lo..hi])
    && (forall k :: 0 <= k < |s| && !(lo <= k < hi) ==> t[k] == s[k])
  }

  lemma {:induction false} ShuffledTrans<T>(s: seq<T>, t: seq<T>, u: seq<T>, lo: int, hi: int)
    requires 0 <= lo <= hi <= |s| && Shuffled(s, t, lo, hi) && Shuffled(t, u, lo, hi)
    ensures Shuffled(s, u, lo, hi)
  {
  }

  lemma {:induction false} ShuffledSame<T>(s: seq<T>, lo: int, hi: int)
    requires 0 <= lo <= hi <= |s|
    ensures Shuffled(s, s, lo, hi)
  {
  }

  /** Rearranging a part rearranges the whole. */
  lemma {:induction false} ShuffledWider<T>(s: seq<T>, t: seq<T>, lo: int, hi: int, l: int, h: int)
    requires 0 <= l <= lo <= hi <= h <= |s| && Shuffled(s, t, lo, hi)
    ensures Shuffled(s, t, l, h)
  {
    assert s[l..h] == s[l..lo] + s[lo..hi] + s[hi..h];
    assert t[l..h] == t[l..lo] + t[lo..hi] + t[hi..h];
    assert s[l..lo] == t[l..lo] && s[hi..h] == t[hi..h];
  }

  function Swapped<T>(s: seq<T>, i: int, j: int): (t: seq<T>)
    requires 0 <= i < |s| && 0 <= j < |s|
    ensures |t| == |s| && t[i] == s[j] && t[j] == s[i]
    ensures forall k :: 0 <= k < |s| && k != i && k != j ==> t[k] == s[k]
  {
    s[i := s[j]][j := s[i]]
  }

  lemma {:induction false} SwapShuffles<T>(s: seq<T>, i: int, j: int, lo: int, hi: int)
    requires 0 <= lo <= i < hi <= |s| && lo <= j < hi
    ensures Shuffled(s, Swapped(s, i, j), lo, hi)
  {
    hide Swapped;
    SwapMultiset(s[lo..hi], i - lo, j - lo);
    assert Swapped(s, i, j)[lo..hi] == Swapped(s[lo..hi], i - lo, j - lo);
  }

  lemma {:induction false} SwapMultiset<T>(s: seq<T>, i: int, j: int)
    requires 0 <= i < |s| && 0 <= j < |s|
    ensures multiset(Swapped(s, i, j)) == multiset(s)
  {
    var m := s[i := s[j]];
    SetOne(s, i, s[j]);
    SetOne(m, j, s[i]);
    assert s[i] in multiset(s);
    if i == j { assert m == s; }
  }

  lemma {:induction false} SetOne<T>(s: seq<T>, i: int, x: T)
    requires 0 <= i < |s|
    ensures multiset(s[i := x]) == multiset(s) - multiset{s[i]} + multiset{x}
  {
    var t := s[i := x];
    assert s == s[..i] + [s[i]] + s[i + 1..];
    assert t == s[..i] + [x] + s[i + 1..];
  }

  /** An element of a rearranged stretch came from it. */
  lemma {:induction false} ShuffledFrom<T>(s: seq<T>, t: seq<T>, lo: int, hi: int, k: int) returns (j: int)
    requires 0 <= lo <= k < hi <= |s| && Shuffled(s, t, lo, hi)
    ensures lo <= j < hi && s[j] == t[k]
  {
    var a, b := s[lo..hi], t[lo..hi];
    assert b[k - lo] in multiset(b);
    assert t[k] in multiset(a);
    assert t[k] in a;
    var i :| 0 <= i < |a| && a[i] == t[k];
    j := i + lo;
  }
}
