/** Lists of ids compared as sets. */
module IdLists {
  import opened Common

  function IdSet(ids: seq<Id>): set<Id> { set i | 0 <= i < |ids| :: ids[i] }

  ghost predicate DistinctIds(ids: seq<Id>) {
    forall i, j :: 0 <= i < j < |ids| ==> ids[i] != ids[j]
  }

  lemma {:induction false} DepInSet(deps: seq<Id>, d: Id)
    ensures d in deps <==> d in IdSet(deps)
  {
  }

  lemma {:induction false} OneId(x: Id)
    ensures IdSet([x]) == {x}
  {
    assert [x][0] == x;
  }

  /** Whether two lists hold the same ids, order and repeats aside. */
  method SameIds(a: seq<Id>, b: seq<Id>) returns (same: bool)
    ensures same <==> IdSet(a) == IdSet(b)
  {
    if |a| + |b| <= 16 {
      var ab := AllIn(a, b);
      if !ab { return false; }
      same := AllIn(b, a);
    } else {
      var x, y := SortIds(a), SortIds(b);
      same := x == y;
      if IdSet(a) == IdSet(b) {
        forall i ensures i in x <==> i in y { DepInSet(a, i); DepInSet(b, i); }
        RisingSame(x, y);
      } else if x == y {
        forall i ensures i in IdSet(a) <==> i in IdSet(b) { DepInSet(a, i); DepInSet(b, i); }
        assert false;
      }
    }
  }

  method AllIn(a: seq<Id>, b: seq<Id>) returns (all: bool)
    ensures all <==> IdSet(a) <= IdSet(b)
  {
    for i := 0 to |a|
      invariant forall k :: 0 <= k < i ==> a[k] in b
    {
      if a[i] !in b {
        DepInSet(a, a[i]);
        DepInSet(b, a[i]);
        return false;
      }
    }
    forall x | x in IdSet(a) ensures x in IdSet(b) { DepInSet(a, x); DepInSet(b, x); }
    return true;
  }

  predicate IdBefore(a: Id, b: Id) { a.peer < b.peer || (a.peer == b.peer && a.counter < b.counter) }

  predicate Rising(s: seq<Id>) {
    forall i, j :: 0 <= i < j < |s| ==> IdBefore(s[i], s[j])
  }

  /** Sorted with repeats dropped. */
  function SortIds(s: seq<Id>): (r: seq<Id>)
    ensures Rising(r) && forall x :: x in r <==> x in s
  {
    if s == [] then []
    else
      var m := |s| - 1;
      assert s == s[..m] + [s[m]];
      PutId(SortIds(s[..m]), s[m])
  }

  function PutId(s: seq<Id>, x: Id): (r: seq<Id>)
    requires Rising(s)
    ensures Rising(r) && forall y :: y in r <==> y in s || y == x
  {
    if s == [] then [x]
    else
      var m := |s| - 1;
      assert s == s[..m] + [s[m]];
      if s[m] == x then s
      else if IdBefore(s[m], x) then s + [x]
      else
        var t := PutId(s[..m], x);
        assert forall i :: 0 <= i < |t| ==> t[i] in t && (t[i] in s[..m] || t[i] == x);
        t + [s[m]]
  }

  /** Two rising lists of the same ids are the same list. */
  lemma {:induction false} RisingSame(a: seq<Id>, b: seq<Id>)
    requires Rising(a) && Rising(b) && forall x :: x in a <==> x in b
    ensures a == b
  {
    assert |a| > 0 ==> a[0] in b;
    assert |b| > 0 ==> b[0] in a;
    if a != [] {
      var m, n := |a| - 1, |b| - 1;
      LastHighest(a, b[n]);
      LastHighest(b, a[m]);
      forall x ensures x in a[..m] <==> x in b[..n] { LastOnly(a, x); LastOnly(b, x); }
      RisingSame(a[..m], b[..n]);
      assert a == a[..m] + [a[m]] && b == b[..n] + [b[n]];
    }
  }

  lemma {:induction false} LastHighest(a: seq<Id>, x: Id)
    requires Rising(a) && x in a
    ensures x == a[|a| - 1] || IdBefore(x, a[|a| - 1])
  {
  }

  lemma {:induction false} LastOnly(a: seq<Id>, x: Id)
    requires Rising(a) && a != []
    ensures x in a[..|a| - 1] <==> x in a && x != a[|a| - 1]
  {
    var m := |a| - 1;
    if x in a[..m] {
      var i :| 0 <= i < m && a[i] == x;
      assert IdBefore(a[i], a[m]);
    }
  }
}
