/** Keys: sequences ordered lexicographically, a proper prefix before its extensions.
    A component is an author or `End`, which follows every author. */
module KeyOrder {

  datatype Comp = At(peer: nat) | End

  type Key = seq<Comp>

  predicate CompLess(a: Comp, b: Comp) {
    a.At? && (b.End? || a.peer < b.peer)
  }

  predicate Less(a: Key, b: Key) {
    b != [] && (a == [] || CompLess(a[0], b[0]) || (a[0] == b[0] && Less(a[1..], b[1..])))
  }

  predicate IsPrefix(p: Key, k: Key) {
    |p| <= |k| && k[..|p|] == p
  }

  lemma {:induction false} LessIrreflexive(a: Key)
    ensures !Less(a, a)
  {
    if a != [] { LessIrreflexive(a[1..]); }
  }

  lemma {:induction false} LessTotal(a: Key, b: Key)
    ensures Less(a, b) || a == b || Less(b, a)
  {
    if a != [] && b != [] && a[0] == b[0] {
      LessTotal(a[1..], b[1..]);
      assert a[1..] == b[1..] ==> a == [a[0]] + a[1..] == [b[0]] + b[1..] == b;
    }
  }

  lemma {:induction false} LessTrans(a: Key, b: Key, c: Key)
    requires Less(a, b) && Less(b, c)
    ensures Less(a, c)
  {
    if a != [] && a[0] == b[0] && b[0] == c[0] { LessTrans(a[1..], b[1..], c[1..]); }
  }

  lemma {:induction false} LessAsym(a: Key, b: Key)
    requires Less(a, b)
    ensures !Less(b, a)
  {
    if Less(b, a) { LessTrans(a, b, a); LessIrreflexive(a); }
  }

  /** A common prefix can be cancelled. */
  lemma {:induction false} LessCancel(p: Key, a: Key, b: Key)
    ensures Less(p + a, p + b) <==> Less(a, b)
  {
    if p == [] {
      assert p + a == a && p + b == b;
    } else {
      LessCancel(p[1..], a, b);
      assert (p + a)[1..] == p[1..] + a && (p + b)[1..] == p[1..] + b;
    }
  }

  lemma {:induction false} PrefixLess(p: Key, k: Key)
    requires IsPrefix(p, k) && p != k
    ensures Less(p, k)
  {
    if p != [] { PrefixLess(p[1..], k[1..]); }
  }

  /** Two keys that part ways stay ordered whatever is appended to them. */
  lemma {:induction false} LessExtend(a: Key, x: Key, b: Key, y: Key)
    requires Less(a, b) && !IsPrefix(a, b)
    ensures Less(a + x, b + y)
  {
    if a[0] == b[0] {
      LessExtend(a[1..], x, b[1..], y);
    }
    assert (a + x)[1..] == a[1..] + x && (b + y)[1..] == b[1..] + y;
  }

  /** Whatever lies between two keys with a common prefix has that prefix too. */
  lemma {:induction false} BetweenPrefix(p: Key, a: Key, m: Key, b: Key)
    requires IsPrefix(p, a) && IsPrefix(p, b)
    requires a == m || Less(a, m)
    requires m == b || Less(m, b)
    ensures IsPrefix(p, m)
  {
    if p != [] && m != a && m != b {
      assert m[0] == p[0];
      BetweenPrefix(p[1..], a[1..], m[1..], b[1..]);
      assert m[..|p|] == [m[0]] + m[1..][..|p| - 1];
    }
  }

  lemma {:induction false} PrefixesCompare(p: Key, q: Key, k: Key)
    requires IsPrefix(p, k) && IsPrefix(q, k) && |p| <= |q|
    ensures IsPrefix(p, q)
  {
    assert q[..|p|] == k[..|q|][..|p|];
  }

  lemma {:induction false} PrefixesTrans(p: Key, q: Key, k: Key)
    requires IsPrefix(p, q) && IsPrefix(q, k)
    ensures IsPrefix(p, k)
  {
    assert k[..|p|] == k[..|q|][..|p|];
  }

  /** Stripping the last component. */
  function Stem(k: Key): Key { if k == [] then [] else k[..|k| - 1] }
}
