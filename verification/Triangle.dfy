/** Triangular probing: steps of 1, 2, 3, ... modulo a power of two reach every place once. */
module Triangle {

  // ----- remainders -----

  lemma {:induction false} AtLeast(x: int, n: int)
    requires x >= 1 && n > 0
    ensures x * n >= n
  {
    assert (x - 1) * n >= 0;
  }

  lemma {:induction false} SmallMultiple(x: int, n: int)
    requires n > 0 && -n < x * n < n
    ensures x == 0
  {
    if x >= 1 { AtLeast(x, n); }
    if x <= -1 { AtLeast(-x, n); }
  }

  /** A remainder is the one number in [0, n) that differs by a multiple of n. */
  lemma {:induction false} ModIs(a: int, n: int, q: int, r: int)
    requires n > 0 && a == q * n + r && 0 <= r < n
    ensures a % n == r
  {
    var k := a / n;
    assert a == k * n + a % n;
    assert (k - q) * n == r - a % n;
    SmallMultiple(k - q, n);
  }

  lemma {:induction false} ModShift(a: int, n: int, k: int)
    requires n > 0
    ensures (a + k * n) % n == a % n
  {
    assert a == (a / n) * n + a % n;
    assert a + k * n == (a / n + k) * n + a % n;
    ModIs(a + k * n, n, a / n + k, a % n);
  }

  lemma {:induction false} ModAddLeft(a: int, b: int, n: int)
    requires n > 0
    ensures (a % n + b) % n == (a + b) % n
  {
    assert a == (a / n) * n + a % n;
    ModShift(a % n + b, n, a / n);
  }

  // ----- powers of two -----

  predicate Power2(n: int) { n == 1 || (n > 1 && n % 2 == 0 && Power2(n / 2)) }

  /** An odd factor takes no power of two. */
  lemma {:induction false} OddFactor(n: int, a: int, b: int)
    requires Power2(n) && a % 2 == 1 && (a * b) % n == 0
    ensures b % n == 0
    decreases n
  {
    if n > 1 {
      var m := n / 2;
      var k := (a * b) / n;
      assert a * b == k * n == 2 * (k * m) by { assert n == 2 * m; }
      OddTimes(a, b, k * m);
      var c := b / 2;
      assert b == 2 * c;
      assert a * c == k * m by { assert 2 * (a * c) == a * b; }
      ModIs(a * c, m, k, 0);
      OddFactor(m, a, c);
      assert c == (c / m) * m;
      assert b == (c / m) * n;
      ModIs(b, n, c / m, 0);
    }
  }

  lemma {:induction false} OddTimes(a: int, b: int, k: int)
    requires a % 2 == 1 && a * b == 2 * k
    ensures b % 2 == 0
  {
    var c := a / 2;
    assert a == 2 * c + 1;
    assert a * b == 2 * (c * b) + b;
  }

  // ----- triangular numbers -----

  function T(j: nat): nat { if j == 0 then 0 else T(j - 1) + j }

  lemma {:induction false} TwiceT(j: nat)
    ensures 2 * T(j) == j * (j + 1)
  {
    if j > 0 { TwiceT(j - 1); }
  }

  lemma {:induction false} SameRemainder(a: int, b: int, n: int) returns (k: int)
    requires n > 0 && a % n == b % n
    ensures a - b == k * n
  {
    k := a / n - b / n;
    assert a == (a / n) * n + a % n;
    assert b == (b / n) * n + b % n;
  }

  /** The two factors of the difference of two triangular numbers, doubled. */
  lemma {:induction false} Factors(i: nat, j: nat)
    ensures (i - j) * (i + j + 1) == 2 * T(i) - 2 * T(j)
  {
    TwiceT(i);
    TwiceT(j);
    assert (i - j) * (i + j + 1) == i * (i + 1) - j * (j + 1);
  }

  /** No two of the first n triangular numbers have the same remainder. */
  lemma {:induction false} Distinct(n: nat, i: nat, j: nat)
    requires Power2(n) && j < i < n
    ensures T(i) % n != T(j) % n
  {
    hide T;
    if T(i) % n == T(j) % n {
      var k := SameRemainder(T(i), T(j), n);
      Factors(i, j);
      NoFactors(n, i - j, i + j + 1, k);
    }
  }

  /** Of two numbers below 2n, one odd, the product is no multiple of 2n. */
  lemma {:induction false} NoFactors(n: nat, a: int, b: int, k: int)
    requires Power2(n) && 0 < a < 2 * n && 0 < b < 2 * n && (a + b) % 2 == 1
    ensures a * b != 2 * (k * n)
  {
    var m := 2 * n;
    assert Power2(m) by { assert m / 2 == n; }
    assert 2 * (k * n) == k * m;
    if a % 2 == 1 {
      NoOddFactor(m, a, b, k);
    } else {
      Commutes(a, b);
      NoOddFactor(m, b, a, k);
    }
  }

  lemma {:induction false} NoOddFactor(m: nat, a: int, b: int, k: int)
    requires Power2(m) && a % 2 == 1 && 0 < b < m
    ensures a * b != k * m
  {
    if a * b == k * m {
      ModIs(a * b, m, k, 0);
      OddFactor(m, a, b);
      NoMultiple(b, m);
    }
  }

  lemma {:induction false} Commutes(a: int, b: int)
    ensures a * b == b * a
  {
  }

  lemma {:induction false} NoMultiple(b: int, n: int)
    requires 0 < b < n
    ensures b % n != 0
  {
    ModIs(b, n, 0, b);
  }

  ghost function Remainders(n: nat, m: nat): set<int>
    requires n > 0
  {
    set j | 0 <= j < m :: T(j) % n
  }

  lemma {:induction false} RemaindersGrow(n: nat, m: nat)
    requires Power2(n) && m <= n
    ensures |Remainders(n, m)| == m
  {
    if m > 0 {
      RemaindersGrow(n, m - 1);
      assert Remainders(n, m) == Remainders(n, m - 1) + {T(m - 1) % n};
      if T(m - 1) % n in Remainders(n, m - 1) {
        var j :| 0 <= j < m - 1 && T(j) % n == T(m - 1) % n;
        Distinct(n, m - 1, j);
      }
    } else {
      assert Remainders(n, 0) == {};
    }
  }

  ghost function Below(n: nat): set<int> { if n == 0 then {} else Below(n - 1) + {n - 1} }

  lemma {:induction false} BelowSize(n: nat)
    ensures |Below(n)| == n && forall k :: k in Below(n) <==> 0 <= k < n
  {
    if n > 0 { BelowSize(n - 1); }
  }

  /** Every place is reached within n steps. */
  lemma {:induction false} Reaches(n: nat, q: nat) returns (j: nat)
    requires Power2(n) && q < n
    ensures j < n && T(j) % n == q
  {
    RemaindersGrow(n, n);
    BelowSize(n);
    var a, b := Remainders(n, n), Below(n);
    assert a <= b;
    Same(a, b);
    assert q in a;
    j :| 0 <= j < n && T(j) % n == q;
  }

  lemma {:induction false} Same<X>(a: set<X>, b: set<X>)
    requires a <= b && |a| == |b|
    ensures a == b
  {
    assert b == a + (b - a) && |b| == |a| + |b - a|;
  }
}
