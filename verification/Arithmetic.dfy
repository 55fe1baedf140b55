/** Integer facts shared by the queue models: ring indexing, powers of two and bitwise "and". */
module Arithmetic {

  /** The ring index of position `k` in a buffer of `cap` cells, by repeated subtraction. */
  function Cell(k: nat, cap: nat): (i: nat)
    requires cap > 0
    ensures i < cap
  {
    if k < cap then k else Cell(k - cap, cap)
  }

  lemma {:induction false} CellIsRemainder(k: nat, cap: nat)
    requires cap > 0
    ensures Cell(k, cap) == k % cap
  {
    if k < cap {
      SmallRemainder(k, cap);
    } else {
      CellIsRemainder(k - cap, cap);
      RemainderOfDifference(k, cap);
    }
  }

  lemma SmallRemainder(k: nat, cap: nat)
    requires k < cap
    ensures k % cap == k
  {
  }

  lemma RemainderOfDifference(k: nat, cap: nat)
    requires 0 < cap <= k
    ensures k % cap == (k - cap) % cap
  {
    var q, r := (k - cap) / cap, (k - cap) % cap;
    assert k == (q + 1) * cap + r;
    RemainderUnique(k, cap, q + 1, r);
  }

  /** Euclidean division has one quotient and one remainder. */
  lemma RemainderUnique(k: int, m: nat, q: int, r: nat)
    requires r < m && k == q * m + r
    ensures k % m == r && k / m == q
  {
    var q', r' := k / m, k % m;
    assert k == q' * m + r' && 0 <= r' < m;
    if q' < q {
      MulAtLeast(q - q', m);
      assert false;
    } else if q < q' {
      MulAtLeast(q' - q, m);
      assert false;
    }
  }

  lemma MulAtLeast(a: int, m: nat)
    requires a >= 1
    ensures a * m >= m
  {
  }

  lemma CellsDiffer(j: nat, k: nat, cap: nat)
    requires cap > 0
    ensures j != k && j < k + cap && k < j + cap ==> Cell(j, cap) != Cell(k, cap)
  {
  }

  /** One lap later is the same cell. */
  lemma CellLap(k: nat, cap: nat)
    requires cap > 0
    ensures Cell(k + cap, cap) == Cell(k, cap)
  {
  }

  function Pow2(n: nat): (p: nat)
    ensures p >= 1
  {
    if n == 0 then 1 else 2 * Pow2(n - 1)
  }

  /** Bitwise "and" of two non-negative integers, bit by bit from the lowest. */
  function And(a: nat, b: nat): (r: nat)
  {
    if a == 0 || b == 0 then 0
    else 2 * And(a / 2, b / 2) + (if a % 2 == 1 && b % 2 == 1 then 1 else 0)
  }

  /** Masking with `2^n - 1` keeps the remainder by `2^n`. */
  lemma {:induction false} AndMask(a: nat, n: nat)
    ensures And(a, Pow2(n) - 1) == a % Pow2(n)
    decreases n
  {
    if n == 0 {
    } else if a == 0 {
      SmallRemainder(0, Pow2(n));
    } else {
      var p := Pow2(n - 1);
      AndMask(a / 2, n - 1);
      DoubleRemainder(a, p);
      assert (2 * p - 1) / 2 == p - 1 && (2 * p - 1) % 2 == 1;
    }
  }

  lemma DoubleRemainder(a: nat, p: nat)
    requires p > 0
    ensures a % (2 * p) == 2 * ((a / 2) % p) + a % 2
  {
    var q, r := (a / 2) / p, (a / 2) % p;
    assert a / 2 == q * p + r;
    RemainderUnique(a, 2 * p, q, 2 * r + a % 2);
  }

  ghost predicate IsPow2(n: nat) {
    exists k: nat :: n == Pow2(k)
  }

  /** The classic test `n & (n - 1) == 0` accepts exactly the powers of two. */
  lemma {:induction false} PowerOfTwoTest(n: nat)
    requires n >= 1
    ensures And(n, n - 1) == 0 <==> IsPow2(n)
  {
    if n == 1 {
      assert n == Pow2(0);
    } else if n % 2 == 1 {
      assert And(n, n - 1) == 2 * And(n / 2, n / 2);
      AndSelf(n / 2);
      OddNotPow2(n);
    } else {
      var h := n / 2;
      assert n == 2 * h && (n - 1) / 2 == h - 1 && n % 2 == 0;
      assert And(n, n - 1) == 2 * And(h, h - 1);
      PowerOfTwoTest(h);
      if IsPow2(h) {
        var k: nat :| h == Pow2(k);
        assert n == Pow2(k + 1);
      }
      if IsPow2(n) {
        var k: nat :| n == Pow2(k);
        assert h == Pow2(k - 1);
      }
    }
  }

  lemma OddNotPow2(n: nat)
    requires n % 2 == 1 && n > 1
    ensures !IsPow2(n)
  {
  }

  lemma {:induction false} AndSelf(a: nat)
    ensures And(a, a) == a
  {
    if a > 0 {
      AndSelf(a / 2);
    }
  }

  /** A power of two divides every larger power of two. */
  lemma {:induction false} Pow2Divides(k: nat, n: nat)
    requires k <= n
    ensures Pow2(n) % Pow2(k) == 0 && Pow2(k) <= Pow2(n)
    ensures Pow2(n) == Pow2(n - k) * Pow2(k)
  {
    if k == n {
      assert Pow2(0) == 1;
    } else {
      Pow2Divides(k, n - 1);
      assert Pow2(n) == 2 * Pow2(n - 1 - k) * Pow2(k);
      assert Pow2(n - k) == 2 * Pow2(n - 1 - k);
    }
    RemainderUnique(Pow2(n), Pow2(k), Pow2(n - k), 0);
  }

  /** Taking a remainder by a multiple first does not change the remainder. */
  lemma RemainderOfRemainder(a: nat, m: nat, c: nat, q: nat)
    requires c > 0 && m == q * c && m > 0
    ensures (a % m) % c == a % c
  {
    var d, r := a / m, a % m;
    var e, f := r / c, r % c;
    assert a == d * m + r && r == e * c + f;
    assert d * m == (d * q) * c;
    assert a == (d * q + e) * c + f;
    RemainderUnique(a, c, d * q + e, f);
  }

  /** Conversion to a 32-bit signed integer. */
  function Int32(n: int): (r: int)
    ensures -0x8000_0000 <= r < 0x8000_0000
  {
    (n + 0x8000_0000) % 0x1_0000_0000 - 0x8000_0000
  }

  /** It keeps the low 32 bits, and nothing else with those bits is in range. */
  lemma Int32KeepsBits(n: int)
    ensures Int32(n) % 0x1_0000_0000 == n % 0x1_0000_0000
    ensures Int32(n) == n <==> -0x8000_0000 <= n < 0x8000_0000
  {
  }

  /** An addition may be converted late. */
  lemma Int32Add(a: int, b: int)
    ensures Int32(Int32(a) + b) == Int32(a + b)
  {
  }
}
