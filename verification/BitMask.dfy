/** Bitwise masking on unsigned words, and why `x & (N - 1)` is `x mod N`
    exactly for the sizes the queue template admits. */
module BitMask {

  function Pow2(k: nat): (r: nat)
    ensures r >= 1
  {
    if k == 0 then 1 else 2 * Pow2(k - 1)
  }

  /** Bitwise conjunction of two unsigned words, bit by bit. */
  function BitAnd(x: nat, y: nat): nat
  {
    if x == 0 || y == 0 then 0
    else (if x % 2 == 1 && y % 2 == 1 then 1 else 0) + 2 * BitAnd(x / 2, y / 2)
  }

  /** The difference of two words of `w` bits, as unsigned arithmetic gives it. */
  function WordSub(w: nat, x: nat, y: nat): nat
  {
    (x - y) % Pow2(w)
  }

  lemma MultipleBounds(a: int, m: nat)
    ensures a >= 1 ==> a * m >= m
    ensures a <= -1 ==> a * m <= -(m as int)
  {
  }

  lemma ModUnique(x: int, q: int, r: int, m: nat)
    requires m > 0 && x == q * m + r && 0 <= r < m
    ensures x % m == r
  {
    var q', r' := x / m, x % m;
    assert x == q' * m + r';
    assert (q - q') * m == r' - r;
    MultipleBounds(q - q', m);
  }

  lemma ModSplit(x: nat, p: nat)
    requires p > 0
    ensures x % (2 * p) == x % 2 + 2 * ((x / 2) % p)
  {
    var y := x / 2;
    var q, r := y / p, y % p;
    assert x == q * (2 * p) + (x % 2 + 2 * r) by {
      assert y == q * p + r;
      assert q * (2 * p) == 2 * (q * p);
    }
    ModUnique(x, q, x % 2 + 2 * r, 2 * p);
  }

  lemma BitAndStep(x: nat, y: nat)
    requires y > 0
    ensures BitAnd(x, y) == (if x % 2 == 1 && y % 2 == 1 then 1 else 0) + 2 * BitAnd(x / 2, y / 2)
  {
  }

  /** Masking with 2^k - 1 keeps the remainder modulo 2^k. */
  lemma {:induction false} MaskIsMod(x: nat, k: nat)
    ensures BitAnd(x, Pow2(k) - 1) == x % Pow2(k)
  {
    if k > 0 {
      var p := Pow2(k - 1);
      MaskIsMod(x / 2, k - 1);
      BitAndStep(x, 2 * p - 1);
      assert (2 * p - 1) % 2 == 1 && (2 * p - 1) / 2 == p - 1;
      ModSplit(x, p);
    }
  }

  lemma {:induction false} AndSelf(x: nat)
    ensures BitAnd(x, x) == x
  {
    if x > 0 {
      AndSelf(x / 2);
    }
  }

  /** The template's `requires` clause, N >= 2 and (N & (N - 1)) == 0, admits
      exactly the powers of two from 2 upwards. */
  lemma {:induction false} SizeTestAdmitsPowersOfTwo(n: nat)
    requires n >= 2
    ensures BitAnd(n, n - 1) == 0 <==> IsPowerOfTwo(n)
  {
    var half := n / 2;
    BitAndStep(n, n - 1);
    if n == 2 {
      assert n == Pow2(1);
    } else if n % 2 == 1 {
      AndSelf(half);
      assert (n - 1) / 2 == half;
      assert forall k: nat | k >= 1 :: Pow2(k) == 2 * Pow2(k - 1);
    } else {
      SizeTestAdmitsPowersOfTwo(half);
      assert (n - 1) / 2 == half - 1;
      HalfOfPower(n);
    }
  }

  ghost predicate IsPowerOfTwo(n: nat)
  {
    exists k: nat :: k >= 1 && n == Pow2(k)
  }

  lemma HalfOfPower(n: nat)
    requires n % 2 == 0 && n > 2
    ensures IsPowerOfTwo(n) <==> IsPowerOfTwo(n / 2)
  {
    if IsPowerOfTwo(n) {
      var k: nat :| k >= 1 && n == Pow2(k);
      assert n / 2 == Pow2(k - 1);
    }
    if IsPowerOfTwo(n / 2) {
      var k: nat :| k >= 1 && n / 2 == Pow2(k);
      assert n == Pow2(k + 1);
    }
  }

  lemma {:induction false} Pow2Divides(k: nat, w: nat)
    requires k <= w
    ensures Pow2(w) == Pow2(w - k) * Pow2(k)
    decreases w
  {
    if k < w {
      Pow2Divides(k, w - 1);
      var p, q, r := Pow2(w - 1), Pow2(w - 1 - k), Pow2(k);
      assert Pow2(w) == 2 * p && Pow2(w - k) == 2 * q;
      assert 2 * (q * r) == (2 * q) * r;
    }
  }

  lemma ModOfMod(x: int, c: nat, n: nat)
    requires c > 0 && n > 0
    ensures c * n > 0 && (x % (c * n)) % n == x % n
  {
    var m := c * n;
    var q, d := x / m, x % m;
    var q', r := d / n, d % n;
    calc {
      x;
      q * m + d;
      q * (c * n) + (q' * n + r);
      { assert q * (c * n) == (q * c) * n; }
      (q * c) * n + q' * n + r;
      (q * c + q') * n + r;
    }
    ModUnique(x, q * c + q', r, n);
  }

  /** Masking an unsigned difference gives the distance modulo the ring size,
      even when the subtraction wraps below zero. */
  lemma MaskedWordSub(w: nat, k: nat, x: nat, y: nat)
    requires k <= w
    ensures BitAnd(WordSub(w, x, y), Pow2(k) - 1) == (x - y) % Pow2(k)
  {
    var m, n, c := Pow2(w), Pow2(k), Pow2(w - k);
    var d := WordSub(w, x, y);
    MaskIsMod(d, k);
    Pow2Divides(k, w);
    ModOfMod(x - y, c, n);
  }
}
