/** Machine words.

    The queues keep their counters in 64-bit unsigned words, compare some of them
    after a cast to a signed word and index the ring with a bit mask.  The protocol
    models are written once over an `Arith`: `Exact` works on mathematical integers,
    `Word` does what the hardware does. */
module Words {

  const TWO63: int := 0x8000_0000_0000_0000
  const TWO64: int := 0x1_0000_0000_0000_0000

  datatype Arith = Exact | Word {

    /** The stored value of the mathematical result `x`. */
    function Norm(x: int): int {
      if this.Exact? then x else x % TWO64
    }

    /** The value a signed cast reads from the stored value `w`. */
    function Signed(w: int): int {
      if this.Exact? || w < TWO63 then w else w - TWO64
    }

    /** The ring index of the stored value `w`: a bit mask on the machine. */
    function Index(w: int, size: nat): (i: int)
      requires size > 0
      ensures 0 <= i < size
    {
      if this.Word? && w >= 0 then BitAnd(w, size - 1) else w % size
    }
  }

  /** The stored word of a true counter. */
  function W(x: int): int {
    Arith.Word.Norm(x)
  }

  /** Below 2^63, and just below zero, words and their signed reading lose nothing. */
  lemma Small(x: int)
    requires -1 <= x < TWO63
    ensures x >= 0 ==> W(x) == x
    ensures W(-1) == TWO64 - 1
    ensures Arith.Word.Signed(W(x)) == x
  {
  }

  function Pow2(k: nat): (p: nat)
    ensures p >= 1
  {
    if k == 0 then 1 else 2 * Pow2(k - 1)
  }

  function BitAnd(x: nat, y: nat): (z: nat)
    ensures z <= x && z <= y
  {
    if x == 0 || y == 0 then 0
    else 2 * BitAnd(x / 2, y / 2) + (if x % 2 == 1 && y % 2 == 1 then 1 else 0)
  }

  /** `std::bit_ceil` searched from the candidate `p`. */
  function BitCeilFrom(size: nat, p: nat): (c: nat)
    requires p >= 1
    ensures c >= size && c >= p
    ensures p >= size ==> c == p
    ensures p < size ==> c < 2 * size
    decreases size - p
  {
    if p >= size then p else BitCeilFrom(size, 2 * p)
  }

  function BitCeil(size: nat): (c: nat)
    ensures c >= size && c >= 1
  {
    BitCeilFrom(size, 1)
  }

  lemma {:induction false} BitCeilFromIsPow2(size: nat, k: nat)
    ensures exists j: nat :: BitCeilFrom(size, Pow2(k)) == Pow2(j)
    decreases size - Pow2(k)
  {
    if Pow2(k) >= size {
      assert BitCeilFrom(size, Pow2(k)) == Pow2(k);
    } else {
      assert Pow2(k + 1) == 2 * Pow2(k);
      BitCeilFromIsPow2(size, k + 1);
    }
  }

  lemma BitCeilIsPow2(size: nat)
    ensures exists j: nat :: BitCeil(size) == Pow2(j)
  {
    assert Pow2(0) == 1;
    BitCeilFromIsPow2(size, 0);
  }

  /** Masking with one less than a power of two is the remainder. */
  lemma {:induction false} MaskIsMod(x: nat, k: nat)
    ensures BitAnd(x, Pow2(k) - 1) == x % Pow2(k)
    decreases k
  {
    if k == 0 {
      ModUnique(x, 1, x, 0);
    } else {
      var p := Pow2(k - 1);
      var y := 2 * p - 1;
      ModUnique(y, 2, p - 1, 1);
      MaskIsMod(x / 2, k - 1);
      HalfMod(x, p);
      if x == 0 {
        ModUnique(0, 2 * p, 0, 0);
      }
    }
  }

  lemma HalfMod(x: nat, p: nat)
    requires p >= 1
    ensures x % (2 * p) == 2 * ((x / 2) % p) + x % 2
  {
    var q, r := (x / 2) / p, (x / 2) % p;
    assert x / 2 == q * p + r;
    assert x == q * (2 * p) + (2 * r + x % 2) by {
      assert q * (2 * p) == 2 * (q * p);
    }
    ModUnique(x, 2 * p, q, 2 * r + x % 2);
  }

  /** A multiple of `m` strictly between `-m` and `m` is zero. */
  lemma SmallMultiple(a: int, m: int)
    requires m > 0 && -m < a * m < m
    ensures a == 0
  {
    if a >= 1 {
      MulAtLeast(a, m);
    } else if a <= -1 {
      assert (-a) * m == -(a * m);
      MulAtLeast(-a, m);
    }
  }

  lemma {:induction false} MulAtLeast(a: int, m: int)
    requires a >= 1 && m >= 0
    ensures a * m >= m
    decreases a
  {
    if a > 1 {
      MulAtLeast(a - 1, m);
      assert a * m == (a - 1) * m + m;
    }
  }

  lemma ModUnique(x: int, m: nat, q: int, r: int)
    requires m > 0 && x == q * m + r && 0 <= r < m
    ensures x % m == r && x / m == q
  {
    DivMod(x, m);
    var q' := x / m;
    assert (q - q') * m == q * m - q' * m;
    SmallMultiple(q - q', m);
  }

  lemma DivMod(x: int, m: nat)
    requires m > 0
    ensures x == (x / m) * m + x % m && 0 <= x % m < m
  {
  }

  /** Two positions less than one ring apart never share a slot. */
  lemma ModDistinct(i: int, j: int, n: nat)
    requires n > 0 && i < j < i + n
    ensures i % n != j % n
  {
    if i % n == j % n {
      DivMod(i, n);
      DivMod(j, n);
      var a, b := i / n, j / n;
      assert (b - a) * n == b * n - a * n;
      SmallMultiple(b - a, n);
    }
  }

  /** Masking the stored word of any counter, wrapped or not, gives its place in the ring. */
  lemma WordIndex(x: int, size: nat, k: nat)
    requires 0 <= x && size == Pow2(k) < TWO64
    ensures Arith.Word.Index(W(x), size) == Arith.Exact.Index(x, size)
  {
    MaskIsMod(W(x), k);
    var j := DividesTwo64(k);
    ModOfMod(x, TWO64, size, j);
  }

  lemma ModOfMod(x: int, m: nat, n: nat, j: nat)
    requires n > 0 && m > 0 && m == j * n
    ensures (x % m) % n == x % n
  {
    DivMod(x, m);
    DivMod(x % m, n);
    var a, q, r := x / m, (x % m) / n, (x % m) % n;
    assert a * (j * n) == (a * j) * n;
    assert (a * j + q) * n == (a * j) * n + q * n;
    ModUnique(x, n, a * j + q, r);
  }

  /** Every smaller power of two divides 2^64. */
  lemma DividesTwo64(k: nat) returns (j: nat)
    requires Pow2(k) < TWO64
    ensures TWO64 == j * Pow2(k)
  {
    Pow2Is64();
    if k > 64 {
      j := PowersDivide(64, k);
      MulAtLeast(j, TWO64);
    }
    j := PowersDivide(k, 64);
  }

  lemma Pow2Is64()
    ensures Pow2(64) == TWO64
  {
    assert Pow2(8) == 0x100;
    assert Pow2(16) == 0x1_0000;
    assert Pow2(24) == 0x100_0000;
    assert Pow2(32) == 0x1_0000_0000;
    assert Pow2(40) == 0x100_0000_0000;
    assert Pow2(48) == 0x1_0000_0000_0000;
    assert Pow2(56) == 0x100_0000_0000_0000;
  }

  lemma {:induction false} PowersDivide(k: nat, m: nat) returns (j: nat)
    requires k <= m
    ensures j >= 1 && Pow2(m) == j * Pow2(k)
    decreases m
  {
    if k == m {
      j := 1;
    } else {
      j := PowersDivide(k, m - 1);
      assert 2 * (j * Pow2(k)) == (2 * j) * Pow2(k);
      j := 2 * j;
    }
  }

  /** Where the signed comparison of two wrapped counters agrees with the true one:
      exactly when no odd multiple of 2^63 lies between them. */
  lemma SignedCompareExact(t: int, b: int)
    requires 0 <= t && t - 1 <= b < t + TWO63
    ensures (Arith.Word.Signed(Arith.Word.Norm(t)) <= Arith.Word.Signed(Arith.Word.Norm(b))) == (t <= b)
        <==> (t <= b ==> (t + TWO63) / TWO64 == (b + TWO63) / TWO64)
             && (b < t ==> (t + TWO63) % TWO64 != 0)
  {
    var t', b' := t + TWO63, b + TWO63;
    SignedIsShifted(t);
    SignedIsShifted(b);
    var qt, rt, qb, rb := t' / TWO64, t' % TWO64, b' / TWO64, b' % TWO64;
    assert t' == qt * TWO64 + rt && b' == qb * TWO64 + rb;
  }

  lemma SignedIsShifted(x: int)
    ensures Arith.Word.Signed(Arith.Word.Norm(x)) == (x + TWO63) % TWO64 - TWO63
  {
    var q, r := x / TWO64, x % TWO64;
    assert x == q * TWO64 + r;
    if r < TWO63 {
      ModUnique(x + TWO63, TWO64, q, r + TWO63);
    } else {
      ModUnique(x + TWO63, TWO64, q + 1, r - TWO63);
    }
  }
}
