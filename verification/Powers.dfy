/** Powers of two and the bit operations the network builder applies to positions. */
module Powers {

  datatype Option<+T> = None | Some(value: T)

  const WORDS: nat := 0x1_0000_0000_0000_0000 // the values of a 64-bit word

  function Pow2(k: nat): (r: nat)
    ensures r >= 1
  {
    if k == 0 then 1 else 2 * Pow2(k - 1)
  }

  /** The number of times `n` can be halved before it reaches one. */
  function Log2(n: nat): nat {
    if n <= 1 then 0 else 1 + Log2(n / 2)
  }

  lemma {:induction false} Log2Bounds(n: nat)
    requires n >= 1
    ensures Pow2(Log2(n)) <= n < 2 * Pow2(Log2(n))
    ensures n >= 2 ==> Log2(n) >= 1
  {
    if n > 1 {
      Log2Bounds(n / 2);
    }
  }

  lemma {:induction false} Pow2Mono(a: nat, b: nat)
    requires a <= b
    ensures Pow2(a) <= Pow2(b)
  {
    if a < b {
      Pow2Mono(a, b - 1);
    }
  }

  /** Bitwise exclusive or of two unsigned numbers. */
  function Xor(a: nat, b: nat): nat
    decreases a + b
  {
    if a == 0 && b == 0 then 0
    else (if a % 2 != b % 2 then 1 else 0) + 2 * Xor(a / 2, b / 2)
  }

  /** Bitwise and of two unsigned numbers. */
  function And(a: nat, b: nat): nat
    decreases a
  {
    if a == 0 || b == 0 then 0
    else (if a % 2 == 1 && b % 2 == 1 then 1 else 0) + 2 * And(a / 2, b / 2)
  }

  /** The k-th bit of `x`. */
  predicate Bit(x: nat, k: nat) {
    if k == 0 then x % 2 == 1 else Bit(x / 2, k - 1)
  }

  lemma {:induction false} NoBits(k: nat)
    ensures !Bit(0, k)
  {
    if k > 0 {
      NoBits(k - 1);
    }
  }

  /** `x` with its k-th bit inverted. */
  function FlipBit(x: nat, k: nat): nat {
    if k == 0 then (if x % 2 == 0 then x + 1 else x - 1)
    else x % 2 + 2 * FlipBit(x / 2, k - 1)
  }

  /** The lowest k bits of `x`. */
  function Low(x: nat, k: nat): nat {
    if k == 0 then 0 else x % 2 + 2 * Low(x / 2, k - 1)
  }

  lemma {:induction false} XorZero(x: nat)
    ensures Xor(x, 0) == x
  {
    if x > 0 {
      XorZero(x / 2);
    }
  }

  /** Exclusive or with a power of two inverts that one bit. */
  lemma {:induction false} XorIsFlip(x: nat, k: nat)
    ensures Xor(x, Pow2(k)) == FlipBit(x, k)
  {
    if k == 0 {
      XorZero(x / 2);
    } else {
      XorIsFlip(x / 2, k - 1);
      assert Pow2(k) / 2 == Pow2(k - 1) && Pow2(k) % 2 == 0;
    }
  }

  lemma {:induction false} AndSelf(x: nat)
    ensures And(x, x) == x
  {
    if x > 0 {
      AndSelf(x / 2);
    }
  }

  /** The power-of-two test of the builder: `n & (n - 1)` vanishes exactly on powers of two. */
  lemma {:induction false} AndPredecessor(n: nat)
    requires n >= 1
    ensures And(n, n - 1) == 0 <==> n == Pow2(Log2(n))
  {
    if n > 1 {
      if n % 2 == 0 {
        assert (n - 1) / 2 == n / 2 - 1;
        AndPredecessor(n / 2);
      } else {
        assert (n - 1) / 2 == n / 2;
        AndSelf(n / 2);
      }
    }
  }

  lemma {:induction false} FlipTwice(x: nat, k: nat)
    ensures FlipBit(FlipBit(x, k), k) == x
  {
    if k > 0 {
      FlipTwice(x / 2, k - 1);
    }
  }

  /** A flip of a bit below `g` keeps a number below the g-th power of two. */
  lemma {:induction false} FlipStays(x: nat, k: nat, g: nat)
    requires k < g && x < Pow2(g)
    ensures FlipBit(x, k) < Pow2(g)
  {
    var p := Pow2(g - 1);
    assert Pow2(g) == 2 * p;
    var h, d := x / 2, x % 2;
    assert x == 2 * h + d && h < p;
    if k > 0 {
      FlipStays(h, k - 1, g - 1);
      assert FlipBit(x, k) == d + 2 * FlipBit(h, k - 1);
    }
  }

  lemma {:induction false} FlipBits(x: nat, k: nat, j: nat)
    ensures Bit(FlipBit(x, k), j) <==> (Bit(x, j) != (j == k))
    decreases k, j
  {
    if k > 0 && j > 0 {
      FlipBits(x / 2, k - 1, j - 1);
    } else if k == 0 && j > 0 {
      assert FlipBit(x, 0) / 2 == x / 2;
    }
  }

  lemma {:induction false} LowStep(x: nat, k: nat)
    ensures Low(x, k + 1) == Low(x, k) + (if Bit(x, k) then Pow2(k) else 0)
  {
    if k > 0 {
      LowStep(x / 2, k - 1);
    }
  }

  lemma {:induction false} LowFlip(x: nat, k: nat)
    ensures Low(FlipBit(x, k), k) == Low(x, k)
  {
    if k > 0 {
      LowFlip(x / 2, k - 1);
    }
  }

  lemma {:induction false} LowAll(x: nat, g: nat)
    requires x < Pow2(g)
    ensures Low(x, g) == x
  {
    if g > 0 {
      LowAll(x / 2, g - 1);
    }
  }

  lemma {:induction false} LowBound(x: nat, k: nat)
    ensures Low(x, k) < Pow2(k)
  {
    if k > 0 {
      LowBound(x / 2, k - 1);
    }
  }

  /** `x` without its lowest k bits. */
  function High(x: nat, k: nat): nat {
    if k == 0 then x else High(x / 2, k - 1)
  }

  lemma Doubled(a: nat, k: nat)
    ensures a * (2 * k) == 2 * (a * k)
  {}
}
