/** Signed 64-bit arithmetic, with its wrap-around written out. */
module Int64 {

  const TWO63: int := 0x8000_0000_0000_0000

  const TWO64: int := 0x1_0000_0000_0000_0000

  predicate Fits(x: int) {
    -TWO63 <= x < TWO63
  }

  /** The 64-bit value congruent to `x`. */
  function Wrap(x: int): (r: int)
    ensures Fits(r)
    ensures Fits(x) ==> r == x
  {
    (x + TWO63) % TWO64 - TWO63
  }

  function Pow2(n: nat): (p: nat)
    ensures p >= 1
  {
    if n == 0 then 1 else 2 * Pow2(n - 1)
  }

  /** 1 << n: the sign bit at 63, nothing left from 64 on. */
  function ShiftOne(n: nat): int {
    if n >= 64 then 0 else Wrap(Pow2(n))
  }

  lemma {:induction false} Pow2Adds(a: nat, b: nat)
    ensures Pow2(a + b) == Pow2(a) * Pow2(b)
  {
    if a > 0 {
      Pow2Adds(a - 1, b);
      assert Pow2(a + b) == 2 * (Pow2(a - 1) * Pow2(b)) == 2 * Pow2(a - 1) * Pow2(b);
    } else {
      assert 1 * Pow2(b) == Pow2(b);
    }
  }

  lemma {:induction false} Pow2Grows(a: nat, b: nat)
    requires a <= b
    ensures Pow2(a) <= Pow2(b)
  {
    if a < b {
      Pow2Grows(a, b - 1);
    }
  }

  lemma Pow2Of63()
    ensures Pow2(63) == TWO63 && Pow2(64) == TWO64
  {
    var p16 := Pow2(16);
    assert Pow2(4) == 16;
    Pow2Adds(4, 4);
    Pow2Adds(8, 8);
    Pow2Adds(16, 16);
    Pow2Adds(32, 31);
    Pow2Adds(16, 15);
    Pow2Adds(8, 7);
    Pow2Adds(4, 3);
    assert Pow2(8) == 256 && Pow2(16) == 65536 && Pow2(7) == 128 && Pow2(15) == 32768;
    assert Pow2(32) == 0x1_0000_0000 && Pow2(31) == 0x8000_0000;
    assert Pow2(64) == 2 * Pow2(63);
  }

  lemma WrapTells(x: int)
    ensures var r := x % TWO64; Wrap(x) == if r < TWO63 then r else r - TWO64
  {
  }

  lemma MultiplesDropOut(y: int, m: int)
    ensures (y - TWO64 * m) % TWO64 == y % TWO64
  {
    var q := y / TWO64;
    assert y - TWO64 * m == TWO64 * (q - m) + y % TWO64;
  }

  /** A product with a shifted 1 wraps to the residue of the product with the power of two. */
  lemma ShiftedProductTells(base: int, k: nat)
    ensures var r := (base * Pow2(k)) % TWO64;
      Wrap(base * ShiftOne(k)) == if r < TWO63 then r else r - TWO64
  {
    var p := Pow2(k);
    var m: int;
    if k >= 64 {
      Pow2Of63();
      Pow2Adds(64, k - 64);
      m := Pow2(k - 64);
      assert ShiftOne(k) == 0 == p - TWO64 * m;
    } else {
      m := (p + TWO63) / TWO64;
      assert ShiftOne(k) == p - TWO64 * m;
    }
    ProductWithMultiple(base, p, m);
    MultiplesDropOut(base * p, base * m);
    WrapTells(base * ShiftOne(k));
  }

  lemma ProductWithMultiple(base: int, p: int, m: int)
    ensures base * (p - TWO64 * m) == base * p - TWO64 * (base * m)
  {
  }

  lemma SmallTells(x: int)
    requires 0 <= x < TWO63
    ensures x % TWO64 == x
  {
  }

  /** Where the product with the power of two is small, nothing wraps. */
  lemma ShiftedProductFits(base: int, k: nat, product: int)
    requires product == base * Pow2(k) && 0 <= product < TWO63
    ensures Wrap(base * ShiftOne(k)) == product
  {
    ShiftedProductTells(base, k);
    SmallTells(product);
  }
}
