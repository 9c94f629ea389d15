/** Java's fixed-width integer types and their two's-complement arithmetic. */
module JavaTypes {

  const TWO_31: int := 0x8000_0000
  const TWO_63: int := 0x8000_0000_0000_0000
  const TWO_64: int := 0x1_0000_0000_0000_0000

  /** Java `long`. */
  type Long = x: int | -0x8000_0000_0000_0000 <= x < 0x8000_0000_0000_0000

  /** Java `int`. */
  type Int32 = x: int | -0x8000_0000 <= x < 0x8000_0000

  /** Reduces an unbounded integer to the `long` that is congruent to it modulo 2^64. */
  function WrapLong(x: int): (r: Long)
    ensures (r - x) % TWO_64 == 0
    ensures -TWO_63 <= x < TWO_63 ==> r == x
  {
    (x + TWO_63) % TWO_64 - TWO_63
  }

  /** Two `long` values that are congruent modulo 2^64 are equal. */
  lemma CongruentLongsEqual(a: Long, b: Long)
    requires (a - b) % TWO_64 == 0
    ensures a == b
  {
    var q := (a - b) / TWO_64;
    assert a - b == q * TWO_64;
    assert -TWO_64 < a - b < TWO_64;
  }

  /** Java's `a + b` on `long` operands, which wraps around on overflow. */
  function AddLong(a: Long, b: Long): (r: Long)
    ensures -TWO_63 <= a + b < TWO_63 ==> r == a + b
    ensures a + b >= TWO_63 ==> r == a + b - TWO_64
    ensures a + b < -TWO_63 ==> r == a + b + TWO_64
  {
    WrapLong(a + b)
  }

  /** Java's unary `-a` on a `long`; the negation of the smallest `long` is itself. */
  function NegateLong(a: Long): (r: Long)
    ensures a != -TWO_63 ==> r == -a
    ensures a == -TWO_63 ==> r == a
  {
    WrapLong(-(a as int))
  }

  /** Adding `-a` undoes adding `a`, overflow or not: `long` addition is a group. */
  lemma AddNegateCancels(a: Long, x: Long)
    ensures AddLong(NegateLong(a), AddLong(a, x)) == x
  {
    var y := AddLong(a, x);
    var n := NegateLong(a);
    var r := AddLong(n, y);
    assert (y - (a + x)) % TWO_64 == 0;
    assert (n - (-(a as int))) % TWO_64 == 0;
    assert (r - (n + y)) % TWO_64 == 0;
    assert r - x == (r - (n + y)) + (n - (-(a as int))) + (y - (a + x));
    CongruentSum(r - (n + y), n - (-(a as int)), y - (a + x));
    CongruentLongsEqual(r, x);
  }

  lemma CongruentSum(p: int, q: int, s: int)
    requires p % TWO_64 == 0 && q % TWO_64 == 0 && s % TWO_64 == 0
    ensures (p + q + s) % TWO_64 == 0
  {
    assert p == (p / TWO_64) * TWO_64;
    assert q == (q / TWO_64) * TWO_64;
    assert s == (s / TWO_64) * TWO_64;
    assert p + q + s == (p / TWO_64 + q / TWO_64 + s / TWO_64) * TWO_64;
  }
}
