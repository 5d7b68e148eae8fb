/** Fixed-width integer types of the C# runtime, and the wrap-around of its
    unchecked `int` arithmetic. */
module BoundedInts {

  const TWO_TO_THE_31: int := 0x8000_0000
  const TWO_TO_THE_32: int := 0x1_0000_0000
  const TWO_TO_THE_63: int := 0x8000_0000_0000_0000
  const TWO_TO_THE_64: int := 0x1_0000_0000_0000_0000

  type byte = x: int | 0 <= x < 0x100
  type uint32 = x: int | 0 <= x < 0x1_0000_0000
  type int32 = x: int | -0x8000_0000 <= x < 0x8000_0000
  type int64 = x: int | -0x8000_0000_0000_0000 <= x < 0x8000_0000_0000_0000

  const INT32_MAX: int := 0x7fff_ffff

  predicate IsInt32(x: int) {
    -TWO_TO_THE_31 <= x < TWO_TO_THE_31
  }

  /** The value C# produces when an integer result is stored in an `int`
      without overflow checking: the unique int32 congruent to x modulo 2^32. */
  function WrapInt32(x: int): (r: int32)
    ensures IsInt32(x) ==> r == x
    ensures (x - r) % TWO_TO_THE_32 == 0
  {
    var m := x % TWO_TO_THE_32;
    if m < TWO_TO_THE_31 then m else m - TWO_TO_THE_32
  }

  /** Euclidean division is determined by its defining equation. */
  lemma DivModUnique(x: int, d: int, q: int, m: int)
    requires d > 0 && 0 <= m < d && x == d * q + m
    ensures x / d == q && x % d == m
  {
    var q', m' := x / d, x % d;
    assert d * (q - q') == m' - m;
    if q > q' {
      MulAtLeast(d, q - q');
      assert false;
    } else if q < q' {
      MulAtLeast(d, q' - q);
      assert false;
    }
  }

  lemma MulAtLeast(d: int, k: int)
    requires d > 0 && k >= 1
    ensures d * k >= d
  {
  }

  /** Wrapping each operand and then the sum is congruent to the exact sum. */
  lemma CongruentSum(a: int, b: int, wa: int, wb: int, w: int)
    requires (a - wa) % TWO_TO_THE_32 == 0 && (b - wb) % TWO_TO_THE_32 == 0
    requires (wa + wb - w) % TWO_TO_THE_32 == 0
    ensures (w - (a + b)) % TWO_TO_THE_32 == 0
  {
  }
}
