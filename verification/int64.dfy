/** Two's-complement 64-bit results, as Go computes them on int64. */
module Int64 {
  const TWO_64 := 0x1_0000_0000_0000_0000
  const TWO_63 := 0x8000_0000_0000_0000

  predicate IsInt64(x: int) {
    -TWO_63 <= x < TWO_63
  }

  function Wrap(x: int): (r: int)
    ensures IsInt64(r)
    ensures IsInt64(x) ==> r == x
  {
    (x + TWO_63) % TWO_64 - TWO_63
  }

  lemma WrapIsPeriodic(x: int, k: int)
    ensures Wrap(x + TWO_64 * k) == Wrap(x)
  {
  }

  lemma WrapDiffers(x: int) returns (k: int)
    ensures Wrap(x) == x + TWO_64 * k
  {
    k := -((x + TWO_63) / TWO_64);
  }

  /** Wrapping the factors or the summands first does not change the wrapped result. */
  lemma WrapMul(x: int, y: int)
    ensures Wrap(Wrap(x) * y) == Wrap(x * y)
  {
    var k := WrapDiffers(x);
    assert Wrap(x) * y == x * y + TWO_64 * (k * y);
    WrapIsPeriodic(x * y, k * y);
  }

  lemma WrapAdd(x: int, y: int)
    ensures Wrap(Wrap(x) + Wrap(y)) == Wrap(x + y)
  {
    var k := WrapDiffers(x);
    var j := WrapDiffers(y);
    WrapIsPeriodic(x + y, k + j);
  }
}
