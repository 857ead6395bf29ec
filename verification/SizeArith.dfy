/** The size arithmetic of a buffer request, in the machine's 64-bit words.

    A request names three sizes.  Each is rounded up to a pointer and the three are
    added, every step modulo 2^64; the code rejects the request when a sum comes out
    smaller than one of its parts. */
module SizeArith {
  const TWO64: nat := 0x1_0000_0000_0000_0000
  const PTR: nat := 8
  const BUFFER_STRUCT: nat := 96

  type size_t = x: nat | x < TWO64

  /** `ALIGN(x, sizeof(void *))` on a 64-bit word: the rounding itself can wrap to 0. */
  function Align(x: size_t): (r: size_t)
    ensures x + PTR <= TWO64 ==> x <= r < x + PTR
    ensures x + PTR > TWO64 ==> r == 0
    ensures r % PTR == 0
  {
    (x + 7) % TWO64 / 8 * 8
  }

  function AddWrap(x: size_t, y: size_t): size_t {
    (x + y) % TWO64
  }

  /** x rounded up to a pointer, without wrap-around. */
  function Pad(x: nat): (r: nat)
    ensures x <= r < x + PTR && r % PTR == 0
  {
    (x + 7) / 8 * 8
  }

  /** The room a request takes, in unbounded arithmetic. */
  function Padded(dataSize: nat, offsetsSize: nat, extraSize: nat): nat {
    Pad(dataSize) + Pad(offsetsSize) + Pad(extraSize)
  }

  datatype SizeCheck = BadSize | Size(size: size_t)

  /** The two wrap checks at the head of the allocator. */
  function CheckedSize(dataSize: size_t, offsetsSize: size_t, extraSize: size_t): SizeCheck {
    var dataOffsets := AddWrap(Align(dataSize), Align(offsetsSize));
    if dataOffsets < dataSize || dataOffsets < offsetsSize then
      BadSize
    else
      var size := AddWrap(dataOffsets, Align(extraSize));
      if size < dataOffsets || size < extraSize then BadSize else Size(size)
  }

  lemma AlignIsPad(x: size_t)
    ensures Pad(x) < TWO64 ==> Align(x) == Pad(x)
    ensures Pad(x) >= TWO64 ==> Align(x) == 0 && x > TWO64 - PTR
  {
  }

  /** A wrapped sum of two multiples of 8 is too small exactly when it wrapped. */
  lemma SumCheck(x: size_t, y: size_t, x0: size_t, y0: size_t)
    requires x % PTR == 0 && y % PTR == 0
    requires x0 <= x || (x == 0 && x0 > TWO64 - PTR)
    requires x == 0 || x - PTR < x0
    requires y0 <= y || (y == 0 && y0 > TWO64 - PTR)
    ensures (AddWrap(x, y) < x0 || AddWrap(x, y) < y0) <==> x0 > x || y0 > y || x + y >= TWO64
    ensures x + y < TWO64 ==> AddWrap(x, y) == x + y
  {
    assert x <= TWO64 - PTR && y <= TWO64 - PTR;
    if x + y >= TWO64 {
      assert AddWrap(x, y) == x + y - TWO64;
    } else {
      assert AddWrap(x, y) == x + y;
    }
  }

  /** The checks accept exactly the requests whose padded total fits in 64 bits, and then
      the wrapped sum is the true one. */
  lemma CheckedSizeExact(dataSize: size_t, offsetsSize: size_t, extraSize: size_t)
    ensures CheckedSize(dataSize, offsetsSize, extraSize) ==
            if Padded(dataSize, offsetsSize, extraSize) < TWO64
            then Size(Padded(dataSize, offsetsSize, extraSize))
            else BadSize
  {
    AlignIsPad(dataSize);
    AlignIsPad(offsetsSize);
    AlignIsPad(extraSize);
    var d, o, e := Align(dataSize), Align(offsetsSize), Align(extraSize);
    SumCheck(d, o, dataSize, offsetsSize);
    if d + o < TWO64 {
      SumCheck(d + o, e, d + o, extraSize);
    }
  }

  lemma SumOfMultiples(x: nat, y: nat)
    requires x % PTR == 0 && y % PTR == 0
    ensures (x + y) % PTR == 0
  {
  }

  lemma PaddedMultiple(dataSize: nat, offsetsSize: nat, extraSize: nat)
    ensures Padded(dataSize, offsetsSize, extraSize) % PTR == 0
  {
    var a, b, c := Pad(dataSize), Pad(offsetsSize), Pad(extraSize);
    SumOfMultiples(a, b);
    SumOfMultiples(a + b, c);
  }

  lemma AddWrapSmall(x: size_t, y: size_t)
    ensures x + y < TWO64 ==> AddWrap(x, y) == x + y
  {
  }
}
