/** The order-fixing bit transform the approximate-percentile aggregation applies to
    doubles before inserting them into its digest, which orders signed 64-bit keys.
    A double is represented by its raw IEEE-754 bit pattern (the value of
    Double.doubleToRawLongBits); a Java long by its two's-complement pattern. */
module SortableBits {

  /** Raw bit pattern of a Java double. */
  type Double = bv64

  /** `value < 0` of a Java long with this bit pattern: the sign bit
      (0x8000000000000000) is set. */
  predicate IsNegative(b: bv64)
  {
    b & 0x8000_0000_0000_0000 != 0
  }

  /** The pattern without its sign bit: exponent and fraction. */
  function Magnitude(b: bv64): bv64
  {
    b & 0x7fff_ffff_ffff_ffff
  }

  /** Java's `x < y` on two longs, read from their two's-complement patterns. */
  predicate SignedLess(x: bv64, y: bv64)
  {
    if IsNegative(x) != IsNegative(y) then IsNegative(x) else x < y
  }

  /** Order of double bit patterns by sign, then magnitude: negatives first, the larger
      magnitude the smaller; then non-negatives, the smaller magnitude first. On
      non-NaN doubles this is numeric order, with -0.0 placed before +0.0. */
  predicate PatternLess(x: Double, y: Double)
  {
    if IsNegative(x) != IsNegative(y) then IsNegative(x)
    else if IsNegative(x) then Magnitude(y) < Magnitude(x)
    else Magnitude(x) < Magnitude(y)
  }

  /** doubleToSortableLong: flip every bit but the sign bit of a negative pattern, by
      XOR with 0x7fffffffffffffff. */
  function DoubleToSortableLong(value: Double): bv64
  {
    if IsNegative(value) then value ^ 0x7fff_ffff_ffff_ffff else value
  }

  /** The bit step of longToDouble, before Double.longBitsToDouble. */
  function LongToDouble(value: bv64): Double
  {
    if IsNegative(value) then value ^ 0x7fff_ffff_ffff_ffff else value
  }

  lemma SortableKeepsSign(value: Double)
    ensures IsNegative(DoubleToSortableLong(value)) == IsNegative(value)
    ensures IsNegative(LongToDouble(value)) == IsNegative(value)
  {
  }

  /** longToDouble undoes doubleToSortableLong, and the other way round: XOR with the
      low-bits mask is an involution that keeps the sign bit. */
  lemma SortableRoundTrip(value: Double)
    ensures LongToDouble(DoubleToSortableLong(value)) == value
    ensures DoubleToSortableLong(LongToDouble(value)) == value
  {
  }

  /** Among negative patterns, flipping the low bits reverses the order of magnitudes. */
  lemma NegativeOrder(x: Double, y: Double)
    requires IsNegative(x) && IsNegative(y)
    ensures SignedLess(DoubleToSortableLong(x), DoubleToSortableLong(y)) <==> Magnitude(y) < Magnitude(x)
  {
    SortableKeepsSign(x);
    SortableKeepsSign(y);
    if y < x {
      FlipReversesStrict(y, x);
      MagnitudeKeepsOrder(y, x);
    } else {
      FlipReversesWeak(x, y);
      MagnitudeReflectsOrder(y, x);
    }
  }

  /** Non-negative patterns are left alone and already ordered by magnitude. */
  lemma NonNegativeOrder(x: Double, y: Double)
    requires !IsNegative(x) && !IsNegative(y)
    ensures SignedLess(DoubleToSortableLong(x), DoubleToSortableLong(y)) <==> Magnitude(x) < Magnitude(y)
  {
    if x < y {
      MagnitudeKeepsOrder(x, y);
    } else {
      MagnitudeReflectsOrder(x, y);
    }
  }

  /** Flipping the low bits of two negative patterns reverses a strict order... */
  lemma FlipReversesStrict(x: bv64, y: bv64)
    requires IsNegative(x) && IsNegative(y)
    requires x < y
    ensures DoubleToSortableLong(y) < DoubleToSortableLong(x)
  {
  }

  /** ... and a weak one. */
  lemma FlipReversesWeak(x: bv64, y: bv64)
    requires IsNegative(x) && IsNegative(y)
    requires x <= y
    ensures DoubleToSortableLong(y) <= DoubleToSortableLong(x)
  {
  }

  /** Dropping the sign bit of two patterns of the same sign keeps their order... */
  lemma MagnitudeKeepsOrder(x: bv64, y: bv64)
    requires IsNegative(x) == IsNegative(y)
    requires x < y
    ensures Magnitude(x) < Magnitude(y)
  {
  }

  /** ... and the order of their magnitudes is theirs. */
  lemma MagnitudeReflectsOrder(x: bv64, y: bv64)
    requires IsNegative(x) == IsNegative(y)
    ensures Magnitude(x) < Magnitude(y) ==> x < y
  {
  }

  lemma MixedSignOrder(x: Double, y: Double)
    requires IsNegative(x) != IsNegative(y)
    ensures SignedLess(DoubleToSortableLong(x), DoubleToSortableLong(y)) == IsNegative(x)
  {
    SortableKeepsSign(x);
    SortableKeepsSign(y);
  }

  /** The encoding maps sign-then-magnitude order of patterns onto signed-long order,
      which is the order the digest keeps its keys in. */
  lemma SortableOrder(x: Double, y: Double)
    ensures PatternLess(x, y) <==> SignedLess(DoubleToSortableLong(x), DoubleToSortableLong(y))
  {
    if IsNegative(x) != IsNegative(y) {
      MixedSignOrder(x, y);
    } else if IsNegative(x) {
      NegativeOrder(x, y);
    } else {
      NonNegativeOrder(x, y);
    }
  }
}
