/**
 * The machine scalars the plugin and host work with: bytes, 32-bit unsigned
 * integers and IEEE-754 single-precision floats.
 *
 * A float is kept as its 32-bit pattern. Nothing in the modelled code does
 * arithmetic on floats; it only stores, copies, serialises and compares them
 * (the clamping in `preset_t::set`, the silence test in `voice::is_free`), so
 * the model gives floats exactly the IEEE ordering `<` and nothing more.
 */
module Scalars {

  type byte = x: int | 0 <= x < 0x100
  type uint32 = x: int | 0 <= x < 0x1_0000_0000

  /** An IEEE-754 binary32 value, given by its bit pattern (sign bit 31). */
  datatype Float32 = F32(bits: uint32)

  const Zero := F32(0)            // 0.0f
  const One := F32(0x3F80_0000)   // 1.0f

  /** The bits below the sign bit: exponent and fraction. */
  function Magnitude(f: Float32): (m: nat)
    ensures m < 0x8000_0000
  {
    f.bits % 0x8000_0000
  }

  predicate IsNegative(f: Float32) {
    f.bits >= 0x8000_0000
  }

  /** Exponent all ones and a non-zero fraction. */
  predicate IsNaN(f: Float32) {
    Magnitude(f) > 0x7F80_0000
  }

  /** +0.0 or -0.0. */
  predicate IsZero(f: Float32) {
    Magnitude(f) == 0
  }

  /**
   * The position of a non-NaN float on the number line. For non-negative
   * floats (infinity included) the order of the bit patterns is the numeric
   * order, so the magnitude, negated for negative floats, is a key whose
   * integer order is the IEEE order; +0.0 and -0.0 get the same key.
   */
  function Key(f: Float32): int {
    var m: int := Magnitude(f);
    if IsNegative(f) then -m else m
  }

  /** Two floats with the same key are the same float unless both are zeros. */
  lemma KeyInjective(a: Float32, b: Float32)
    requires Key(a) == Key(b) && !IsZero(a)
    ensures a == b
  {
    assert a.bits == (if IsNegative(a) then 0x8000_0000 else 0) + Magnitude(a);
    assert b.bits == (if IsNegative(b) then 0x8000_0000 else 0) + Magnitude(b);
  }

  /** IEEE `a < b`: false whenever either operand is NaN. */
  predicate Less(a: Float32, b: Float32) {
    !IsNaN(a) && !IsNaN(b) && Key(a) < Key(b)
  }

  /** `std::min(a, b)`, which is `(b < a) ? b : a`. */
  function StdMin(a: Float32, b: Float32): (r: Float32)
    ensures r == a || r == b
    ensures Less(b, a) <==> r == b && r != a
  {
    if Less(b, a) then b else a
  }

  /** `std::max(a, b)`, which is `(a < b) ? b : a`. */
  function StdMax(a: Float32, b: Float32): (r: Float32)
    ensures r == a || r == b
    ensures Less(a, b) <==> r == b && r != a
  {
    if Less(a, b) then b else a
  }

  /** A declared parameter range: both bounds are numbers and `lo <= hi`. */
  predicate IsRange(lo: Float32, hi: Float32) {
    !IsNaN(lo) && !IsNaN(hi) && Key(lo) <= Key(hi)
  }

  /** `lo <= v <= hi` in IEEE terms. */
  predicate Within(v: Float32, lo: Float32, hi: Float32) {
    !IsNaN(v) && Key(lo) <= Key(v) <= Key(hi)
  }

  /**
   * `v = std::min(max, v); v = std::max(min, v);` — the clamp in
   * `preset_t::set`. Whatever `v` is (NaN included), the result lies in a
   * declared range; a value already in range keeps its numeric value, and
   * keeps its exact bits unless it is a zero of the other sign than a bound.
   */
  function Clamp(v: Float32, lo: Float32, hi: Float32): (r: Float32)
    ensures IsRange(lo, hi) ==> Within(r, lo, hi)
    ensures IsRange(lo, hi) && Within(v, lo, hi) ==> Key(r) == Key(v)
    ensures IsRange(lo, hi) && Within(v, lo, hi) && !IsZero(v) ==> r == v
    ensures IsNaN(v) && Less(lo, hi) ==> r == hi
  {
    StdMax(lo, StdMin(hi, v))
  }

  /** Clamping twice stores the same bits as clamping once. */
  lemma ClampIdempotent(v: Float32, lo: Float32, hi: Float32)
    requires IsRange(lo, hi)
    ensures Clamp(Clamp(v, lo, hi), lo, hi) == Clamp(v, lo, hi)
  {
    var r := Clamp(v, lo, hi);
    assert !Less(hi, r);
    if !Less(lo, r) {
      // the outer std::max of the first clamp already chose the bound
      assert r == lo;
    }
  }
}
