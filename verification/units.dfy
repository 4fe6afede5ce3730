/**
 * Unit conversion and decimal rounding used by the bounding-box extractor.
 *
 * A PDF point is 1/72 inch (the default user-space unit) and an inch is
 * 25.4 mm.  The extractor rounds millimetre values to one decimal place with
 * Python's `Decimal.quantize(Decimal('0.1'), ROUND_HALF_UP)`, which rounds to
 * the nearest tenth and sends exact ties away from zero.  Decimal arithmetic
 * is exact here, so it is modelled over `real`.
 */
module Units {

  const PointsPerInch: real := 72.0
  const MmPerInch: real := 25.4

  /** Converts a length in points to millimetres: points to inches, then inches to mm. */
  function PtToMm(pt: real): (mm: real)
    ensures mm * 360.0 == pt * 127.0
    ensures pt >= 0.0 ==> mm >= 0.0
    ensures pt == 0.0 <==> mm == 0.0
  {
    (pt / PointsPerInch) * MmPerInch
  }

  /** Converting lengths preserves their order. */
  lemma PtToMmMonotone(a: real, b: real)
    requires a <= b
    ensures PtToMm(a) <= PtToMm(b)
  {
  }

  /** One inch of points is exactly 25.4 mm, half an inch 12.7 mm. */
  lemma PtToMmExact()
    ensures PtToMm(72.0) == 25.4
    ensures PtToMm(36.0) == 12.7
  {
  }

  /**
   * `n` is the ROUND_HALF_UP quantization of `v` to tenths, counted in tenths:
   * the nearest multiple of 0.1, a tie going to the one of larger magnitude.
   * For v >= 0 the half-open window is (10v - 1/2, 10v + 1/2], for v < 0 it is
   * [10v - 1/2, 10v + 1/2).
   */
  ghost predicate IsHalfUpTenths(v: real, n: int)
  {
    if v >= 0.0 then v * 10.0 - 0.5 < n as real <= v * 10.0 + 0.5
    else v * 10.0 - 0.5 <= n as real < v * 10.0 + 0.5
  }

  /** ROUND_HALF_UP of `v` to one decimal place, as a whole number of tenths. */
  function HalfUpTenths(v: real): (n: int)
    ensures IsHalfUpTenths(v, n)
  {
    if v >= 0.0 then (v * 10.0 + 0.5).Floor
    else -((-v) * 10.0 + 0.5).Floor
  }

  /** The window of `IsHalfUpTenths` holds exactly one integer, so it defines the rounding. */
  lemma HalfUpTenthsUnique(v: real, n: int)
    requires IsHalfUpTenths(v, n)
    ensures n == HalfUpTenths(v)
  {
  }

  /** `Decimal.quantize(Decimal('0.1'), ROUND_HALF_UP)` on an exact decimal value. */
  function QuantizeTenth(v: real): (r: real)
    ensures r * 10.0 == HalfUpTenths(v) as real
    ensures v - 0.05 <= r <= v + 0.05
    ensures v >= 0.0 ==> r >= 0.0
  {
    HalfUpTenths(v) as real / 10.0
  }

  /** A value exactly halfway between two tenths rounds away from zero. */
  lemma TieRoundsAwayFromZero(v: real, k: int)
    requires v * 10.0 == k as real + 0.5
    ensures v >= 0.0 ==> QuantizeTenth(v) == (k + 1) as real / 10.0
    ensures v < 0.0 ==> QuantizeTenth(v) == k as real / 10.0
  {
    if v >= 0.0 {
      HalfUpTenthsUnique(v, k + 1);
    } else {
      HalfUpTenthsUnique(v, k);
    }
  }

  /** 12.25 rounds to 12.3 (not 12.2 as round-half-to-even would give), -12.25 to -12.3. */
  lemma TieExamples()
    ensures QuantizeTenth(12.25) == 12.3
    ensures QuantizeTenth(-12.25) == -12.3
  {
    TieRoundsAwayFromZero(12.25, 122);
    TieRoundsAwayFromZero(-12.25, -123);
  }

  /** A value that already has one decimal place is left unchanged, so quantizing twice is quantizing once. */
  lemma QuantizeTenthIdempotent(v: real)
    ensures QuantizeTenth(QuantizeTenth(v)) == QuantizeTenth(v)
  {
    var r := QuantizeTenth(v);
    var n := HalfUpTenths(v);
    assert r * 10.0 == n as real;
    HalfUpTenthsUnique(r, n);
  }

  /** Quantizing preserves order (rounding is monotone). */
  lemma QuantizeTenthMonotone(a: real, b: real)
    requires a <= b
    ensures QuantizeTenth(a) <= QuantizeTenth(b)
  {
    var na, nb := HalfUpTenths(a), HalfUpTenths(b);
    // One side of each window is strict, so the two counts differ by less than one tenth.
    assert (na - nb) as real < 1.0;
  }
}
