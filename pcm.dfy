/** The per-sample rule of the WAV encoder: clamp to [-1, 1], scale asymmetrically, and store
    through DataView.setInt16, which truncates toward zero. Samples are mathematical reals. */
module Pcm {
  import opened LittleEndian

  const NegativeScale: real := 32768.0  // 0x8000
  const PositiveScale: real := 32767.0  // 0x7FFF

  /** Math.min of two finite numbers: the smaller of the two. */
  function Min(a: real, b: real): (m: real)
    ensures m <= a && m <= b && (m == a || m == b)
  {
    if a <= b then a else b
  }

  /** Math.max of two finite numbers: the larger of the two. */
  function Max(a: real, b: real): (m: real)
    ensures m >= a && m >= b && (m == a || m == b)
  {
    if a >= b then a else b
  }

  /** Math.max(-1, Math.min(1, x)). */
  function Clamp(x: real): (s: real)
    ensures -1.0 <= s <= 1.0
    ensures -1.0 <= x <= 1.0 ==> s == x
    ensures x > 1.0 ==> s == 1.0
    ensures x < -1.0 ==> s == -1.0
  {
    Max(-1.0, Min(1.0, x))
  }

  /** s < 0 ? s * 0x8000 : s * 0x7FFF. */
  function Scale(s: real): real
  {
    if s < 0.0 then s * NegativeScale else s * PositiveScale
  }

  /** ECMAScript's truncation of a finite number toward zero (ToIntegerOrInfinity). */
  function TruncateTowardZero(r: real): (n: int)
    ensures r >= 0.0 ==> 0 <= n && n as real <= r < n as real + 1.0
    ensures r < 0.0 ==> n <= 0 && n as real - 1.0 < r <= n as real
  {
    if r >= 0.0 then r.Floor else -((-r).Floor)
  }

  /** ToInt16's bit pattern: truncate toward zero, then reduce modulo 2^16. */
  function Int16Bits(r: real): (u: int)
    ensures 0 <= u < Two16
  {
    TruncateTowardZero(r) % Two16
  }

  /** The signed 16-bit PCM value a sample becomes. */
  function SampleValue(x: real): int
  {
    TruncateTowardZero(Scale(Clamp(x)))
  }

  /** Every sample lands inside the int16 range, so ToInt16 never wraps. */
  lemma SampleInRange(x: real)
    ensures -32768 <= SampleValue(x) <= 32767
  {
    var s := Clamp(x);
    if s < 0.0 {
      assert -32768.0 <= Scale(s) < 0.0;
    } else {
      assert 0.0 <= Scale(s) <= 32767.0;
    }
  }

  /** Full scale: anything at or above 1 becomes 32767, anything at or below -1 becomes -32768. */
  lemma SampleSaturates(x: real)
    ensures x >= 1.0 ==> SampleValue(x) == 32767
    ensures x <= -1.0 ==> SampleValue(x) == -32768
  {
    if x >= 1.0 {
      assert Scale(Clamp(x)) == 32767.0;
    } else if x <= -1.0 {
      assert Scale(Clamp(x)) == -32768.0;
    }
  }

  /** Quantisation loses strictly less than one step, and never moves a value away from zero. */
  lemma SampleQuantisationError(x: real)
    ensures var e := Scale(Clamp(x)) - SampleValue(x) as real;
            (x >= 0.0 ==> 0.0 <= e < 1.0) && (x < 0.0 ==> -1.0 < e <= 0.0)
  {
    var s := Clamp(x);
    assert x >= 0.0 ==> s >= 0.0 && Scale(s) >= 0.0;
    assert x < 0.0 ==> s < 0.0 && Scale(s) < 0.0;
  }

  /** The sign of a sample is kept: a positive value never comes from a negative sample and
      vice versa. */
  lemma SampleKeepsSign(x: real)
    ensures SampleValue(x) > 0 ==> x > 0.0
    ensures SampleValue(x) < 0 ==> x < 0.0
  {
    var s := Clamp(x);
    assert x <= 0.0 ==> s <= 0.0 && Scale(s) <= 0.0;
    assert x >= 0.0 ==> s >= 0.0 && Scale(s) >= 0.0;
  }

  /** Louder input never gives a smaller PCM value. */
  lemma SampleMonotone(x: real, y: real)
    requires x <= y
    ensures SampleValue(x) <= SampleValue(y)
  {
    var sx, sy := Clamp(x), Clamp(y);
    assert sx <= sy;
    assert Scale(sx) <= Scale(sy);
    TruncateMonotone(Scale(sx), Scale(sy));
  }

  lemma TruncateMonotone(a: real, b: real)
    requires a <= b
    ensures TruncateTowardZero(a) <= TruncateTowardZero(b)
  {
  }

  /** The two bytes setInt16 stores for a sample read back, as a signed 16-bit value, as the
      sample's PCM value. */
  lemma SampleBytesReadBack(x: real)
    ensures ReadInt16(Uint16Bytes(Int16Bits(Scale(Clamp(x)))), 0) == SampleValue(x)
  {
    SampleInRange(x);
    var v := SampleValue(x);
    var u := Int16Bits(Scale(Clamp(x)));
    assert u == v % Two16;
    assert ReadUint16(Uint16Bytes(u), 0) == u;
    if v < 0 {
      assert u == v + Two16;
    } else {
      assert u == v;
    }
  }
}
