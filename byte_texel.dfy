// What a texel of an RGBA texture with UNSIGNED_BYTE channels can hold.
// Every render target on the site is such a texture, so what a fragment
// shader writes is not its output colour itself: each channel is clamped
// to [0, 1] and rounded to the nearest multiple of 1/255 (halves rounding
// up).

module ByteTexel {

  /** The clamp to [0, 1] applied to every channel written to a normalised
      fixed-point target. */
  function Clamp01(v: real): (r: real)
    ensures 0.0 <= r <= 1.0
    ensures 0.0 <= v <= 1.0 ==> r == v
    ensures v < 0.0 ==> r == 0.0
    ensures v > 1.0 ==> r == 1.0
  {
    if v < 0.0 then 0.0 else if v > 1.0 then 1.0 else v
  }

  /** `v` is a value one 8-bit channel holds: k / 255 for a whole k in
      [0, 255]. */
  predicate IsByte(v: real)
  {
    0.0 <= v <= 1.0 && (v * 255.0).Floor as real == v * 255.0
  }

  /** The byte written for a shader output channel `v`. */
  function Level(v: real): (k: int)
    ensures 0 <= k <= 255
  {
    (255.0 * Clamp01(v) + 0.5).Floor
  }

  /** The channel value a texel holds after a shader wrote `v` to it: a
      whole number of 255ths, the nearest one to the clamped value, and `v`
      itself when `v` already is one. */
  function Stored(v: real): (r: real)
    ensures IsByte(r)
    ensures -1.0 / 510.0 < r - Clamp01(v) <= 1.0 / 510.0
    ensures IsByte(v) ==> r == v
  {
    var k := Level(v);
    LevelNear(v);
    LevelOfByte(v);
    assert (k as real / 255.0) * 255.0 == k as real;
    k as real / 255.0
  }

  /** The byte written is the clamped channel times 255, rounded. */
  lemma LevelNear(v: real)
    ensures Level(v) as real <= 255.0 * Clamp01(v) + 0.5 < Level(v) as real + 1.0
  {
  }

  /** A channel that already is a whole number of 255ths is written as
      that number. */
  lemma LevelOfByte(v: real)
    ensures IsByte(v) ==> Level(v) as real == v * 255.0
  {
    if IsByte(v) {
      var m := (v * 255.0).Floor;
      assert 255.0 * Clamp01(v) + 0.5 == m as real + 0.5;
      assert (m as real + 0.5).Floor == m;
    }
  }

  /** Storing never swaps the order of two outputs. */
  lemma StoredMonotone(u: real, v: real)
    requires u <= v
    ensures Stored(u) <= Stored(v)
  {
    assert 255.0 * Clamp01(u) + 0.5 <= 255.0 * Clamp01(v) + 0.5;
  }

  /** A channel is stored as full intensity exactly from 509/510 on, that
      is from 254.5 / 255, and as zero exactly below 1/510. */
  lemma StoredExtremes(v: real)
    ensures Stored(v) == 1.0 <==> v >= 509.0 / 510.0
    ensures Stored(v) == 0.0 <==> v < 1.0 / 510.0
  {
    var k := Level(v);
    assert Stored(v) == k as real / 255.0;
    if v >= 509.0 / 510.0 {
      assert 255.0 * Clamp01(v) + 0.5 >= 255.0;
    }
    if k == 255 {
      assert 255.0 * Clamp01(v) + 0.5 >= 255.0;
    }
    if v < 1.0 / 510.0 {
      assert 255.0 * Clamp01(v) + 0.5 < 1.0;
    }
  }

  /** Half intensity is stored as 128 / 255, not 1/2. */
  lemma StoredHalf()
    ensures Stored(0.5) == 128.0 / 255.0
  {
    assert 255.0 * Clamp01(0.5) + 0.5 == 128.0;
  }

  /** A colour as four channels. */
  datatype Color = Color(r: real, g: real, b: real, a: real)

  predicate IsByteColor(c: Color)
  {
    IsByte(c.r) && IsByte(c.g) && IsByte(c.b) && IsByte(c.a)
  }

  /** The colour a texel holds after a shader wrote `c` to it. */
  function StoredColor(c: Color): (s: Color)
    ensures IsByteColor(s)
    ensures IsByteColor(c) ==> s == c
  {
    Color(Stored(c.r), Stored(c.g), Stored(c.b), Stored(c.a))
  }
}
