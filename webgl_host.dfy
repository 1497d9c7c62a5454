// What the three WebGL hosts (game of life, flood fill, maze generator)
// share: the canvas checks their constructors make, textures as grids of
// normalised RGBA texels, the wrapped texel lookup their step shaders use,
// the upload of an RGBA byte array, and a draw of a step shader into a
// texture of 8-bit channels.

module WebglHost {

  import opened PowerOfTwo
  import opened ByteTexel

  datatype Option<T> = None | Some(value: T)

  /** Why a constructor throws. */
  datatype Error = MissingCanvas | NotPowerOf2

  datatype Result<T> = Ok(value: T) | Err(error: Error)

  /** The canvas element's size. */
  datatype Canvas = Canvas(width: int, height: int)

  /** The flood-fill and maze constructors' checks: the canvas must be
      given, and its width and height must pass `isPowerOf2`. */
  function CanvasSize(canvas: Option<Canvas>): Result<(int, int)>
  {
    if canvas.None? then Err(MissingCanvas)
    else if !IsPowerOf2(canvas.value.width) || !IsPowerOf2(canvas.value.height) then Err(NotPowerOf2)
    else Ok((canvas.value.width, canvas.value.height))
  }

  /** The constructor fails on a missing canvas first, and otherwise takes
      the canvas size exactly when both sides are powers of two (below
      2^32). */
  lemma CanvasSizeChecks(canvas: Option<Canvas>)
    ensures canvas.None? ==> CanvasSize(canvas) == Err(MissingCanvas)
    ensures canvas.Some? && canvas.value.width < Two32 && canvas.value.height < Two32 ==>
              (CanvasSize(canvas) == Ok((canvas.value.width, canvas.value.height)) <==>
               canvas.value.width > 0 && canvas.value.height > 0 &&
               (exists k: nat :: Pow2(k) == canvas.value.width) &&
               (exists k: nat :: Pow2(k) == canvas.value.height))
    ensures canvas.Some? && CanvasSize(canvas).Err? ==> CanvasSize(canvas) == Err(NotPowerOf2)
  {
    if canvas.Some? && canvas.value.width < Two32 && canvas.value.height < Two32 {
      IsPowerOf2Iff(canvas.value.width);
      IsPowerOf2Iff(canvas.value.height);
    }
  }

  /** A texture as rows of texels. */
  type Grid = seq<seq<Color>>

  predicate Shaped(s: Grid, w: int, h: int)
  {
    |s| == h && forall y :: 0 <= y < h ==> |s[y]| == w
  }

  /** Every texel holds 8-bit channels, as every texture here does. */
  predicate ByteGrid(s: Grid)
  {
    forall y, x :: 0 <= y < |s| && 0 <= x < |s[y]| ==> IsByteColor(s[y][x])
  }

  /** One draw of a fragment shader (`frag`, the colour it writes for the
      fragment over texel (x, y)) into a whole w by h target texture of
      UNSIGNED_BYTE channels. */
  function Render(w: nat, h: nat, frag: (int, int) -> Color): (t: Grid)
    ensures Shaped(t, w, h)
  {
    seq(h, y requires 0 <= y < h => seq(w, x requires 0 <= x < w => StoredColor(frag(x, y))))
  }

  /** Each texel of a rendered texture holds the 8-bit store of the
      shader's output for it, so the whole texture holds bytes. */
  lemma RenderedTexels(w: nat, h: nat, frag: (int, int) -> Color)
    ensures forall y, x :: 0 <= y < h && 0 <= x < w ==> Render(w, h, frag)[y][x] == StoredColor(frag(x, y))
    ensures ByteGrid(Render(w, h, frag))
  {
    var t := Render(w, h, frag);
    assert forall y, x :: 0 <= y < h && 0 <= x < w ==> IsByteColor(StoredColor(frag(x, y)));
  }

  /** The texel a step shader reads at offset (dx, dy) from the fragment
      over texel (x, y): with REPEAT wrap and nearest filtering the
      coordinates wrap around both edges. */
  function At(s: Grid, w: int, h: int, x: int, y: int, dx: int, dy: int): Color
    requires w > 0 && h > 0 && Shaped(s, w, h)
  {
    s[(y + dy) % h][(x + dx) % w]
  }

  /** The offset (0, 0) reads the fragment's own texel. */
  lemma AtOwnTexel(s: Grid, w: int, h: int, x: int, y: int)
    requires w > 0 && h > 0 && Shaped(s, w, h) && 0 <= x < w && 0 <= y < h
    ensures At(s, w, h, x, y, 0, 0) == s[y][x]
  {
    ModOfSmall(y + 0, h);
    ModOfSmall(x + 0, w);
  }

  lemma ModOfSmall(a: int, n: int)
    requires 0 <= a < n
    ensures a % n == a
  {
  }

  /** Pixel (x, y)'s place in a row-major w by h image. */
  function RowMajor(w: nat, h: nat, x: nat, y: nat): (i: nat)
    requires x < w && y < h
    ensures i < w * h
  {
    assert y * w + x < (y + 1) * w <= h * w;
    y * w + x
  }

  /** The texel at (x, y) of an RGBA byte array, each byte over 255. */
  function PixelAt(bytes: seq<int>, w: nat, h: nat, x: nat, y: nat): Color
    requires |bytes| == w * h * 4 && x < w && y < h
  {
    var i := 4 * RowMajor(w, h, x, y);
    Color(bytes[i] as real / 255.0, bytes[i + 1] as real / 255.0,
          bytes[i + 2] as real / 255.0, bytes[i + 3] as real / 255.0)
  }

  /** The texture `texImage2D` (or a whole-texture `texSubImage2D`) makes
      from an RGBA byte array. */
  function TextureOf(bytes: seq<int>, w: nat, h: nat): (s: Grid)
    requires |bytes| == w * h * 4
    ensures Shaped(s, w, h)
  {
    seq(h, y requires 0 <= y < h => seq(w, x requires 0 <= x < w => PixelAt(bytes, w, h, x, y)))
  }

  const Transparent := Color(0.0, 0.0, 0.0, 0.0)

  /** The all-zero texture `_createTexture(w, h, null)` allocates. */
  function Blank(w: nat, h: nat): (s: Grid)
    ensures Shaped(s, w, h)
    ensures forall y, x :: 0 <= y < h && 0 <= x < w ==> s[y][x] == Transparent
    ensures ByteGrid(s)
  {
    seq(h, _ => seq(w, _ => Transparent))
  }

  /** `_setPixel(x, y, pixel)`: a one-texel `texSubImage2D`; outside the
      texture the call is rejected and nothing is written. */
  function SetPixel(s: Grid, w: int, h: int, x: int, y: int, c: Color): (t: Grid)
    requires Shaped(s, w, h)
    ensures Shaped(t, w, h)
    ensures forall j, i :: 0 <= j < h && 0 <= i < w ==>
              t[j][i] == if j == y && i == x then c else s[j][i]
    ensures ByteGrid(s) && IsByteColor(c) ==> ByteGrid(t)
  {
    if 0 <= x < w && 0 <= y < h then s[y := s[y][x := c]] else s
  }
}
