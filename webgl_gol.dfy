// The WebGL game of life (the `Gol` class): a power-of-two board held in
// two textures that take turns as source and target, a step shader that
// applies Conway's rule on a torus, and a random starting texture.

module WebglGol {

  import opened PowerOfTwo
  import opened WebglHost
  import opened ByteTexel

  /** The constructor's `opts`; an absent object has neither field. */
  datatype Options = Options(width: Option<int>, height: Option<int>)

  /** `opts.x || fallback`: an absent or zero option falls back. */
  function OrElse(o: Option<int>, fallback: int): int
  {
    if o.Some? && o.value != 0 then o.value else fallback
  }

  /** The constructor's checks: the canvas must be given, and the chosen
      width and height (the options over the canvas size) must pass
      `isPowerOf2`. */
  function Dimensions(canvas: Option<Canvas>, opts: Options): Result<(int, int)>
  {
    if canvas.None? then Err(MissingCanvas)
    else
      var w := OrElse(opts.width, canvas.value.width);
      var h := OrElse(opts.height, canvas.value.height);
      if !IsPowerOf2(w) || !IsPowerOf2(h) then Err(NotPowerOf2) else Ok((w, h))
  }

  /** A missing canvas is reported first; otherwise the size is accepted
      exactly when both chosen sides are powers of two (below 2^32), and an
      option that is present and non-zero wins over the canvas. */
  lemma DimensionsChecks(canvas: Option<Canvas>, opts: Options)
    ensures canvas.None? ==> Dimensions(canvas, opts) == Err(MissingCanvas)
    ensures canvas.Some? && opts.width.Some? && opts.width.value != 0 && Dimensions(canvas, opts).Ok? ==>
              Dimensions(canvas, opts).value.0 == opts.width.value
    ensures canvas.Some? && opts.height.Some? && opts.height.value != 0 && Dimensions(canvas, opts).Ok? ==>
              Dimensions(canvas, opts).value.1 == opts.height.value
    ensures canvas.Some? && opts == Options(None, None) && Dimensions(canvas, opts).Ok? ==>
              Dimensions(canvas, opts).value == (canvas.value.width, canvas.value.height)
    ensures forall w, h :: Dimensions(canvas, opts) == Ok((w, h)) && w < Two32 && h < Two32 ==>
              (exists k: nat :: Pow2(k) == w) && (exists k: nat :: Pow2(k) == h)
    ensures canvas.Some? ==>
              var w := OrElse(opts.width, canvas.value.width);
              var h := OrElse(opts.height, canvas.value.height);
              w < Two32 && h < Two32 ==>
                (Dimensions(canvas, opts).Ok? <==>
                 w > 0 && h > 0 && (exists k: nat :: Pow2(k) == w) && (exists k: nat :: Pow2(k) == h))
  {
    forall w, h | Dimensions(canvas, opts) == Ok((w, h)) && w < Two32 && h < Two32
      ensures (exists k: nat :: Pow2(k) == w) && (exists k: nat :: Pow2(k) == h)
    {
      IsPowerOf2Iff(w);
      IsPowerOf2Iff(h);
    }
    if canvas.Some? {
      var w := OrElse(opts.width, canvas.value.width);
      var h := OrElse(opts.height, canvas.value.height);
      if w < Two32 && h < Two32 {
        IsPowerOf2Iff(w);
        IsPowerOf2Iff(h);
      }
    }
  }

  /** GLSL's `int(f)`: truncation toward zero. */
  function Int(f: real): int
  {
    if f >= 0.0 then f.Floor else -((-f).Floor)
  }

  /** The shader's `get(dx, dy)` at fragment (x, y): the texel the offset
      reaches, wrapped around both edges (REPEAT wrap, nearest filtering),
      read through its alpha channel. */
  function Get(s: Grid, w: int, h: int, x: int, y: int, dx: int, dy: int): int
    requires w > 0 && h > 0 && Shaped(s, w, h)
  {
    Int(At(s, w, h, x, y, dx, dy).a)
  }

  /** The sum over the eight neighbours. */
  function Neighbours(s: Grid, w: int, h: int, x: int, y: int): int
    requires w > 0 && h > 0 && Shaped(s, w, h)
  {
    Get(s, w, h, x, y, -1, -1) + Get(s, w, h, x, y, -1, 0) + Get(s, w, h, x, y, -1, 1) +
    Get(s, w, h, x, y, 0, -1) + Get(s, w, h, x, y, 0, 1) +
    Get(s, w, h, x, y, 1, -1) + Get(s, w, h, x, y, 1, 0) + Get(s, w, h, x, y, 1, 1)
  }

  /** `STEP_FRAG`'s output for a neighbour sum and the current cell: grey,
      with alpha 1 on three, the current cell on two, 0 otherwise. */
  function Fragment(sum: int, current: int): Color
  {
    var grey := Color(0.5, 0.5, 0.5, 1.0);
    if sum == 3 then grey
    else if sum == 2 then grey.(a := current as real)
    else grey.(a := 0.0)
  }

  /** One pass of the step program over the whole target texture. */
  function LifeStep(s: Grid, w: int, h: int): (t: Grid)
    requires w > 0 && h > 0 && Shaped(s, w, h)
    ensures Shaped(t, w, h)
  {
    Render(w, h, (x, y) => LifeCell(s, w, h, x, y))
  }

  /** The step shader's output over texel (x, y). */
  function LifeCell(s: Grid, w: int, h: int, x: int, y: int): Color
    requires w > 0 && h > 0 && Shaped(s, w, h)
  {
    Fragment(Neighbours(s, w, h, x, y), Get(s, w, h, x, y, 0, 0))
  }

  /** A board: every alpha is 0 or 1, so the shader reads each cell as 0 or
      1. */
  predicate IsBoard(s: Grid)
  {
    forall y, x :: 0 <= y < |s| && 0 <= x < |s[y]| ==> s[y][x].a == 0.0 || s[y][x].a == 1.0
  }

  /** The reference rule, Conway's B3/S23: a dead cell with exactly three
      live neighbours is born; a live one with two or three survives. */
  predicate Conway(alive: bool, n: int)
  {
    if alive then n == 2 || n == 3 else n == 3
  }

  /** The step shader's output on one cell reading 0 or 1: grey 0.5, an
      alpha of 0 or 1, and alpha 1 exactly when Conway's rule keeps or makes
      the cell live. */
  lemma FragmentIsConway(n: int, current: int)
    requires current == 0 || current == 1
    ensures var c := Fragment(n, current);
            c.r == 0.5 && c.g == 0.5 && c.b == 0.5 && (c.a == 0.0 || c.a == 1.0) &&
            (c.a == 1.0 <==> Conway(current == 1, n))
  {
  }

  /** What the step shader's output on a cell reading 0 or 1 is stored
      as: grey 128 / 255, and an alpha of 0 or 1 that is 1 exactly under
      Conway's rule. */
  lemma StoredFragmentIsConway(n: int, current: int)
    requires current == 0 || current == 1
    ensures var c := StoredColor(Fragment(n, current));
            c.r == 128.0 / 255.0 && c.g == 128.0 / 255.0 && c.b == 128.0 / 255.0 && (c.a == 0.0 || c.a == 1.0) &&
            (c.a == 1.0 <==> Conway(current == 1, n))
  {
    StoredHalf();
    FragmentIsConway(n, current);
    assert IsByte(0.0) && IsByte(1.0);
  }

  lemma CurrentIsBit(s: Grid, w: int, h: int, x: int, y: int)
    requires w > 0 && h > 0 && Shaped(s, w, h) && IsBoard(s) && 0 <= x < w && 0 <= y < h
    ensures Get(s, w, h, x, y, 0, 0) == (if s[y][x].a == 1.0 then 1 else 0)
  {
    AtOwnTexel(s, w, h, x, y);
  }

  /** A stored output cell as the step should leave it: grey 128 / 255
      (the grey of the random starting texture), and an alpha of 0 or 1
      that is 1 exactly under Conway's rule. */
  predicate StoredConway(c: Color, alive: bool, n: int)
  {
    c.r == 128.0 / 255.0 && c.g == 128.0 / 255.0 && c.b == 128.0 / 255.0 && (c.a == 0.0 || c.a == 1.0) &&
    (c.a == 1.0 <==> Conway(alive, n))
  }

  /** One cell of the stored step on a board. */
  lemma LifeStepCell(s: Grid, w: int, h: int, x: int, y: int)
    requires w > 0 && h > 0 && Shaped(s, w, h) && IsBoard(s) && 0 <= x < w && 0 <= y < h
    ensures StoredConway(LifeStep(s, w, h)[y][x], s[y][x].a == 1.0, Neighbours(s, w, h, x, y))
  {
    RenderedTexels(w, h, (x, y) => Fragment(Neighbours(s, w, h, x, y), Get(s, w, h, x, y, 0, 0)));
    var cur := Get(s, w, h, x, y, 0, 0);
    CurrentIsBit(s, w, h, x, y);
    StoredFragmentIsConway(Neighbours(s, w, h, x, y), cur);
  }

  /** On a board the stored step is Conway's rule for the eight-neighbour
      count, its output is again a board of the same shape, and every
      output colour is stored as grey 128 / 255. */
  lemma LifeStepIsConway(s: Grid, w: int, h: int)
    requires w > 0 && h > 0 && Shaped(s, w, h) && IsBoard(s)
    ensures Shaped(LifeStep(s, w, h), w, h) && IsBoard(LifeStep(s, w, h))
    ensures forall y, x :: 0 <= y < h && 0 <= x < w ==>
              StoredConway(LifeStep(s, w, h)[y][x], s[y][x].a == 1.0, Neighbours(s, w, h, x, y))
  {
    var t: Grid := LifeStep(s, w, h);
    forall y: int, x: int | 0 <= y < h && 0 <= x < w
      ensures StoredConway(t[y][x], s[y][x].a == 1.0, Neighbours(s, w, h, x, y))
    {
      LifeStepCell(s, w, h, x, y);
    }
  }

  /** The board is a torus: the right neighbour of the last column is the
      first column, and the lower neighbour of the last row is the first
      row. */
  lemma EdgesWrap(s: Grid, w: int, h: int, x: int, y: int)
    requires w > 0 && h > 0 && Shaped(s, w, h) && 0 <= x < w && 0 <= y < h
    ensures Get(s, w, h, w - 1, y, 1, 0) == Int(s[y][0].a)
    ensures Get(s, w, h, 0, y, -1, 0) == Int(s[y][w - 1].a)
    ensures Get(s, w, h, x, h - 1, 0, 1) == Int(s[0][x].a)
    ensures Get(s, w, h, x, 0, 0, -1) == Int(s[h - 1][x].a)
  {
    assert (y + 0) % h == y && (x + 0) % w == x;
    assert (w - 1 + 1) % w == 0 && (0 + -1) % w == w - 1;
    assert (h - 1 + 1) % h == 0 && (0 + -1) % h == h - 1;
  }

  /** The byte array `_createRandomTexture` fills for draw `u` at pixel
      `i`: grey 128 and alpha 255 with probability one half. */
  function RandomAlpha(u: real): int
  {
    if u < 0.5 then 255 else 0
  }

  /** `_createRandomTexture`'s loop: four bytes per pixel, the i-th pixel
      taking the i-th draw. */
  method RandomTexture(w: nat, h: nat, draws: seq<real>) returns (data: array<int>)
    requires |draws| == w * h
    ensures fresh(data) && data.Length == w * h * 4
    ensures forall i :: 0 <= i < w * h ==>
              data[4 * i] == 128 && data[4 * i + 1] == 128 && data[4 * i + 2] == 128 &&
              data[4 * i + 3] == RandomAlpha(draws[i])
  {
    var size := w * h * 4;
    data := new int[size];
    var i := 0;
    while i < size
      invariant i % 4 == 0 && 0 <= i <= size
      invariant forall k :: 0 <= k < i / 4 ==>
                  data[4 * k] == 128 && data[4 * k + 1] == 128 && data[4 * k + 2] == 128 &&
                  data[4 * k + 3] == RandomAlpha(draws[k])
    {
      var b := if draws[i / 4] < 0.5 then 255 else 0;
      data[i] := 128;
      data[i + 1] := 128;
      data[i + 2] := 128;
      data[i + 3] := b;
      i := i + 4;
    }
  }

  /** Every pixel of the random texture is grey 128 with alpha 0 or 255. */
  lemma RandomPixels(u: real)
    ensures RandomAlpha(u) == 0 || RandomAlpha(u) == 255
    ensures RandomAlpha(u) == 255 <==> u < 0.5
  {
  }

  /** The random texture is a board, so the first step reads each cell as
      live exactly when its draw was below one half. */
  lemma RandomTextureIsBoard(bytes: seq<int>, w: nat, h: nat, draws: seq<real>)
    requires |draws| == w * h && |bytes| == w * h * 4
    requires forall i :: 0 <= i < w * h ==> bytes[4 * i + 3] == RandomAlpha(draws[i])
    ensures IsBoard(TextureOf(bytes, w, h))
    ensures forall y, x :: 0 <= y < h && 0 <= x < w ==>
              (TextureOf(bytes, w, h)[y][x].a == 1.0 <==> draws[RowMajor(w, h, x, y)] < 0.5)
  {
    var s: Grid := TextureOf(bytes, w, h);
    forall y: int, x: int | 0 <= y < h && 0 <= x < w
      ensures (s[y][x].a == 0.0 || s[y][x].a == 1.0) && (s[y][x].a == 1.0 <==> draws[RowMajor(w, h, x, y)] < 0.5)
    {
      var i := RowMajor(w, h, x, y);
      assert s[y][x].a == bytes[4 * i + 3] as real / 255.0;
      assert bytes[4 * i + 3] == RandomAlpha(draws[i]);
    }
  }

  /** `_createRandomTexture`: the filled byte array uploaded as a texture. */
  method RandomBoard(w: nat, h: nat, draws: seq<real>) returns (s: Grid)
    requires |draws| == w * h
    ensures Shaped(s, w, h) && IsBoard(s)
    ensures forall y, x :: 0 <= y < h && 0 <= x < w ==> (s[y][x].a == 1.0 <==> draws[RowMajor(w, h, x, y)] < 0.5)
  {
    var data := RandomTexture(w, h, draws);
    var bytes := data[..];
    assert forall i :: 0 <= i < w * h ==> bytes[4 * i + 3] == RandomAlpha(draws[i]);
    RandomTextureIsBoard(bytes, w, h, draws);
    s := TextureOf(bytes, w, h);
  }

  /** The game after the constructor's checks: the textures exist once
      `init` has run, and `_step` counts the steps taken. */
  class Gol {
    const width: int
    const height: int
    var ready: bool
    var front: Grid
    var back: Grid
    var step: nat

    ghost predicate Valid()
      reads this
    {
      width > 0 && height > 0 && Shaped(front, width, height) && Shaped(back, width, height)
    }

    /** The texture holding the newest state: front after an even number
        of steps, back after an odd one. */
    function Latest(): Grid
      reads this
    {
      if step % 2 == 0 then front else back
    }

    /** The constructor past its checks; `Dimensions` gives the size. */
    constructor (w: int, h: int)
      requires IsPowerOf2(w) && IsPowerOf2(h)
      ensures width == w && height == h && !ready && Valid()
    {
      width := w;
      height := h;
      ready := false;
      front := Blank(w, h);
      back := Blank(w, h);
      step := 0;
    }

    /** `init`: fails when WebGL is unavailable; otherwise front becomes the
        random texture, back a blank one, and the step count 0. */
    method Init(webgl: bool, draws: seq<real>) returns (thrown: bool)
      requires Valid() && |draws| == width * height
      modifies this
      ensures Valid() && thrown == !webgl
      ensures !webgl ==> ready == old(ready) && front == old(front) && back == old(back) && step == old(step)
      ensures webgl ==> ready && step == 0 && back == Blank(width, height) && IsBoard(front) &&
                        forall y, x :: 0 <= y < height && 0 <= x < width ==>
                          (front[y][x].a == 1.0 <==> draws[RowMajor(width, height, x, y)] < 0.5)
    {
      if !webgl {
        return true;
      }
      front := RandomBoard(width, height, draws);
      back := Blank(width, height);
      step := 0;
      ready := true;
      thrown := false;
    }

    /** `step` (`_draw(true)`): the texture the parity names as source is
        stepped into the other one, and the count goes up, so the newest
        state is the step of the previous newest. */
    method Step()
      requires Valid() && ready
      modifies this
      ensures Valid() && ready && step == old(step) + 1
      ensures Latest() == LifeStep(old(Latest()), width, height)
      ensures old(step) % 2 == 0 ==> front == old(front) && back == LifeStep(old(front), width, height)
      ensures old(step) % 2 == 1 ==> back == old(back) && front == LifeStep(old(back), width, height)
    {
      var parity := step % 2;
      var source := if parity == 1 then back else front;
      var next := LifeStep(source, width, height);
      if parity == 1 {
        front := next;
      } else {
        back := next;
      }
      step := step + 1;
    }

    /** `draw` (`_draw(false)`): the render program copies the texture the
        parity names to the canvas, which is the newest state. */
    method Draw() returns (shown: Grid)
      requires Valid() && ready
      ensures shown == Latest()
    {
      var parity := step % 2;
      shown := if parity == 1 then back else front;
    }
  }
}
