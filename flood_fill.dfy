// The breadth-first maze-solving demo (`Example2Breadth`): a maze image
// is loaded into a texture, a red seed is placed, and each step every white
// cell next to a coloured one takes a slightly varied copy of that colour,
// so the colour floods the maze's white corridors one cell per step.

module FloodFill {

  import opened WebglHost
  import opened ByteTexel

  /** `getValue`: 0 for white, 1 for black, 2 for any other colour; alpha
      is not looked at. */
  function Value(c: Color): int
  {
    if c.r == 1.0 && c.g == 1.0 && c.b == 1.0 then 0
    else if c.r == 0.0 && c.g == 0.0 && c.b == 0.0 then 1
    else 2
  }

  function Min(a: real, b: real): real
  {
    if a <= b then a else b
  }

  function Max(a: real, b: real): real
  {
    if a >= b then a else b
  }

  /** `randComponent`: the channel moved by the noise value `u` (rand's
      result, in [0, 1) for GLSL's `fract`) by at most 0.005, clamped to
      [0.01, 0.99]. */
  function RandComponent(c: real, u: real): (r: real)
    ensures 0.01 <= r <= 0.99
    ensures 0.01 <= c + (u - 0.5) * 0.01 <= 0.99 ==> r == c + (u - 0.5) * 0.01
  {
    Min(Max(c + (u - 0.5) * 0.01, 0.01), 0.99)
  }

  /** The noise `rand` gives for a (scaled) fragment coordinate; the shader
      computes it from a sine hash, which is passed in here. */
  type Noise = (real, real) -> real

  /** `randColor` at the fragment centred on (fx, fy): each of red, green
      and blue takes its own noise (the coordinate scaled by 1, 2 and 3);
      alpha is kept. */
  function RandColor(col: Color, rand: Noise, fx: real, fy: real): Color
  {
    col.(r := RandComponent(col.r, rand(fx, fy)),
         g := RandComponent(col.g, rand(fx * 2.0, fy * 2.0)),
         b := RandComponent(col.b, rand(fx * 3.0, fy * 3.0)))
  }

  /** A varied colour is always of class 2 and keeps the alpha. */
  lemma RandColorIsColoured(col: Color, rand: Noise, fx: real, fy: real)
    ensures Value(RandColor(col, rand, fx, fy)) == 2
    ensures RandColor(col, rand, fx, fy).a == col.a
  {
  }

  /** The order the shader looks at the neighbours in: the texels to the
      left, right, below and above (`up`, `down`, `left`, `right` in the
      shader). */
  const Offsets: seq<(int, int)> := [(-1, 0), (1, 0), (0, -1), (0, 1)]

  function Neighbour(s: Grid, w: int, h: int, x: int, y: int, k: int): Color
    requires w > 0 && h > 0 && Shaped(s, w, h) && 0 <= k < 4
  {
    At(s, w, h, x, y, Offsets[k].0, Offsets[k].1)
  }

  /** `main` of the step shader at texel (x, y). */
  function StepCell(s: Grid, w: int, h: int, x: int, y: int, rand: Noise): Color
    requires w > 0 && h > 0 && Shaped(s, w, h)
  {
    var color := At(s, w, h, x, y, 0, 0);
    var fx, fy := x as real + 0.5, y as real + 0.5;
    if Value(color) != 0 then color
    else
      var left := At(s, w, h, x, y, -1, 0);
      if Value(left) == 2 then RandColor(left, rand, fx, fy)
      else
        var right := At(s, w, h, x, y, 1, 0);
        if Value(right) == 2 then RandColor(right, rand, fx, fy)
        else
          var below := At(s, w, h, x, y, 0, -1);
          if Value(below) == 2 then RandColor(below, rand, fx, fy)
          else
            var above := At(s, w, h, x, y, 0, 1);
            if Value(above) == 2 then RandColor(above, rand, fx, fy)
            else color
  }

  /** The reference: the first of the four neighbours, from `k` on, that
      is of class 2. */
  function FirstColoured(s: Grid, w: int, h: int, x: int, y: int, k: nat): (r: Option<nat>)
    requires w > 0 && h > 0 && Shaped(s, w, h) && k <= 4
    ensures r.Some? ==> k <= r.value < 4 && Value(Neighbour(s, w, h, x, y, r.value)) == 2 &&
                        forall j :: k <= j < r.value ==> Value(Neighbour(s, w, h, x, y, j)) != 2
    ensures r.None? ==> forall j :: k <= j < 4 ==> Value(Neighbour(s, w, h, x, y, j)) != 2
    decreases 4 - k
  {
    if k == 4 then None
    else if Value(Neighbour(s, w, h, x, y, k)) == 2 then Some(k)
    else FirstColoured(s, w, h, x, y, k + 1)
  }

  /** One step at a cell: a cell that is not white keeps its colour; a
      white one takes the varied colour of its first coloured neighbour, and
      stays white when there is none. */
  lemma {:induction false} StepCellIsFlood(s: Grid, w: int, h: int, x: int, y: int, rand: Noise)
    requires w > 0 && h > 0 && Shaped(s, w, h) && 0 <= x < w && 0 <= y < h
    ensures Value(s[y][x]) != 0 ==> StepCell(s, w, h, x, y, rand) == s[y][x]
    ensures Value(s[y][x]) == 0 ==>
              match FirstColoured(s, w, h, x, y, 0)
              case None => StepCell(s, w, h, x, y, rand) == s[y][x]
              case Some(k) =>
                StepCell(s, w, h, x, y, rand) ==
                RandColor(Neighbour(s, w, h, x, y, k), rand, x as real + 0.5, y as real + 0.5)
  {
    AtOwnTexel(s, w, h, x, y);
    var f0 := FirstColoured(s, w, h, x, y, 0);
    var f1 := FirstColoured(s, w, h, x, y, 1);
    var f2 := FirstColoured(s, w, h, x, y, 2);
    var f3 := FirstColoured(s, w, h, x, y, 3);
    assert FirstColoured(s, w, h, x, y, 4) == None;
  }

  /** A step changes only white cells, and a white cell either stays white
      or becomes coloured (class 2) with its neighbour's alpha: black walls
      and coloured cells never change, and the coloured region only grows. */
  lemma StepCellClasses(s: Grid, w: int, h: int, x: int, y: int, rand: Noise)
    requires w > 0 && h > 0 && Shaped(s, w, h) && 0 <= x < w && 0 <= y < h
    ensures var c := StepCell(s, w, h, x, y, rand);
            (Value(s[y][x]) != 0 ==> c == s[y][x]) &&
            (Value(s[y][x]) == 0 ==> c == s[y][x] || Value(c) == 2)
  {
    StepCellIsFlood(s, w, h, x, y, rand);
    var f := FirstColoured(s, w, h, x, y, 0);
    if Value(s[y][x]) == 0 && f.Some? {
      RandColorIsColoured(Neighbour(s, w, h, x, y, f.value), rand, x as real + 0.5, y as real + 0.5);
    }
  }

  /** One pass of the step program over the whole target texture. */
  function FloodStep(s: Grid, w: int, h: int, rand: Noise): (t: Grid)
    requires w > 0 && h > 0 && Shaped(s, w, h)
    ensures Shaped(t, w, h) && ByteGrid(t)
  {
    RenderedTexels(w, h, (x, y) => StepCell(s, w, h, x, y, rand));
    Render(w, h, (x, y) => StepCell(s, w, h, x, y, rand))
  }

  /** A varied colour stays of class 2 once stored in 8 bits: its red,
      green and blue lie in [0.01, 0.99], more than 1/510 away from both 0
      and 1. */
  lemma StoredVariedIsColoured(col: Color, rand: Noise, fx: real, fy: real)
    ensures Value(StoredColor(RandColor(col, rand, fx, fy))) == 2
  {
    var c := RandColor(col, rand, fx, fy);
    assert 0.01 <= c.r <= 0.99;
    assert 0.0 < Stored(c.r) < 1.0;
  }

  /** Over the whole stored texture: every cell of class 1 or 2 keeps its
      colour, and every white cell stays white or turns class 2. */
  lemma FloodStepGrows(s: Grid, w: int, h: int, rand: Noise)
    requires w > 0 && h > 0 && Shaped(s, w, h) && ByteGrid(s)
    ensures forall y, x :: 0 <= y < h && 0 <= x < w ==>
              (Value(s[y][x]) != 0 ==> FloodStep(s, w, h, rand)[y][x] == s[y][x]) &&
              (Value(s[y][x]) == 0 ==>
                 FloodStep(s, w, h, rand)[y][x] == s[y][x] || Value(FloodStep(s, w, h, rand)[y][x]) == 2)
  {
    var t := FloodStep(s, w, h, rand);
    RenderedTexels(w, h, (x, y) => StepCell(s, w, h, x, y, rand));
    forall y: int, x: int | 0 <= y < h && 0 <= x < w
      ensures (Value(s[y][x]) != 0 ==> t[y][x] == s[y][x]) &&
              (Value(s[y][x]) == 0 ==> t[y][x] == s[y][x] || Value(t[y][x]) == 2)
    {
      assert t[y][x] == StoredColor(StepCell(s, w, h, x, y, rand));
      assert IsByteColor(s[y][x]);
      StepCellIsFlood(s, w, h, x, y, rand);
      var f := FirstColoured(s, w, h, x, y, 0);
      if Value(s[y][x]) == 0 && f.Some? {
        StoredVariedIsColoured(Neighbour(s, w, h, x, y, f.value), rand, x as real + 0.5, y as real + 0.5);
      }
    }
  }

  /** The seed `init` places at (2, 2). */
  const Red := Color(1.0, 0.0, 0.0, 1.0)

  class Example2Breadth {
    const width: int
    const height: int
    var loaded: bool
    var playing: bool
    /** `_interval`: the id of the running interval, once `play` set one. */
    var interval: Option<nat>
    var front: Grid
    var back: Grid
    var step: nat

    ghost predicate Valid()
      reads this
    {
      width > 0 && height > 0 && Shaped(front, width, height) && Shaped(back, width, height) &&
      ByteGrid(front) && ByteGrid(back)
    }

    /** The texture holding the newest state: front after an even number
        of steps, back after an odd one. */
    function Latest(): Grid
      reads this
    {
      if step % 2 == 0 then front else back
    }

    /** The constructor past its checks (`CanvasSize`): not loaded, not
        playing, no step taken. */
    constructor (w: int, h: int)
      requires CanvasSize(Some(Canvas(w, h))) == Ok((w, h))
      ensures width == w && height == h && Valid()
      ensures !loaded && !playing && step == 0 && interval.None?
    {
      width := w;
      height := h;
      loaded := false;
      playing := false;
      interval := None;
      front := Blank(w, h);
      back := Blank(w, h);
      step := 0;
    }

    /** `init`: fails without WebGL or when the maze image does not load
        (`image` is None, otherwise its decoded 8-bit pixels); otherwise
        front holds the image with the red seed at (2, 2), back a blank
        texture, and the demo is loaded and paused. */
    method Init(webgl: bool, image: Option<Grid>) returns (thrown: bool)
      requires Valid() && (image.Some? ==> Shaped(image.value, width, height) && ByteGrid(image.value))
      modifies this
      ensures Valid() && (thrown <==> !webgl || image.None?)
      ensures thrown ==> loaded == old(loaded) && playing == old(playing) &&
                         front == old(front) && back == old(back) && step == old(step)
      ensures !thrown ==> loaded && !playing && step == old(step) &&
                          front == SetPixel(image.value, width, height, 2, 2, Red) &&
                          back == Blank(width, height)
      ensures interval == old(interval)
    {
      if !webgl || image.None? {
        return true;
      }
      front := SetPixel(image.value, width, height, 2, 2, Red);
      back := Blank(width, height);
      loaded := true;
      playing := false;
      thrown := false;
    }

    /** `step` (`_draw(true)`): the parity is read before the count goes
        up; the texture it names as source is stepped into the other one, so
        the newest state is the flood step of the previous newest. */
    method Step(rand: Noise)
      requires Valid()
      modifies this
      ensures Valid() && step == old(step) + 1
      ensures Latest() == FloodStep(old(Latest()), width, height, rand)
      ensures old(step) % 2 == 0 ==> front == old(front) && back == FloodStep(old(front), width, height, rand)
      ensures old(step) % 2 == 1 ==> back == old(back) && front == FloodStep(old(back), width, height, rand)
      ensures loaded == old(loaded) && playing == old(playing) && interval == old(interval)
    {
      var parity := step % 2;
      step := step + 1;
      if parity == 1 {
        front := FloodStep(back, width, height, rand);
      } else {
        back := FloodStep(front, width, height, rand);
      }
    }

    /** `draw` (`_draw(false)`): the canvas shows the newest state. */
    method Draw() returns (shown: Grid)
      requires Valid()
      ensures shown == Latest()
    {
      var parity := step % 2;
      shown := if parity == 1 then back else front;
    }

    /** `play`: nothing unless loaded and paused; then an interval starts. */
    method Play(id: nat)
      modifies this
      ensures !old(loaded) || old(playing) ==> playing == old(playing) && interval == old(interval)
      ensures old(loaded) && !old(playing) ==> playing && interval == Some(id)
      ensures loaded == old(loaded) && front == old(front) && back == old(back) && step == old(step)
    {
      if !loaded || playing {
        return;
      }
      interval := Some(id);
      playing := true;
    }

    /** `pause`: nothing unless playing; then the interval is cleared (its
        id stays in `_interval`) and the demo is paused. */
    method Pause()
      modifies this
      ensures !playing && interval == old(interval)
      ensures loaded == old(loaded) && front == old(front) && back == old(back) && step == old(step)
    {
      if !playing {
        return;
      }
      playing := false;
    }
  }

  /** The seed is coloured, so a loaded maze at least 4 wide and high has a
      coloured cell at (2, 2) to flood from. */
  lemma SeedIsColoured(image: Grid, w: int, h: int)
    requires Shaped(image, w, h) && w > 2 && h > 2
    ensures Value(SetPixel(image, w, h, 2, 2, Red)[2][2]) == 2
  {
  }
}
