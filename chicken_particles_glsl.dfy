// The GPU variant of the chicken-cave particle pool: particles live in a
// 256 x 256 RGBA texture, an even column holding a position and the
// column to its right the velocity, each coordinate packed into two
// colour channels by a fixed-point encoding. A step shader moves every
// position by its velocity and pulls every velocity down by gravity, and
// what it writes is stored in the texture's 8-bit channels.

module ChickenParticlesGlsl {

  import opened ByteTexel

  /** The texture is TexSize x TexSize pixels. */
  const TexSize := 256
  /** `TEX_SCALE` and `STEP_2`: one texel, and one byte step of a channel. */
  const ByteStep: real := 0.00390625
  /** The drawn points: `drawArrays(gl.POINTS, 0, 16384)`. */
  const DrawnPoints := 16384
  /** The position buffer: `new Float32Array(256 * 128)`. */
  const PosBufferLength := 256 * 128

  /** A texel: four colour channels. */
  datatype Channel = Channel(r: real, g: real, b: real, a: real)

  /** A two-component value as the shader sees it. */
  datatype Vec2 = Vec2(x: real, y: real)

  /** The step shader's `decode`: two channels back to one value in
      [-0.5, 0.5). */
  function Decode(hi: real, lo: real): real
  {
    (hi + lo * ByteStep) - 0.5
  }

  /** The draw shader's `decode`, which leaves out the -0.5. */
  function DrawDecode(hi: real, lo: real): real
  {
    hi + lo * ByteStep
  }

  /** The draw shader reads every stored value half a unit higher than the
      step shader does. */
  lemma DrawDecodeIsShifted(hi: real, lo: real)
    ensures DrawDecode(hi, lo) == Decode(hi, lo) + 0.5
  {
  }

  /** The step shader's `encode`: the value shifted by 0.5 and scaled to
      [0, 256) is split into its whole part and the whole part of 256
      times its fraction, each scaled back by 1/256. */
  function Encode(f: real): Vec2
  {
    var g := (f + 0.5) * 256.0;
    var x := g.Floor;
    var y := ((g - x as real) * 256.0).Floor;
    Vec2(x as real * ByteStep, y as real * ByteStep)
  }

  /** `v` is a whole number of byte steps in [0, 1). */
  predicate IsByteValue(v: real)
  {
    0.0 <= v < 1.0 && (v * 256.0).Floor as real == v * 256.0
  }

  lemma ByteValueOf(k: int)
    requires 0 <= k < 256
    ensures IsByteValue(k as real * ByteStep)
  {
    assert (k as real * ByteStep) * 256.0 == k as real;
  }

  /** For a value in the encodable range [-0.5, 0.5), both channels of
      its encoding are whole byte steps in [0, 1). */
  lemma EncodeChannels(f: real)
    requires -0.5 <= f < 0.5
    ensures IsByteValue(Encode(f).x) && IsByteValue(Encode(f).y)
  {
    var g := (f + 0.5) * 256.0;
    assert 0.0 <= g < 256.0;
    var x := g.Floor;
    var frac := g - x as real;
    assert 0.0 <= frac < 1.0;
    var y := (frac * 256.0).Floor;
    assert 0.0 <= frac * 256.0 < 256.0;
    assert Encode(f) == Vec2(x as real * ByteStep, y as real * ByteStep);
    ByteValueOf(x);
    ByteValueOf(y);
  }

  /** The round trip loses less than one part in 65536 and never rounds
      up: f - 1/65536 < decode(encode(f)) <= f. */
  lemma DecodeEncode(f: real)
    ensures f - ByteStep * ByteStep < Decode(Encode(f).x, Encode(f).y) <= f
  {
    var g := (f + 0.5) * 256.0;
    var x := g.Floor;
    var frac := g - x as real;
    var y := (frac * 256.0).Floor;
    assert 0.0 <= frac < 1.0;
    assert y as real <= frac * 256.0 < y as real + 1.0;
    assert Decode(Encode(f).x, Encode(f).y) == (x as real + y as real * ByteStep) * ByteStep - 0.5;
    assert f == (x as real + frac) * ByteStep - 0.5;
  }

  /** `decodeChannel`: red and green hold x, blue and alpha hold y. */
  function DecodeChannel(ch: Channel): Vec2
  {
    Vec2(Decode(ch.r, ch.g), Decode(ch.b, ch.a))
  }

  /** `encodeChannel`. */
  function EncodeChannel(v: Vec2): Channel
  {
    var ex, ey := Encode(v.x), Encode(v.y);
    Channel(ex.x, ex.y, ey.x, ey.y)
  }

  /** Both components survive a channel round trip to within 1/65536,
      never rounded up. */
  lemma DecodeEncodeChannel(v: Vec2)
    ensures var d := DecodeChannel(EncodeChannel(v));
            v.x - ByteStep * ByteStep < d.x <= v.x && v.y - ByteStep * ByteStep < d.y <= v.y
  {
    DecodeEncode(v.x);
    DecodeEncode(v.y);
  }

  /** A texel after the step shader wrote `ch` to it: each channel in
      8 bits. */
  function StoredChannel(ch: Channel): Channel
  {
    Channel(Stored(ch.r), Stored(ch.g), Stored(ch.b), Stored(ch.a))
  }

  /** A channel of `encode` (k / 256) is stored as k / 255 up to 128 and
      as (k - 1) / 255 above. */
  lemma StoredByteStep(k: int)
    requires 0 <= k < 256
    ensures Stored(k as real * ByteStep) == (if k <= 128 then k else k - 1) as real / 255.0
  {
    var v := k as real * ByteStep;
    assert 0.0 <= v <= 1.0;
    var m := 255.0 * v + 0.5;
    assert m == k as real + (128 - k) as real / 256.0;
    var r := if k <= 128 then k else k - 1;
    assert r as real <= m < r as real + 1.0;
    assert m.Floor == r;
    assert Level(v) == r;
  }

  /** The value the step shader reads back, one step later, from the two
      channels it wrote for `f` through `encode`. */
  function Kept(f: real): real
  {
    var e := Encode(f);
    Decode(Stored(e.x), Stored(e.y))
  }

  /** The bound on what a stored value in the encodable range loses or
      gains. */
  const KeptError: real := 0.002

  /** A value in [-0.5, 0.5) comes back within 1/500 (about half a byte
      step of the high channel), in either direction; a value below -0.5
      comes back saturated in [-0.5, -0.5 + 1/256), and one at 0.5 or
      above in [0.5, 0.5 + 1/256). */
  lemma KeptBounds(f: real)
    ensures -0.5 <= f < 0.5 ==> f - KeptError < Kept(f) < f + KeptError
    ensures f < -0.5 ==> -0.5 <= Kept(f) < -0.5 + ByteStep
    ensures f >= 0.5 ==> 0.5 <= Kept(f) < 0.5 + ByteStep
  {
    var g := (f + 0.5) * 256.0;
    var a := g.Floor;
    var frac := g - a as real;
    assert 0.0 <= frac < 1.0;
    var b := (frac * 256.0).Floor;
    assert 0.0 <= frac * 256.0 < 256.0;
    assert 0 <= b < 256;
    assert Encode(f) == Vec2(a as real * ByteStep, b as real * ByteStep);
    StoredByteStep(b);
    var lo := Stored(b as real * ByteStep);
    assert 0.0 <= lo <= 254.0 / 255.0;
    if a < 0 {
      assert Clamp01(a as real * ByteStep) == 0.0;
      assert Stored(a as real * ByteStep) == 0.0;
    } else if a >= 256 {
      assert Clamp01(a as real * ByteStep) == 1.0;
      assert Stored(a as real * ByteStep) == 1.0;
    } else {
      StoredByteStep(a);
      assert f + 0.5 == (a as real + frac) * ByteStep;
      assert b as real <= frac * 256.0 < b as real + 1.0;
    }
  }

  /** A value written back unchanged does not stay put: 0 comes back as
      1/510, and 1/510 as 1/255, so a particle at rest drifts upwards. */
  lemma KeptDrifts()
    ensures Kept(0.0) == 1.0 / 510.0
    ensures Kept(1.0 / 510.0) == 1.0 / 255.0
  {
    assert Encode(0.0) == Vec2(128.0 * ByteStep, 0.0);
    StoredByteStep(128);
    StoredByteStep(0);
    var g := (1.0 / 510.0 + 0.5) * 256.0;
    assert g == 128.0 + 128.0 / 255.0;
    assert g.Floor == 128;
    assert (128.0 / 255.0 * 256.0).Floor == 128;
    assert Encode(1.0 / 510.0) == Vec2(128.0 * ByteStep, 128.0 * ByteStep);
  }

  /** `isPosition`: the fragment's column is even (GLSL `mod` by 2 of a
      floored coordinate). */
  predicate IsPosition(fragX: real)
  {
    fragX.Floor % 2 == 0
  }

  /** The distance covered at velocity `v` in `dt` seconds. */
  function Scaled(v: real, dt: real): real
  {
    v * dt
  }

  /** A texture as TexSize rows of TexSize texels, row-major. */
  type Texture = t: seq<Channel> | |t| == TexSize * TexSize witness seq(TexSize * TexSize, _ => Channel(0.0, 0.0, 0.0, 0.0))

  function Texel(t: Texture, x: int, y: int): Channel
    requires 0 <= x < TexSize && 0 <= y < TexSize
  {
    t[y * TexSize + x]
  }

  /** The step shader on the pixel at column `x`, row `y`: a position
      (even column) moves by the velocity stored one pixel to its right
      times dt; a velocity (odd column) gains (0, -256) times dt. */
  function StepTexel(t: Texture, x: int, y: int, dt: real): Channel
    requires 0 <= x < TexSize && 0 <= y < TexSize
  {
    if IsPosition(x as real + 0.5) then
      var pos := DecodeChannel(Texel(t, x, y));
      var vel := DecodeChannel(Texel(t, x + 1, y));
      EncodeChannel(Vec2(pos.x + Scaled(vel.x, dt), pos.y + Scaled(vel.y, dt)))
    else
      var vel := DecodeChannel(Texel(t, x, y));
      EncodeChannel(Vec2(vel.x + Scaled(0.0, dt), vel.y + Scaled(-256.0, dt)))
  }

  /** One run of the step shader over the whole texture, rendered into the
      other texture of the pair. */
  function StepTexture(t: Texture, dt: real): (r: Texture)
  {
    seq(TexSize * TexSize, i requires 0 <= i < TexSize * TexSize => StoredChannel(StepTexel(t, i % TexSize, i / TexSize, dt)))
  }

  /** Pixel (x, y) of a stepped texture holds the step shader's output for
      it, stored in 8 bits. */
  lemma StepTexelAt(t: Texture, x: int, y: int, dt: real)
    requires 0 <= x < TexSize && 0 <= y < TexSize
    ensures Texel(StepTexture(t, dt), x, y) == StoredChannel(StepTexel(t, x, y, dt))
  {
    var i := y * TexSize + x;
    assert i % TexSize == x && i / TexSize == y;
  }

  /** A pixel's column parity decides its role: an even column is a
      position, an odd one a velocity. */
  lemma PositionColumns(x: int)
    requires 0 <= x
    ensures IsPosition(x as real + 0.5) <==> x % 2 == 0
  {
    assert (x as real + 0.5).Floor == x;
  }

  /** After a step, a position pixel reads back as its position moved by
      its velocity times dt, as far as the store keeps it (`Kept`); a
      position in range moves to within 1/500 of there. */
  lemma StepMovesPositions(t: Texture, x: int, y: int, dt: real)
    requires 0 <= x < TexSize && 0 <= y < TexSize && x % 2 == 0
    ensures var pos, vel := DecodeChannel(Texel(t, x, y)), DecodeChannel(Texel(t, x + 1, y));
            var n := DecodeChannel(Texel(StepTexture(t, dt), x, y));
            n == Vec2(Kept(pos.x + Scaled(vel.x, dt)), Kept(pos.y + Scaled(vel.y, dt))) &&
            (-0.5 <= pos.x + Scaled(vel.x, dt) < 0.5 ==>
               pos.x + Scaled(vel.x, dt) - KeptError < n.x < pos.x + Scaled(vel.x, dt) + KeptError) &&
            (-0.5 <= pos.y + Scaled(vel.y, dt) < 0.5 ==>
               pos.y + Scaled(vel.y, dt) - KeptError < n.y < pos.y + Scaled(vel.y, dt) + KeptError)
  {
    PositionColumns(x);
    var pos, vel := DecodeChannel(Texel(t, x, y)), DecodeChannel(Texel(t, x + 1, y));
    var v := Vec2(pos.x + Scaled(vel.x, dt), pos.y + Scaled(vel.y, dt));
    StepTexelAt(t, x, y, dt);
    assert StepTexel(t, x, y, dt) == EncodeChannel(v);
    KeptBounds(v.x);
    KeptBounds(v.y);
  }

  /** After a step, a velocity pixel reads back as its x velocity and its
      y velocity less 256 times dt, as far as the store keeps them; a y
      velocity pulled below -0.5 sticks within 1/256 above -0.5. */
  lemma StepPullsVelocities(t: Texture, x: int, y: int, dt: real)
    requires 0 <= x < TexSize && 0 <= y < TexSize && x % 2 == 1
    ensures var vel := DecodeChannel(Texel(t, x, y));
            var n := DecodeChannel(Texel(StepTexture(t, dt), x, y));
            n == Vec2(Kept(vel.x), Kept(vel.y - 256.0 * dt)) &&
            (vel.y - 256.0 * dt < -0.5 ==> -0.5 <= n.y < -0.5 + ByteStep) &&
            (-0.5 <= vel.y - 256.0 * dt < 0.5 ==>
               vel.y - 256.0 * dt - KeptError < n.y < vel.y - 256.0 * dt + KeptError)
  {
    PositionColumns(x);
    var vel := DecodeChannel(Texel(t, x, y));
    var v := Vec2(vel.x + Scaled(0.0, dt), vel.y + Scaled(-256.0, dt));
    StepTexelAt(t, x, y, dt);
    assert StepTexel(t, x, y, dt) == EncodeChannel(v);
    assert v.y == vel.y - 256.0 * dt && v.x == vel.x;
    KeptBounds(v.y);
  }

  /** The value the position-buffer loop leaves at index `j`: the pairs
      (x, y) for y in [0, 256), x in [0, 128), in that order. */
  function PosValue(j: nat): real
  {
    var k := j / 2;
    if j % 2 == 0 then (k % 128) as real else (k / 128) as real
  }

  /** Iteration (x, y) of the loop writes x then y at 256 y + 2 x. */
  lemma PosValueAt(x: nat, y: nat)
    requires x < 128
    ensures PosValue(256 * y + 2 * x) == x as real && PosValue(256 * y + 2 * x + 1) == y as real
  {
    assert (256 * y + 2 * x) / 2 == 128 * y + x;
    assert (256 * y + 2 * x + 1) / 2 == 128 * y + x;
  }

  /** The position-buffer loop of `init`: 65536 writes attempted into a
      buffer of 32768, those past the end dropped as a typed array does. */
  method PositionBuffer() returns (positions: array<real>)
    ensures fresh(positions) && positions.Length == PosBufferLength
    ensures forall j :: 0 <= j < positions.Length ==> positions[j] == PosValue(j)
  {
    positions := new real[PosBufferLength](_ => 0.0);
    var i := 0;
    var y := 0;
    while y < 256
      invariant 0 <= y <= 256 && i == 256 * y
      invariant forall j :: 0 <= j < i && j < positions.Length ==> positions[j] == PosValue(j)
    {
      var x := 0;
      while x < 128
        invariant 0 <= x <= 128 && i == 256 * y + 2 * x
        invariant forall j :: 0 <= j < i && j < positions.Length ==> positions[j] == PosValue(j)
      {
        PosValueAt(x, y);
        if i < positions.Length {
          positions[i] := x as real;
        }
        i := i + 1;
        if i < positions.Length {
          positions[i] := y as real;
        }
        i := i + 1;
        x := x + 1;
      }
      y := y + 1;
    }
  }

  /** The buffer holds exactly the points the draw call uses: pair `k`
      is column k mod 128 of row k div 128, for every drawn point and
      only those. */
  lemma BufferCoversDrawnPoints(k: nat)
    requires k < DrawnPoints
    ensures 2 * k + 1 < PosBufferLength
    ensures PosValue(2 * k) == (k % 128) as real && PosValue(2 * k + 1) == (k / 128) as real
    ensures k / 128 < 128
  {
  }

  /** `Math.floor(Math.random() * 256)` for the draw `u`. */
  function RandomByte(u: real): int
  {
    (u * 256.0).Floor
  }

  /** `getRandomTexture`: w * h * 4 bytes, each the floor of 256 times a
      random draw in [0, 1). */
  method RandomTexture(w: nat, h: nat, draws: seq<real>) returns (pixels: array<int>)
    requires |draws| == w * h * 4
    requires forall k :: 0 <= k < |draws| ==> 0.0 <= draws[k] < 1.0
    ensures fresh(pixels) && pixels.Length == w * h * 4
    ensures forall k :: 0 <= k < pixels.Length ==> pixels[k] == RandomByte(draws[k])
    ensures forall k :: 0 <= k < pixels.Length ==> 0 <= pixels[k] <= 255
  {
    pixels := new int[w * h * 4];
    var i := 0;
    while i < pixels.Length
      invariant 0 <= i <= pixels.Length
      invariant forall k :: 0 <= k < i ==> pixels[k] == RandomByte(draws[k])
      invariant forall k :: 0 <= k < i ==> 0 <= pixels[k] <= 255
    {
      pixels[i] := RandomByte(draws[i]);
      i := i + 1;
    }
  }

  /** The texture a byte array makes: each byte over 255 (`UNSIGNED_BYTE`
      texels read as [0, 1]). */
  function TextureOf(bytes: seq<int>): Texture
    requires |bytes| == TexSize * TexSize * 4
  {
    seq(TexSize * TexSize, i requires 0 <= i < TexSize * TexSize =>
      Channel(bytes[4 * i] as real / 255.0, bytes[4 * i + 1] as real / 255.0,
              bytes[4 * i + 2] as real / 255.0, bytes[4 * i + 3] as real / 255.0))
  }

  /** The texture pair and the position buffer; the GL objects themselves
      are not modelled. */
  class Pool {
    var front: Texture
    var back: Texture

    constructor ()
      ensures front == back
    {
      front := seq(TexSize * TexSize, _ => Channel(0.0, 0.0, 0.0, 0.0));
      back := front;
    }

    /** `init`: the front texture from random bytes, the back one empty
        (created without data), and the position buffer. */
    method Init(draws: seq<real>) returns (positions: array<real>)
      requires |draws| == TexSize * TexSize * 4
      requires forall k :: 0 <= k < |draws| ==> 0.0 <= draws[k] < 1.0
      modifies this
      ensures fresh(positions) && positions.Length == PosBufferLength
      ensures forall j :: 0 <= j < positions.Length ==> positions[j] == PosValue(j)
      ensures forall i :: 0 <= i < TexSize * TexSize ==>
                front[i] == Channel(RandomByte(draws[4 * i]) as real / 255.0, RandomByte(draws[4 * i + 1]) as real / 255.0,
                                    RandomByte(draws[4 * i + 2]) as real / 255.0, RandomByte(draws[4 * i + 3]) as real / 255.0)
      ensures back == seq(TexSize * TexSize, _ => Channel(0.0, 0.0, 0.0, 0.0))
    {
      var pixels := RandomTexture(TexSize, TexSize, draws);
      front := TextureOf(pixels[..]);
      back := seq(TexSize * TexSize, _ => Channel(0.0, 0.0, 0.0, 0.0));
      positions := PositionBuffer();
    }

    /** `update`: the step shader renders the front texture into the back
        one, stored in 8 bits, then the two are swapped. */
    method Update(dt: real)
      modifies this
      ensures front == StepTexture(old(front), dt) && back == old(front)
    {
      back := StepTexture(front, dt);
      var temp := back;
      back := front;
      front := temp;
    }
  }
}
