// The stand-alone game-of-life page (the `GOL` constructor and its
// prototype): two textures named front and back that `step` renders one
// into the other and then swaps, a random fill of the front texture, and a
// repeating timer that is started, stopped and toggled.

module DistGol {

  datatype Option<T> = None | Some(value: T)

  /** A texture: its size and its RGBA bytes, four per pixel. */
  datatype Texture = Texture(w: nat, h: nat, data: seq<int>)

  /** `this.textures`. */
  datatype Textures = Textures(front: Texture, back: Texture)

  /** The side `texture` uses: a zero side falls back to 64. */
  function Side(n: nat): (s: nat)
    ensures s > 0
    ensures n != 0 ==> s == n
    ensures n == 0 ==> s == 64
  {
    if n == 0 then 64 else n
  }

  /** `texture(w, h)`: a blank (all-zero) texture of the given size, 64 on
      a side that is zero. */
  function NewTexture(w: nat, h: nat): (t: Texture)
    ensures t.w == Side(w) && t.h == Side(h) && |t.data| == t.w * t.h * 4
    ensures forall i :: 0 <= i < |t.data| ==> t.data[i] == 0
  {
    Texture(Side(w), Side(h), seq(Side(w) * Side(h) * 4, _ => 0))
  }

  /** `swap`. */
  function Swapped(t: Textures): (r: Textures)
    ensures r.front == t.back && r.back == t.front
  {
    Textures(t.back, t.front)
  }

  /** Swapping twice gives the textures back. */
  lemma SwappedTwice(t: Textures)
    ensures Swapped(Swapped(t)) == t
  {
  }

  /** `setRandom`'s chance: null means one half. */
  function Chance(p: Option<real>): real
  {
    if p.None? then 0.5 else p.value
  }

  /** The byte all four channels of a pixel take for draw `u`. */
  function OnByte(u: real, p: real): int
  {
    if u < p then 255 else 0
  }

  /** `setRandom`'s loop: pixel i's four bytes all equal the i-th draw's
      byte. */
  method RandomBytes(w: nat, h: nat, p: Option<real>, draws: seq<real>) returns (data: array<int>)
    requires |draws| == w * h
    ensures fresh(data) && data.Length == w * h * 4
    ensures forall i :: 0 <= i < w * h ==>
              data[4 * i] == OnByte(draws[i], Chance(p)) && data[4 * i + 1] == data[4 * i] &&
              data[4 * i + 2] == data[4 * i] && data[4 * i + 3] == data[4 * i]
  {
    var q := if p.None? then 0.5 else p.value;
    var len := w * h * 4;
    data := new int[len];
    var i := 0;
    while i < len
      invariant i % 4 == 0 && 0 <= i <= len
      invariant forall k :: 0 <= k < i / 4 ==>
                  data[4 * k] == OnByte(draws[k], Chance(p)) && data[4 * k + 1] == data[4 * k] &&
                  data[4 * k + 2] == data[4 * k] && data[4 * k + 3] == data[4 * k]
    {
      var on := if draws[i / 4] < q then 255 else 0;
      data[i] := on;
      data[i + 1] := on;
      data[i + 2] := on;
      data[i + 3] := on;
      i := i + 4;
    }
  }

  /** Every byte `setRandom` writes is 0 or 255, and 255 exactly when its
      pixel's draw is below the chance. */
  lemma OnBytes(u: real, p: Option<real>)
    ensures OnByte(u, Chance(p)) == 0 || OnByte(u, Chance(p)) == 255
    ensures OnByte(u, Chance(p)) == 255 <==> u < (if p.None? then 0.5 else p.value)
  {
  }

  /** `texSubImage2D` of a w by h region at the origin: an empty region
      writes nothing; otherwise the region's bytes replace the texture's. */
  function SubImage(t: Texture, w: nat, h: nat, bytes: seq<int>): Texture
  {
    if w == 0 || h == 0 then t else t.(data := bytes)
  }

  class Gol {
    /** The constructor got past its checks. */
    var ready: bool
    /** `size`: the drawing buffer's width and height. */
    var width: nat
    var height: nat
    var textures: Textures
    /** `timer`: the interval id, None for null. */
    var timer: Option<nat>

    ghost predicate Valid()
      reads this
    {
      ready ==> textures.front.w == Side(width) && textures.front.h == Side(height) &&
                textures.back.w == Side(width) && textures.back.h == Side(height)
    }

    /** `GOL(canvas)`: without a canvas or WebGL it returns at once with
        nothing set; otherwise the size is the drawing buffer's, both
        textures start blank, the timer is null, and the front is filled at
        random with chance one half. */
    constructor (canvas: bool, buffer: Option<(nat, nat)>, draws: seq<real>)
      requires buffer.Some? ==> |draws| == buffer.value.0 * buffer.value.1
      ensures Valid()
      ensures ready <==> canvas && buffer.Some?
      ensures ready ==> width == buffer.value.0 && height == buffer.value.1 && timer.None?
      ensures ready ==> textures.back == NewTexture(width, height)
      ensures ready && width > 0 && height > 0 ==>
                |textures.front.data| == width * height * 4 &&
                forall i :: 0 <= i < width * height ==>
                  textures.front.data[4 * i] == OnByte(draws[i], 0.5) &&
                  textures.front.data[4 * i + 1] == textures.front.data[4 * i] &&
                  textures.front.data[4 * i + 2] == textures.front.data[4 * i] &&
                  textures.front.data[4 * i + 3] == textures.front.data[4 * i]
    {
      ready := false;
      width := 0;
      height := 0;
      textures := Textures(NewTexture(0, 0), NewTexture(0, 0));
      timer := None;
      new;
      if !canvas || buffer.None? {
        return;
      }
      ready := true;
      width := buffer.value.0;
      height := buffer.value.1;
      textures := Textures(NewTexture(width, height), NewTexture(width, height));
      SetRandom(Some(0.5), draws);
    }

    /** `setRandom(p)`: the front texture's size-wide region takes the
        random bytes; nothing else changes. */
    method SetRandom(p: Option<real>, draws: seq<real>)
      requires Valid() && |draws| == width * height
      modifies this
      ensures Valid()
      ensures ready == old(ready) && width == old(width) && height == old(height) && timer == old(timer)
      ensures textures.back == old(textures.back)
      ensures textures.front.w == old(textures.front.w) && textures.front.h == old(textures.front.h)
      ensures width == 0 || height == 0 ==> textures.front == old(textures.front)
      ensures width > 0 && height > 0 ==>
                |textures.front.data| == width * height * 4 &&
                forall i :: 0 <= i < width * height ==>
                  textures.front.data[4 * i] == OnByte(draws[i], Chance(p)) &&
                  textures.front.data[4 * i + 1] == textures.front.data[4 * i] &&
                  textures.front.data[4 * i + 2] == textures.front.data[4 * i] &&
                  textures.front.data[4 * i + 3] == textures.front.data[4 * i]
    {
      var data := RandomBytes(width, height, p, draws);
      textures := textures.(front := SubImage(textures.front, width, height, data[..]));
    }

    /** `swap`. */
    method Swap()
      modifies this
      ensures textures == Swapped(old(textures))
      ensures ready == old(ready) && width == old(width) && height == old(height) && timer == old(timer)
    {
      var tmp := textures.front;
      textures := textures.(front := textures.back);
      textures := textures.(back := tmp);
    }

    /** `step`: the step program (`gol.frag`, passed in as `shader`) renders
        the front texture into the back one, then the two swap, so the front
        holds the new state and the back the old one. */
    method Step(shader: seq<int> -> seq<int>)
      requires Valid()
      modifies this
      ensures Valid()
      ensures textures.front == old(textures.back).(data := shader(old(textures.front.data)))
      ensures textures.back == old(textures.front)
      ensures ready == old(ready) && width == old(width) && height == old(height) && timer == old(timer)
    {
      var source := textures.front;
      var target := textures.back;
      textures := textures.(back := target.(data := shader(source.data)));
      Swap();
    }

    /** `start`: a new interval (id `id`) only when there is none. */
    method Start(id: nat)
      modifies this
      ensures old(timer).None? ==> timer == Some(id)
      ensures old(timer).Some? ==> timer == old(timer)
      ensures ready == old(ready) && width == old(width) && height == old(height) && textures == old(textures)
    {
      if timer.None? {
        timer := Some(id);
      }
    }

    /** `stop`: the interval is cleared and the timer nulled. */
    method Stop()
      modifies this
      ensures timer.None?
      ensures ready == old(ready) && width == old(width) && height == old(height) && textures == old(textures)
    {
      timer := None;
    }

    /** `toggle`: starts a stopped animation and stops a running one. */
    method Toggle(id: nat)
      modifies this
      ensures old(timer).None? ==> timer == Some(id)
      ensures old(timer).Some? ==> timer.None?
      ensures ready == old(ready) && width == old(width) && height == old(height) && textures == old(textures)
    {
      if timer.None? {
        Start(id);
      } else {
        Stop();
      }
    }
  }
}
