// The chicken-cave graphics system as far as it decides anything: the
// one-time WebGL set-up, the lazily filled image cache (a source is
// absent, then loading, then loaded) and the camera-relative culling test
// that decides whether a tile is drawn.

module ChickenGraphics {

  datatype Option<T> = None | Some(value: T)

  /** A WebGL texture handle. */
  type Texture = nat

  /** `drawTile`'s visibility test on a camera-relative rectangle: an empty
      rectangle, or one wholly right of, below, left of or above the
      canvas, is not drawn. */
  predicate Visible(x: real, y: real, w: real, h: real, canvasW: real, canvasH: real)
  {
    !(w == 0.0 || h == 0.0 || x > canvasW || y > canvasH || x + w < 0.0 || y + h < 0.0)
  }

  /** The closed intervals [a1, a2] and [b1, b2] meet. */
  predicate Meet(a1: real, a2: real, b1: real, b2: real)
  {
    a1 <= b2 && b1 <= a2
  }

  /** A rectangle of positive size is drawn exactly when it meets the
      canvas along both axes. */
  lemma VisibleIffMeetsCanvas(x: real, y: real, w: real, h: real, canvasW: real, canvasH: real)
    requires w > 0.0 && h > 0.0
    ensures Visible(x, y, w, h, canvasW, canvasH) <==>
            Meet(x, x + w, 0.0, canvasW) && Meet(y, y + h, 0.0, canvasH)
  {
  }

  class Graphics {
    /** `_gl != null`. */
    var ready: bool
    var cameraX: real
    var cameraY: real
    const canvasW: real
    const canvasH: real
    /** `imageMap`: a source maps to None while it loads, then to its
        texture. */
    var imageMap: map<string, Option<Texture>>
    /** The image loads started, in order. */
    var loads: seq<string>

    /** Every cached source has been loaded exactly once, and every load
        has a cache entry. */
    ghost predicate Valid()
      reads this
    {
      (forall s :: s in imageMap <==> s in loads) &&
      (forall i, j :: 0 <= i < j < |loads| ==> loads[i] != loads[j])
    }

    constructor (canvasW: real, canvasH: real)
      ensures Valid() && !ready && cameraX == 0.0 && cameraY == 0.0
      ensures imageMap == map[] && loads == []
      ensures this.canvasW == canvasW && this.canvasH == canvasH
    {
      this.canvasW := canvasW;
      this.canvasH := canvasH;
      ready := false;
      cameraX := 0.0;
      cameraY := 0.0;
      imageMap := map[];
      loads := [];
    }

    /** `init`: nothing when already set up; otherwise the camera goes to
        the origin and the context is taken, failing (`thrown`) when the
        browser has no WebGL. */
    method Init(webgl: bool) returns (thrown: bool)
      modifies this
      ensures old(ready) ==> !thrown && ready && cameraX == old(cameraX) && cameraY == old(cameraY)
      ensures !old(ready) ==> cameraX == 0.0 && cameraY == 0.0 && thrown == !webgl && ready == webgl
      ensures imageMap == old(imageMap) && loads == old(loads)
    {
      thrown := false;
      if ready {
        return;
      }
      cameraX := 0.0;
      cameraY := 0.0;
      if !webgl {
        thrown := true;
        return;
      }
      ready := true;
    }

    /** `_loadImage`: the load starts and the source is marked as
        loading. */
    method LoadImage(src: string)
      requires Valid() && src !in imageMap
      modifies this
      ensures Valid()
      ensures imageMap == old(imageMap)[src := None] && loads == old(loads) + [src]
      ensures ready == old(ready) && cameraX == old(cameraX) && cameraY == old(cameraY)
    {
      imageMap := imageMap[src := None];
      loads := loads + [src];
    }

    /** The image's `onload`: the loading mark becomes the texture. */
    method OnLoad(src: string, texture: Texture)
      requires Valid() && src in imageMap
      modifies this
      ensures Valid()
      ensures imageMap == old(imageMap)[src := Some(texture)] && loads == old(loads)
      ensures ready == old(ready) && cameraX == old(cameraX) && cameraY == old(cameraY)
    {
      imageMap := imageMap[src := Some(texture)];
    }

    /** The image's `onerror` only logs: the source stays marked as
        loading for good. */
    method OnError(src: string)
      requires Valid()
      ensures Valid()
      ensures imageMap == old(imageMap) && loads == old(loads)
    {
    }

    /** `drawTile`: the rectangle is moved by the camera and drawn when
        visible. */
    method DrawTile(texture: Texture, x: real, y: real, w: real, h: real) returns (drawn: bool)
      requires ready
      ensures drawn <==> Visible(x - cameraX, y - cameraY, w, h, canvasW, canvasH)
    {
      var cx := x - cameraX;
      var cy := y - cameraY;
      if w == 0.0 || h == 0.0 || cx > canvasW || cy > canvasH || cx + w < 0.0 || cy + h < 0.0 {
        return false;
      }
      return true;
    }

    /** `drawTileLazy`: a loaded source is drawn; a loading one is not and
        starts nothing; an unknown one starts its load and is not drawn. */
    method DrawTileLazy(src: string, x: real, y: real, w: real, h: real) returns (drawn: bool)
      requires Valid() && ready
      modifies this
      ensures Valid() && ready == old(ready) && cameraX == old(cameraX) && cameraY == old(cameraY)
      ensures old(src !in imageMap) ==>
                !drawn && imageMap == old(imageMap)[src := None] && loads == old(loads) + [src]
      ensures old(src in imageMap) ==> imageMap == old(imageMap) && loads == old(loads)
      ensures old(src in imageMap && imageMap[src].None?) ==> !drawn
      ensures old(src in imageMap && imageMap[src].Some?) ==>
                (drawn <==> Visible(x - cameraX, y - cameraY, w, h, canvasW, canvasH))
    {
      if src in imageMap {
        var texture := imageMap[src];
        if texture.Some? {
          drawn := DrawTile(texture.value, x, y, w, h);
          return;
        }
      } else {
        LoadImage(src);
      }
      drawn := false;
    }
  }

  /** Moving the camera and a tile by the same amount leaves the tile's
      visibility unchanged. */
  lemma CullingFollowsCamera(x: real, y: real, w: real, h: real, camX: real, camY: real,
                             dx: real, dy: real, canvasW: real, canvasH: real)
    ensures Visible((x + dx) - (camX + dx), (y + dy) - (camY + dy), w, h, canvasW, canvasH) <==>
            Visible(x - camX, y - camY, w, h, canvasW, canvasH)
  {
  }
}
