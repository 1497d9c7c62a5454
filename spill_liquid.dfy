// Will Spill's particle fluid (`Liquid`): the WebGL fluid's integrator
// with fixed constants, a mouse force (`addForceAt`), spawning in the top
// middle of the canvas, a relaxation that measures each neighbour's
// direction afresh, and a corner rule after the clamp that slides particles
// near the bottom corners diagonally.

module WillSpill {

  import opened FluidCore

  /** The constants `update` declares. */
  const InteractionRadius: real := 50.0
  const Stiffness: real := 10000.0
  const StiffnessNear: real := 10000.0
  const RestDensity: real := 2.0
  const Gravity: real := 1000.0
  const RandomMotion: real := 20.0

  /** How far `addForceAt` reaches. */
  const ForceRadius: real := 100.0

  /** The corner rule acts on particles above row 256 whose taxicab
      distance to a bottom corner is below 730. */
  const CornerRows: real := 256.0
  const CornerReach: real := 730.0

  /** `((Math.random() * 0.5) + 0.25) * width`. */
  function SpawnX(u: real, w: real): real
  {
    ((u * 0.5) + 0.25) * w
  }

  /** `(Math.random() * 0.5) * height`. */
  function SpawnY(u: real, h: real): real
  {
    (u * 0.5) * h
  }

  /** A spawned particle starts in the middle half of the width and the
      top half of the height. */
  lemma SpawnRange(u: real, w: real, h: real)
    requires 0.0 <= u < 1.0 && 0.0 <= w && 0.0 <= h
    ensures 0.25 * w <= SpawnX(u, w) <= 0.75 * w
    ensures 0.0 < w ==> SpawnX(u, w) < 0.75 * w
    ensures 0.0 <= SpawnY(u, h) <= 0.5 * h
    ensures 0.0 < h ==> SpawnY(u, h) < 0.5 * h
  {
    ScaledRange(u, 0.5 * w);
    ScaledRange(u, 0.5 * h);
    assert SpawnX(u, w) == Scaled(u, 0.5 * w) + 0.25 * w;
    assert SpawnY(u, h) == Scaled(u, 0.5 * h);
  }

  // ---------------------------------------------------------------------
  // addForceAt

  /** A particle offset by (xd, yd) from the point where a force is applied
      feels it: its squared distance is within 100 squared and its gradient
      is not 0. */
  predicate Reaches(xd: real, yd: real, sqrt: real -> real)
  {
    var sq := xd * xd + yd * yd;
    sq <= ForceRadius * ForceRadius && Gradient(sqrt(sq), ForceRadius) != 0.0
  }

  /** What such a particle gains: the unit vector away from the point,
      scaled by the distance and the force. */
  function Shove(xd: real, yd: real, force: real, sqrt: real -> real): (real, real)
  {
    Along(xd, yd, sqrt(xd * xd + yd * yd) * force, sqrt)
  }

  /** The velocity (vx, vy) of the particle at (x, y) after `addForceAt(xx,
      yy, force)`. A particle exactly at the point, where the source divides
      0 by 0, keeps its velocity here. */
  function Pushed(vx: real, vy: real, x: real, y: real, xx: real, yy: real, force: real,
                  sqrt: real -> real): (real, real)
  {
    if Reaches(x - xx, y - yy, sqrt) then
      var f := Shove(x - xx, y - yy, force, sqrt);
      (vx + f.0, vy + f.1)
    else (vx, vy)
  }

  /** Particles beyond the force's reach, or exactly at its edge where the
      gradient is 0, keep their velocity. */
  lemma PushedOutOfReach(vx: real, vy: real, x: real, y: real, xx: real, yy: real, force: real,
                         sqrt: real -> real)
    requires IsSqrt(sqrt)
    requires (x - xx) * (x - xx) + (y - yy) * (y - yy) >= ForceRadius * ForceRadius
    ensures Pushed(vx, vy, x, y, xx, yy, force, sqrt) == (vx, vy)
  {
    var sq := (x - xx) * (x - xx) + (y - yy) * (y - yy);
    if sq == ForceRadius * ForceRadius {
      var len := sqrt(sq);
      assert 0.0 <= len && len * len == ForceRadius * ForceRadius;
      RootOfSquare(len, ForceRadius);
      assert Gradient(len, ForceRadius) == 0.0;
    }
  }

  /** A particle within reach, other than one exactly at the point, gains
      force times its offset from the point: the unit vector is scaled back
      by the distance, not by the gradient. */
  lemma PushedScaledBack(vx: real, vy: real, x: real, y: real, xx: real, yy: real, force: real,
                         sqrt: real -> real)
    requires IsSqrt(sqrt) && Reaches(x - xx, y - yy, sqrt) && (x != xx || y != yy)
    ensures Pushed(vx, vy, x, y, xx, yy, force, sqrt).0 == vx + (x - xx) * force
    ensures Pushed(vx, vy, x, y, xx, yy, force, sqrt).1 == vy + (y - yy) * force
  {
    ShoveScalesBack(x - xx, y - yy, force, sqrt);
  }

  /** The shove on a particle other than at the point is the force times
      its offset. */
  lemma ShoveScalesBack(xd: real, yd: real, force: real, sqrt: real -> real)
    requires IsSqrt(sqrt) && (xd != 0.0 || yd != 0.0)
    ensures Shove(xd, yd, force, sqrt).0 == xd * force && Shove(xd, yd, force, sqrt).1 == yd * force
  {
    AlongScalesBack(xd, yd, force, sqrt);
  }

  /** The velocities after the first n particles felt the force. */
  function ForcedUpTo(v: seq<real>, s: seq<real>, n: nat, xx: real, yy: real, force: real,
                      sqrt: real -> real): (r: seq<real>)
    requires 2 * n <= |v| && 2 * n <= |s|
    ensures |r| == |v|
  {
    if n == 0 then v
    else
      var r := ForcedUpTo(v, s, n - 1, xx, yy, force, sqrt);
      var j := 2 * (n - 1);
      var p := Pushed(v[j], v[j + 1], s[j], s[j + 1], xx, yy, force, sqrt);
      r[j := p.0][j + 1 := p.1]
  }

  /** Particle by particle, the forced velocities are the pushed ones. */
  lemma {:induction false} ForcedUpToAt(v: seq<real>, s: seq<real>, n: nat, xx: real, yy: real, force: real,
                                        sqrt: real -> real)
    requires 2 * n <= |v| && 2 * n <= |s|
    ensures forall i :: 0 <= i < n ==>
              var p := Pushed(v[2 * i], v[2 * i + 1], s[2 * i], s[2 * i + 1], xx, yy, force, sqrt);
              ForcedUpTo(v, s, n, xx, yy, force, sqrt)[2 * i] == p.0 &&
              ForcedUpTo(v, s, n, xx, yy, force, sqrt)[2 * i + 1] == p.1
  {
    if n > 0 {
      ForcedUpToAt(v, s, n - 1, xx, yy, force, sqrt);
    }
  }

  /** The particles not yet reached keep their velocities. */
  lemma {:induction false} ForcedUpToKeeps(v: seq<real>, s: seq<real>, n: nat, xx: real, yy: real,
                                           force: real, sqrt: real -> real, j: nat)
    requires 2 * n <= j < |v| && 2 * n <= |s|
    ensures ForcedUpTo(v, s, n, xx, yy, force, sqrt)[j] == v[j]
  {
    if n > 0 {
      ForcedUpToKeeps(v, s, n - 1, xx, yy, force, sqrt, j);
    }
  }

  // ---------------------------------------------------------------------
  // The corner rule of pass 3.

  /** Pass 3 for one particle at (x, y): clamp it into the canvas, then,
      judged by where it was before the clamp, slide it one pixel up and
      right near the bottom-left corner and one pixel up and left near the
      bottom-right corner. */
  function Settle(x: real, y: real, w: real, h: real): (real, real)
  {
    var cx, cy := Clamp(x, w), Clamp(y, h);
    var left := y < CornerRows && x + (h - y) < CornerReach;
    var right := y < CornerRows && (w - x) + (h - y) < CornerReach;
    var x1, y1 := if left then cx + 1.0 else cx, if left then cy - 1.0 else cy;
    (if right then x1 - 1.0 else x1, if right then y1 - 1.0 else y1)
  }

  /** After the corner rule a particle is at most one pixel outside the
      canvas sideways and two pixels above it, never below it. */
  lemma SettleBounds(x: real, y: real, w: real, h: real)
    requires 0.0 <= w && 0.0 <= h
    ensures -1.0 <= Settle(x, y, w, h).0 <= w + 1.0
    ensures -2.0 <= Settle(x, y, w, h).1 <= h
  {
  }

  /** Rows from 256 down are only clamped. */
  lemma SettleBelowCornerRows(x: real, y: real, w: real, h: real)
    requires CornerRows <= y
    ensures Settle(x, y, w, h) == (Clamp(x, w), Clamp(y, h))
  {
  }

  /** The rule can push a particle out of the canvas: on any canvas less
      than 730 high, a particle that reached the top-left corner ends up
      above the canvas. */
  lemma SettleLeavesCanvas(w: real, h: real)
    requires 0.0 <= w && 0.0 <= h < CornerReach
    ensures Settle(0.0, 0.0, w, h).1 < 0.0
  {
  }

  /** The buffer with its first n particles settled. */
  function SettledUpTo(s: seq<real>, n: nat, w: real, h: real): (r: seq<real>)
    requires 2 * n <= |s|
    ensures |r| == |s|
  {
    if n == 0 then s
    else
      var r := SettledUpTo(s, n - 1, w, h);
      var j := 2 * (n - 1);
      var p := Settle(s[j], s[j + 1], w, h);
      r[j := p.0][j + 1 := p.1]
  }

  /** Particle by particle, the settled buffer holds the settled places. */
  lemma {:induction false} SettledUpToAt(s: seq<real>, n: nat, w: real, h: real)
    requires 2 * n <= |s|
    ensures forall i :: 0 <= i < n ==>
              SettledUpTo(s, n, w, h)[2 * i] == Settle(s[2 * i], s[2 * i + 1], w, h).0 &&
              SettledUpTo(s, n, w, h)[2 * i + 1] == Settle(s[2 * i], s[2 * i + 1], w, h).1
  {
    if n > 0 {
      SettledUpToAt(s, n - 1, w, h);
    }
  }

  /** The particles not yet settled keep their places. */
  lemma {:induction false} SettledUpToKeeps(s: seq<real>, n: nat, w: real, h: real, j: nat)
    requires 2 * n <= j < |s|
    ensures SettledUpTo(s, n, w, h)[j] == s[j]
  {
    if n > 0 {
      SettledUpToKeeps(s, n - 1, w, h, j);
    }
  }

  /** After pass 3 every x lies in [-1, w + 1] and every y in [-2, h]. */
  lemma SettledNearCanvas(s: seq<real>, n: nat, w: real, h: real)
    requires 2 * n == |s| && 0.0 <= w && 0.0 <= h
    ensures forall j :: 0 <= j < |s| ==>
              Side(j, -1.0, -2.0) <= SettledUpTo(s, n, w, h)[j] <= Side(j, w + 1.0, h)
  {
    SettledUpToAt(s, n, w, h);
    forall j | 0 <= j < |s|
      ensures Side(j, -1.0, -2.0) <= SettledUpTo(s, n, w, h)[j] <= Side(j, w + 1.0, h)
    {
      var i := j / 2;
      SettleBounds(s[2 * i], s[2 * i + 1], w, h);
      if j % 2 == 0 {
        assert j == 2 * i;
      } else {
        assert j == 2 * i + 1;
      }
    }
  }

  // ---------------------------------------------------------------------
  // The relaxation of pass 2.

  /** `((p * g) + (pNear * g * g)) * dTSqu`. */
  function Magnitude(p: real, pNear: real, gk: real, dTSqu: real): real
  {
    ((p * gk) + (pNear * gk * gk)) * dTSqu
  }

  /** The positions after particle i's corrections against the first n
      particles of l: each pushes along the unit vector from i to k as they
      stand after the earlier corrections, by the magnitude of k's recorded
      weight. */
  function Relaxed(s: seq<real>, i: nat, l: seq<nat>, gs: seq<real>, p: real, pNear: real,
                   dTSqu: real, n: nat, sqrt: real -> real): (t: seq<real>)
    requires n <= |l| && 2 * i + 1 < |s| && forall m :: 0 <= m < |l| ==> l[m] < |gs| && 2 * l[m] + 1 < |s|
    ensures |t| == |s|
  {
    if n == 0 then s
    else
      var t := Relaxed(s, i, l, gs, p, pNear, dTSqu, n - 1, sqrt);
      var k := l[n - 1];
      RelaxStep(t, i, k, Magnitude(p, pNear, gs[k], dTSqu), sqrt)
  }

  /** The relaxation of one particle against others keeps the sum of each
      axis. */
  lemma {:induction false} RelaxedKeepsSums(s: seq<real>, count: nat, i: nat, l: seq<nat>, gs: seq<real>,
                                            p: real, pNear: real, dTSqu: real, n: nat, sqrt: real -> real, c: nat)
    requires n <= |l| && |s| == 2 * count && i < count && c < 2
    requires forall m :: 0 <= m < |l| ==> l[m] < |gs| && l[m] < count && l[m] != i
    ensures AxisSum(Relaxed(s, i, l, gs, p, pNear, dTSqu, n, sqrt), count, c) == AxisSum(s, count, c)
  {
    if n > 0 {
      RelaxedKeepsSums(s, count, i, l, gs, p, pNear, dTSqu, n - 1, sqrt, c);
      var t := Relaxed(s, i, l, gs, p, pNear, dTSqu, n - 1, sqrt);
      var k := l[n - 1];
      RelaxStepKeepsSums(t, count, c, i, k, Magnitude(p, pNear, gs[k], dTSqu), sqrt);
    }
  }

  // ---------------------------------------------------------------------

  class Liquid {
    const width: nat
    const height: nat
    const count: nat

    var xy: array<real>
    var vxy: array<real>
    var xyOld: array<real>
    /** Per-particle scratch: the weight of each neighbour of the particle
        being relaxed, and the neighbours' indices. */
    var g: array<real>
    var neighbours: array<nat>

    /** The buffers the constructor allocates, each of its own. */
    predicate Valid()
      reads this
    {
      xy.Length == 2 * count && vxy.Length == 2 * count && xyOld.Length == 2 * count &&
      g.Length == count && neighbours.Length == count &&
      xy != vxy && xy != xyOld && vxy != xyOld && xy != g && vxy != g && xyOld != g
    }

    /** `new Liquid(canvasEl, opts)`: the canvas size, `opts.count`
        particles (100 by default) and zeroed buffers. */
    constructor (canvas: Canvas, countOpt: Option<nat>)
      ensures width == canvas.width && height == canvas.height && count == Or(countOpt, 100)
      ensures Valid() && fresh(xy) && fresh(vxy) && fresh(xyOld) && fresh(g) && fresh(neighbours)
      ensures forall j :: 0 <= j < 2 * count ==> xy[j] == 0.0 && vxy[j] == 0.0 && xyOld[j] == 0.0
    {
      width := canvas.width;
      height := canvas.height;
      var n := Or(countOpt, 100);
      count := n;
      xy := new real[2 * n](_ => 0.0);
      vxy := new real[2 * n](_ => 0.0);
      xyOld := new real[2 * n](_ => 0.0);
      g := new real[n](_ => 0.0);
      neighbours := new nat[n](_ => 0);
    }

    /** `init` past its WebGL setup (which throws when no context is
        available): `resetParticles`. */
    method Init(webgl: bool, draws: seq<real>) returns (ok: bool)
      requires Valid()
      requires |draws| >= 2 * count && forall j :: 0 <= j < |draws| ==> 0.0 <= draws[j] < 1.0
      modifies xy, vxy
      ensures ok == webgl
      ensures !ok ==> xy[..] == old(xy[..]) && vxy[..] == old(vxy[..])
      ensures ok ==> forall i :: 0 <= i < count ==>
                       xy[2 * i] == SpawnX(draws[2 * i], width as real) &&
                       xy[2 * i + 1] == SpawnY(draws[2 * i + 1], height as real)
    {
      if !webgl {
        return false;
      }
      ResetParticles(draws);
      return true;
    }

    /** `resetParticles`: every particle at a random place in the middle
        half of the width and the top half of the height (x from the first
        draw of its pair, y from the second), at rest. */
    method ResetParticles(draws: seq<real>)
      requires Valid()
      requires |draws| >= 2 * count && forall j :: 0 <= j < |draws| ==> 0.0 <= draws[j] < 1.0
      modifies xy, vxy
      ensures forall i :: 0 <= i < count ==>
                xy[2 * i] == SpawnX(draws[2 * i], width as real) &&
                xy[2 * i + 1] == SpawnY(draws[2 * i + 1], height as real)
      ensures forall j :: 0 <= j < 2 * count ==> vxy[j] == 0.0
      ensures forall i :: 0 <= i < count ==>
                0.25 * width as real <= xy[2 * i] <= 0.75 * width as real &&
                0.0 <= xy[2 * i + 1] <= 0.5 * height as real
    {
      for i := 0 to count
        invariant forall t :: 0 <= t < i ==>
                    xy[2 * t] == SpawnX(draws[2 * t], width as real) &&
                    xy[2 * t + 1] == SpawnY(draws[2 * t + 1], height as real)
        invariant forall j :: 0 <= j < 2 * i ==> vxy[j] == 0.0
      {
        xy[2 * i] := SpawnX(draws[2 * i], width as real);
        xy[2 * i + 1] := SpawnY(draws[2 * i + 1], height as real);
        vxy[2 * i] := 0.0;
        vxy[2 * i + 1] := 0.0;
      }
      forall i | 0 <= i < count
        ensures 0.25 * width as real <= xy[2 * i] <= 0.75 * width as real
        ensures 0.0 <= xy[2 * i + 1] <= 0.5 * height as real
      {
        SpawnRange(draws[2 * i], width as real, height as real);
        SpawnRange(draws[2 * i + 1], width as real, height as real);
      }
    }

    /** `addForceAt(xx, yy, force)`: pushes the velocity of every particle
        within reach away from the point; positions do not change. */
    method AddForceAt(xx: real, yy: real, force: real, sqrt: real -> real)
      requires Valid()
      modifies vxy
      ensures vxy[..] == ForcedUpTo(old(vxy[..]), xy[..], count, xx, yy, force, sqrt)
    {
      ghost var v := vxy[..];
      for i := 0 to count
        invariant vxy[..] == ForcedUpTo(v, xy[..], i, xx, yy, force, sqrt)
      {
        ForcedUpToKeeps(v, xy[..], i, xx, yy, force, sqrt, 2 * i);
        ForcedUpToKeeps(v, xy[..], i, xx, yy, force, sqrt, 2 * i + 1);
        Push(i, xx, yy, force, sqrt);
      }
    }

    /** The force on particle i, with the source's early exits. */
    method Push(i: nat, xx: real, yy: real, force: real, sqrt: real -> real)
      requires Valid() && i < count
      modifies vxy
      ensures var p := Pushed(old(vxy[2 * i]), old(vxy[2 * i + 1]), xy[2 * i], xy[2 * i + 1],
                              xx, yy, force, sqrt);
              vxy[..] == old(vxy[..])[2 * i := p.0][2 * i + 1 := p.1]
    {
      var xd := xy[2 * i] - xx;
      var yd := xy[2 * i + 1] - yy;
      if !Reaches(xd, yd, sqrt) {
        return;
      }
      var f := Shove(xd, yd, force, sqrt);
      vxy[2 * i] := vxy[2 * i] + f.0;
      vxy[2 * i + 1] := vxy[2 * i + 1] + f.1;
    }

    // -------------------------------------------------------------------
    // Pass 1.

    /** Pass 1: remember every position, kick its velocity component, then
        move it. */
    method Integrate(d: real, draws: seq<real>)
      requires Valid() && |draws| >= 2 * count
      modifies xy, vxy, xyOld
      ensures xyOld[..] == old(xy[..])
      ensures vxy[..] == Kicks(old(vxy[..]), draws, d, RandomMotion, Gravity)
      ensures xy[..] == Integrated(old(xy[..]), vxy[..], d)
    {
      for j := 0 to 2 * count
        invariant forall t :: 0 <= t < j ==> xyOld[t] == old(xy[t])
        invariant forall t :: 0 <= t < j ==> vxy[t] == Kicked(old(vxy[t]), draws[t], t, d, RandomMotion, Gravity)
        invariant forall t :: 0 <= t < j ==> xy[t] == Moved(old(xy[t]), vxy[t], d)
        invariant forall t :: j <= t < 2 * count ==> vxy[t] == old(vxy[t]) && xy[t] == old(xy[t])
      {
        xyOld[j] := xy[j];
        vxy[j] := vxy[j] + Jitter(draws[j], RandomMotion, d);
        if j % 2 > 0 {
          vxy[j] := vxy[j] + Fall(Gravity, d);
        }
        xy[j] := Moved(xy[j], vxy[j], d);
      }
    }

    // -------------------------------------------------------------------
    // Pass 2.

    /** The scan for particle i's neighbours: records them in `neighbours`
        with their weights in `g`, and sums the densities. */
    method FindNeighbours(i: nat, sqrt: real -> real) returns (cnt: nat, density: real, nearDensity: real)
      requires Valid() && i < count
      modifies g, neighbours
      ensures cnt <= count && neighbours[..cnt] == NeighbourList(xy[..], i, count, InteractionRadius, sqrt)
      ensures WeightsRecorded(g[..], neighbours[..cnt], xy[..], i, InteractionRadius, sqrt)
      ensures density == Density(WeightsOf(xy[..], i, neighbours[..cnt], InteractionRadius, sqrt))
      ensures nearDensity == NearDensity(WeightsOf(xy[..], i, neighbours[..cnt], InteractionRadius, sqrt))
    {
      cnt, density, nearDensity := 0, 0.0, 0.0;
      for k := 0 to count
        invariant cnt <= k
        invariant neighbours[..cnt] == NeighbourList(xy[..], i, k, InteractionRadius, sqrt)
        invariant WeightsRecorded(g[..], neighbours[..cnt], xy[..], i, InteractionRadius, sqrt)
        invariant density == Density(WeightsOf(xy[..], i, neighbours[..cnt], InteractionRadius, sqrt))
        invariant nearDensity == NearDensity(WeightsOf(xy[..], i, neighbours[..cnt], InteractionRadius, sqrt))
      {
        cnt, density, nearDensity := Scan(i, k, cnt, density, nearDensity, sqrt);
      }
    }

    /** One step of the scan: test particle k and include it if it passes. */
    method Scan(i: nat, k: nat, cnt: nat, density: real, nearDensity: real, sqrt: real -> real)
      returns (cnt': nat, density': real, nearDensity': real)
      requires Valid() && i < count && k < count && cnt <= k
      requires neighbours[..cnt] == NeighbourList(xy[..], i, k, InteractionRadius, sqrt)
      requires WeightsRecorded(g[..], neighbours[..cnt], xy[..], i, InteractionRadius, sqrt)
      requires density == Density(WeightsOf(xy[..], i, neighbours[..cnt], InteractionRadius, sqrt))
      requires nearDensity == NearDensity(WeightsOf(xy[..], i, neighbours[..cnt], InteractionRadius, sqrt))
      modifies g, neighbours
      ensures cnt' <= k + 1 && neighbours[..cnt'] == NeighbourList(xy[..], i, k + 1, InteractionRadius, sqrt)
      ensures WeightsRecorded(g[..], neighbours[..cnt'], xy[..], i, InteractionRadius, sqrt)
      ensures density' == Density(WeightsOf(xy[..], i, neighbours[..cnt'], InteractionRadius, sqrt))
      ensures nearDensity' == NearDensity(WeightsOf(xy[..], i, neighbours[..cnt'], InteractionRadius, sqrt))
    {
      var hit, gk := Probe(i, k, sqrt);
      if hit {
        density', nearDensity' := Include(i, k, cnt, gk, density, nearDensity, sqrt);
        cnt' := cnt + 1;
      } else {
        cnt', density', nearDensity' := cnt, density, nearDensity;
      }
    }

    /** The tests the scan puts particle k through, in order: not i itself,
        inside the box, inside the circle, a weight other than 0. A hit
        comes with k's weight. */
    method Probe(i: nat, k: nat, sqrt: real -> real) returns (hit: bool, gk: real)
      requires Valid() && i < count && k < count
      ensures hit <==> Interacts(xy[..], i, k, InteractionRadius, sqrt)
      ensures hit ==> gk == Weight(xy[..], i, k, InteractionRadius, sqrt)
    {
      hit, gk := false, 0.0;
      if k == i {
        return;
      }
      var xd := Abs(xy[2 * i] - xy[2 * k]);
      var yd := Abs(xy[2 * i + 1] - xy[2 * k + 1]);
      if xd > InteractionRadius || yd > InteractionRadius {
        return;
      }
      var sq := Square(xd) + Square(yd);
      if sq > Square(InteractionRadius) {
        return;
      }
      gk := Gradient(sqrt(sq), InteractionRadius);
      if gk == 0.0 {
        return;
      }
      hit := true;
    }

    /** Particle k passed the tests: add its weight to both densities and
        record it after the cnt neighbours found so far. */
    method Include(i: nat, k: nat, cnt: nat, gk: real, density: real, nearDensity: real,
                   sqrt: real -> real) returns (density': real, nearDensity': real)
      requires Valid() && i < count && k < count && cnt <= k
      requires Interacts(xy[..], i, k, InteractionRadius, sqrt)
      requires gk == Weight(xy[..], i, k, InteractionRadius, sqrt)
      requires neighbours[..cnt] == NeighbourList(xy[..], i, k, InteractionRadius, sqrt)
      requires WeightsRecorded(g[..], neighbours[..cnt], xy[..], i, InteractionRadius, sqrt)
      requires density == Density(WeightsOf(xy[..], i, neighbours[..cnt], InteractionRadius, sqrt))
      requires nearDensity == NearDensity(WeightsOf(xy[..], i, neighbours[..cnt], InteractionRadius, sqrt))
      modifies g, neighbours
      ensures neighbours[..cnt + 1] == NeighbourList(xy[..], i, k + 1, InteractionRadius, sqrt)
      ensures WeightsRecorded(g[..], neighbours[..cnt + 1], xy[..], i, InteractionRadius, sqrt)
      ensures density' == Density(WeightsOf(xy[..], i, neighbours[..cnt + 1], InteractionRadius, sqrt))
      ensures nearDensity' == NearDensity(WeightsOf(xy[..], i, neighbours[..cnt + 1], InteractionRadius, sqrt))
    {
      ghost var t := xy[..];
      ghost var before := neighbours[..cnt];
      ghost var ws := WeightsOf(t, i, before, InteractionRadius, sqrt);
      WeightsOfAppend(t, i, before, k, InteractionRadius, sqrt);
      DensityAppend(ws, gk);
      WeightsRecordedAppend(g[..], before, t, i, InteractionRadius, sqrt, k);
      density' := density + gk * gk;
      nearDensity' := nearDensity + gk * gk * gk;
      Record(k, cnt, gk);
    }

    /** Records particle k as the next neighbour, with its weight. */
    method Record(k: nat, cnt: nat, gk: real)
      requires Valid() && k < count && cnt <= k
      modifies g, neighbours
      ensures neighbours[..cnt + 1] == old(neighbours[..cnt]) + [k]
      ensures g[..] == old(g[..])[k := gk]
    {
      g[k] := gk;
      neighbours[cnt] := k;
    }

    /** The relaxation loop for particle i over its `cnt` recorded
        neighbours. */
    method Relax(i: nat, cnt: nat, p: real, pNear: real, dTSqu: real, sqrt: real -> real)
      requires Valid() && i < count && cnt <= count
      requires forall m :: 0 <= m < cnt ==> neighbours[m] < count
      modifies xy
      ensures xy[..] == Relaxed(old(xy[..]), i, neighbours[..cnt], g[..], p, pNear, dTSqu, cnt, sqrt)
    {
      ghost var s, ns, gs := xy[..], neighbours[..cnt], g[..];
      for n := 0 to cnt
        invariant xy[..] == Relaxed(s, i, ns, gs, p, pNear, dTSqu, n, sqrt)
      {
        var k := neighbours[n];
        var m := Magnitude(p, pNear, g[k], dTSqu);
        Shift(i, k, m, sqrt);
      }
    }

    /** One correction of magnitude m along the unit vector from particle i
        to particle k. */
    method Shift(i: nat, k: nat, m: real, sqrt: real -> real)
      requires Valid() && i < count && k < count
      modifies xy
      ensures xy[..] == RelaxStep(old(xy[..]), i, k, m, sqrt)
    {
      ghost var s := xy[..];
      var d := Along(xy[2 * k] - xy[2 * i], xy[2 * k + 1] - xy[2 * i + 1], m, sqrt);
      RelaxStepCorrects(s, i, k, m, sqrt);
      Correct(i, k, d.0, d.1);
    }

    /** One correction (dx, dy) between particles i and k: i moves by half
        of it backwards, k by half of it forwards. */
    method Correct(i: nat, k: nat, dx: real, dy: real)
      requires Valid() && i < count && k < count
      modifies xy
      ensures xy[..] == Corrected(old(xy[..]), i, k, dx, dy)
    {
      xy[2 * i] := xy[2 * i] + dx * -0.5;
      xy[2 * i + 1] := xy[2 * i + 1] + dy * -0.5;
      xy[2 * k] := xy[2 * k] + dx * 0.5;
      xy[2 * k + 1] := xy[2 * k + 1] + dy * 0.5;
    }

    /** Pass 2: for each particle in turn, find its neighbours and relax
        against them; the sum of each axis over all particles is kept. */
    method Relaxation(dTSqu: real, sqrt: real -> real)
      requires Valid()
      modifies xy, g, neighbours
      ensures AxisSum(xy[..], count, 0) == AxisSum(old(xy[..]), count, 0)
      ensures AxisSum(xy[..], count, 1) == AxisSum(old(xy[..]), count, 1)
    {
      for i := 0 to count
        invariant AxisSum(xy[..], count, 0) == AxisSum(old(xy[..]), count, 0)
        invariant AxisSum(xy[..], count, 1) == AxisSum(old(xy[..]), count, 1)
      {
        var cnt, density, nearDensity := FindNeighbours(i, sqrt);
        var p := Stiffness * (density - RestDensity);
        var pNear := StiffnessNear * nearDensity;
        ghost var s := xy[..];
        Relax(i, cnt, p, pNear, dTSqu, sqrt);
        RelaxedKeepsSums(s, count, i, neighbours[..cnt], g[..], p, pNear, dTSqu, cnt, sqrt, 0);
        RelaxedKeepsSums(s, count, i, neighbours[..cnt], g[..], p, pNear, dTSqu, cnt, sqrt, 1);
      }
    }

    // -------------------------------------------------------------------
    // Pass 3.

    /** Pass 3: settle each particle, then derive its velocity from where it
        started the step. */
    method Constrain(dTInv: real)
      requires Valid()
      modifies xy, vxy
      ensures xy[..] == SettledUpTo(old(xy[..]), count, width as real, height as real)
      ensures Rederived(vxy[..], xy[..], xyOld[..], dTInv, 2 * count)
    {
      ghost var s0 := xy[..];
      for i := 0 to count
        invariant xy[..] == SettledUpTo(s0, i, width as real, height as real)
        invariant Rederived(vxy[..], xy[..], xyOld[..], dTInv, 2 * i)
      {
        ghost var v0, x0 := vxy[..], xy[..];
        SettledUpToKeeps(s0, i, width as real, height as real, 2 * i);
        SettledUpToKeeps(s0, i, width as real, height as real, 2 * i + 1);
        SettleParticle(i, dTInv);
        RederivedPair(v0, x0, xyOld[..], vxy[..], xy[..], dTInv, 2 * i);
      }
    }

    /** Pass 3 for particle i: clamp it, apply the corner rule judged by
        where it was before the clamp, then re-derive its velocity. */
    method SettleParticle(i: nat, dTInv: real)
      requires Valid() && i < count
      modifies xy, vxy
      ensures var p := Settle(old(xy[2 * i]), old(xy[2 * i + 1]), width as real, height as real);
              xy[..] == old(xy[..])[2 * i := p.0][2 * i + 1 := p.1]
      ensures vxy[..] == old(vxy[..])[2 * i := Velocity(xy[2 * i], xyOld[2 * i], dTInv)]
                                     [2 * i + 1 := Velocity(xy[2 * i + 1], xyOld[2 * i + 1], dTInv)]
    {
      var w, h := width as real, height as real;
      var x, y := xy[2 * i], xy[2 * i + 1];
      var nx, ny := x, y;
      if x < 0.0 {
        nx := 0.0;
      } else if x > w {
        nx := w;
      }
      if y < 0.0 {
        ny := 0.0;
      } else if y > h {
        ny := h;
      }
      if y < CornerRows {
        if x + (h - y) < CornerReach {
          nx, ny := nx + 1.0, ny - 1.0;
        }
        if (w - x) + (h - y) < CornerReach {
          nx, ny := nx - 1.0, ny - 1.0;
        }
      }
      xy[2 * i], xy[2 * i + 1] := nx, ny;
      vxy[2 * i] := Velocity(xy[2 * i], xyOld[2 * i], dTInv);
      vxy[2 * i + 1] := Velocity(xy[2 * i + 1], xyOld[2 * i + 1], dTInv);
    }

    // -------------------------------------------------------------------

    /** `update(dT)`: a zero step changes nothing; otherwise the step,
        capped at 0.02, runs the three passes. Afterwards `xyOld` holds
        where each particle started, the relaxed positions keep the axis
        sums of the integrated ones, every particle is within a pixel or two
        of the canvas, and its velocity is the displacement over the
        step. */
    method Update(dT: real, draws: seq<real>, sqrt: real -> real)
      requires Valid() && |draws| >= 2 * count
      modifies xy, vxy, xyOld, g, neighbours
      ensures dT == 0.0 ==> xy[..] == old(xy[..]) && vxy[..] == old(vxy[..]) && xyOld[..] == old(xyOld[..])
      ensures dT != 0.0 ==>
                var d := Capped(dT);
                var moved := Integrated(old(xy[..]), Kicks(old(vxy[..]), draws, d, RandomMotion, Gravity), d);
                xyOld[..] == old(xy[..]) &&
                (exists r :: |r| == 2 * count && xy[..] == SettledUpTo(r, count, width as real, height as real) &&
                   AxisSum(r, count, 0) == AxisSum(moved, count, 0) &&
                   AxisSum(r, count, 1) == AxisSum(moved, count, 1)) &&
                (forall j :: 0 <= j < 2 * count ==>
                   Side(j, -1.0, -2.0) <= xy[j] <= Side(j, width as real + 1.0, height as real)) &&
                forall j :: 0 <= j < 2 * count ==> vxy[j] == Velocity(xy[j], xyOld[j], 1.0 / d)
    {
      if dT == 0.0 {
        return;
      }
      var d := Capped(dT);
      var dTSqu := d * d;
      var dTInv := 1.0 / d;
      Integrate(d, draws);
      Relaxation(dTSqu, sqrt);
      ghost var relaxed := xy[..];
      Constrain(dTInv);
      SettledNearCanvas(relaxed, count, width as real, height as real);
      RederivedAt(vxy[..], xy[..], xyOld[..], dTInv, 2 * count);
    }
  }
}
