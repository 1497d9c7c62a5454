// The WebGL fluid demo's particle integrator (`Liquid`): particles live in
// flat buffers (`xy`, `vxy`, `xyOld`, x at even and y at odd indices), and
// each `update` runs three passes over them: forces and Euler integration,
// a neighbour scan with equal-and-opposite position corrections (double
// density relaxation), and the clamp to the canvas with velocities
// re-derived from the step's displacement.

module WebglFluid {

  import opened FluidCore

  /** The options a caller may pass; a missing one takes its default. */
  datatype Options = Options(count: Option<nat>, interactionRadius: Option<real>,
                             stiffness: Option<real>, stiffnessNear: Option<real>,
                             restDensity: Option<real>, gravity: Option<real>,
                             randomMotion: Option<real>)

  const NoOptions: Options := Options(None, None, None, None, None, None, None)

  /** The settings a `Liquid` runs with. */
  datatype Settings = Settings(count: nat, interactionRadius: real,
                               stiffness: real, stiffnessNear: real,
                               restDensity: real, gravity: real,
                               randomMotion: real)

  /** `{ count: 100, interactionRadius: 50, ..., ...opts }`. */
  function Merge(o: Options): Settings
  {
    Settings(Or(o.count, 100), Or(o.interactionRadius, 50.0),
             Or(o.stiffness, 10000.0), Or(o.stiffnessNear, 10000.0),
             Or(o.restDensity, 2.0), Or(o.gravity, 1000.0),
             Or(o.randomMotion, 20.0))
  }

  /** Without options: 100 particles, radius 50, both stiffnesses 10000,
      rest density 2, gravity 1000, random motion 20. */
  lemma DefaultSettings()
    ensures Merge(NoOptions) == Settings(100, 50.0, 10000.0, 10000.0, 2.0, 1000.0, 20.0)
  {
  }

  /** Every given option wins over its default, and every missing one
      keeps the default. */
  lemma GivenOptionsWin(o: Options)
    ensures o.count.Some? ==> Merge(o).count == o.count.value
    ensures o.count.None? ==> Merge(o).count == Merge(NoOptions).count
    ensures o.interactionRadius.Some? ==> Merge(o).interactionRadius == o.interactionRadius.value
    ensures o.interactionRadius.None? ==> Merge(o).interactionRadius == Merge(NoOptions).interactionRadius
    ensures o.stiffness.Some? ==> Merge(o).stiffness == o.stiffness.value
    ensures o.stiffness.None? ==> Merge(o).stiffness == Merge(NoOptions).stiffness
    ensures o.stiffnessNear.Some? ==> Merge(o).stiffnessNear == o.stiffnessNear.value
    ensures o.stiffnessNear.None? ==> Merge(o).stiffnessNear == Merge(NoOptions).stiffnessNear
    ensures o.restDensity.Some? ==> Merge(o).restDensity == o.restDensity.value
    ensures o.restDensity.None? ==> Merge(o).restDensity == Merge(NoOptions).restDensity
    ensures o.gravity.Some? ==> Merge(o).gravity == o.gravity.value
    ensures o.gravity.None? ==> Merge(o).gravity == Merge(NoOptions).gravity
    ensures o.randomMotion.Some? ==> Merge(o).randomMotion == o.randomMotion.value
    ensures o.randomMotion.None? ==> Merge(o).randomMotion == Merge(NoOptions).randomMotion
  {
  }

  /** `(b - a) * m`: the correction along one axis from i at a to k at b. */
  function Push(a: real, b: real, m: real): real
  {
    (b - a) * m
  }

  class Liquid {
    const width: nat
    const height: nat
    const count: nat
    const interactionRadius: real
    const stiffness: real
    const stiffnessNear: real
    const restDensity: real
    const gravity: real
    const randomMotion: real

    /** Positions, velocities and the positions before the step. */
    var xy: array<real>
    var vxy: array<real>
    var xyOld: array<real>
    /** Per-particle scratch: the gradient and distance to the particle
        being relaxed, and the indices of its neighbours. */
    var g: array<real>
    var len: array<real>
    var neighbours: array<nat>

    /** The buffers `init` allocates, each of its own. */
    predicate Valid()
      reads this
    {
      xy.Length == 2 * count && vxy.Length == 2 * count && xyOld.Length == 2 * count &&
      g.Length == count && len.Length == count && neighbours.Length == count &&
      xy != vxy && xy != xyOld && vxy != xyOld &&
      xy != g && xy != len && vxy != g && vxy != len && xyOld != g && xyOld != len && g != len
    }

    /** The constructor past its canvas check: the merged settings, and no
        buffers until `init`. */
    constructor (canvas: Canvas, opts: Options)
      ensures width == canvas.width && height == canvas.height
      ensures Settings(count, interactionRadius, stiffness, stiffnessNear, restDensity,
                       gravity, randomMotion) == Merge(opts)
    {
      var s := Merge(opts);
      width := canvas.width;
      height := canvas.height;
      count := s.count;
      interactionRadius := s.interactionRadius;
      stiffness := s.stiffness;
      stiffnessNear := s.stiffnessNear;
      restDensity := s.restDensity;
      gravity := s.gravity;
      randomMotion := s.randomMotion;
      xy := new real[0];
      vxy := new real[0];
      xyOld := new real[0];
      g := new real[0];
      len := new real[0];
      neighbours := new nat[0];
    }

    /** The container's extent along the axis of buffer index j. */
    function Extent(j: nat): real
    {
      Side(j, width as real, height as real)
    }

    /** Every coordinate lies inside the container. */
    predicate Contained(s: seq<real>)
    {
      Inside(s, width as real, height as real)
    }

    /** `init` past its WebGL setup (which throws when no context is
        available): zeroed buffers of the right sizes, then
        `resetParticles`. */
    method Init(webgl: bool, draws: seq<real>) returns (ok: bool)
      requires |draws| >= 2 * count && forall j :: 0 <= j < |draws| ==> 0.0 <= draws[j] < 1.0
      modifies this
      ensures ok == webgl
      ensures ok ==> Valid() && fresh(xy) && fresh(vxy) && fresh(xyOld) &&
                     fresh(g) && fresh(len) && fresh(neighbours)
      ensures ok ==> Contained(xy[..]) &&
                     (forall j :: 0 <= j < 2 * count ==> xy[j] == Scaled(draws[j], Extent(j))) &&
                     (forall j :: 0 <= j < 2 * count ==> vxy[j] == 0.0 && xyOld[j] == 0.0)
      ensures !ok ==> xy == old(xy) && vxy == old(vxy) && xyOld == old(xyOld) &&
                      g == old(g) && len == old(len) && neighbours == old(neighbours)
    {
      if !webgl {
        return false;
      }
      xy := new real[2 * count](_ => 0.0);
      vxy := new real[2 * count](_ => 0.0);
      xyOld := new real[2 * count](_ => 0.0);
      g := new real[count](_ => 0.0);
      neighbours := new nat[count](_ => 0);
      len := new real[count](_ => 0.0);
      ResetParticles(draws);
      return true;
    }

    /** `resetParticles`: every particle at a random place in the container
        (x from the first draw of its pair, y from the second), at rest. */
    method ResetParticles(draws: seq<real>)
      requires Valid()
      requires |draws| >= 2 * count && forall j :: 0 <= j < |draws| ==> 0.0 <= draws[j] < 1.0
      modifies xy, vxy
      ensures forall j :: 0 <= j < 2 * count ==> xy[j] == Scaled(draws[j], Extent(j)) && vxy[j] == 0.0
      ensures Contained(xy[..])
      ensures forall j :: 0 <= j < 2 * count && 0.0 < Extent(j) ==> xy[j] < Extent(j)
    {
      for i := 0 to count
        invariant forall j :: 0 <= j < 2 * i ==> xy[j] == Scaled(draws[j], Extent(j)) && vxy[j] == 0.0
      {
        xy[2 * i] := Scaled(draws[2 * i], width as real);
        xy[2 * i + 1] := Scaled(draws[2 * i + 1], height as real);
        vxy[2 * i] := 0.0;
        vxy[2 * i + 1] := 0.0;
      }
      forall j | 0 <= j < 2 * count
        ensures 0.0 <= xy[j] <= Extent(j) && (0.0 < Extent(j) ==> xy[j] < Extent(j))
      {
        ScaledRange(draws[j], Extent(j));
      }
    }

    // -------------------------------------------------------------------
    // Pass 1: forces and integration.

    /** Pass 1: kick every velocity component, remember every position, then
        move it. */
    method Integrate(d: real, draws: seq<real>)
      requires Valid() && |draws| >= 2 * count
      modifies xy, vxy, xyOld
      ensures vxy[..] == Kicks(old(vxy[..]), draws, d, randomMotion, gravity)
      ensures xyOld[..] == old(xy[..])
      ensures xy[..] == Integrated(old(xy[..]), vxy[..], d)
    {
      for j := 0 to 2 * count
        invariant forall t :: 0 <= t < j ==> vxy[t] == Kicked(old(vxy[t]), draws[t], t, d, randomMotion, gravity)
        invariant forall t :: 0 <= t < j ==> xyOld[t] == old(xy[t]) && xy[t] == Moved(old(xy[t]), vxy[t], d)
        invariant forall t :: j <= t < 2 * count ==> vxy[t] == old(vxy[t]) && xy[t] == old(xy[t])
      {
        if randomMotion != 0.0 {
          vxy[j] := vxy[j] + Jitter(draws[j], randomMotion, d);
        }
        if gravity != 0.0 && j % 2 > 0 {
          vxy[j] := vxy[j] + Fall(gravity, d);
        }
        xyOld[j] := xy[j];
        xy[j] := Moved(xy[j], vxy[j], d);
      }
    }

    // -------------------------------------------------------------------
    // Pass 2: neighbours and relaxation.

    /** The scan for particle i's neighbours: records them in `neighbours`
        with their weights in `g` and distances in `len`, and sums the
        densities. */
    method FindNeighbours(i: nat, sqrt: real -> real) returns (cnt: nat, density: real, nearDensity: real)
      requires Valid() && i < count
      modifies g, len, neighbours
      ensures cnt <= count && neighbours[..cnt] == NeighbourList(xy[..], i, count, interactionRadius, sqrt)
      ensures Recorded(g[..], len[..], neighbours[..cnt], xy[..], i, sqrt)
      ensures density == Density(WeightsOf(xy[..], i, neighbours[..cnt], interactionRadius, sqrt))
      ensures nearDensity == NearDensity(WeightsOf(xy[..], i, neighbours[..cnt], interactionRadius, sqrt))
    {
      cnt, density, nearDensity := 0, 0.0, 0.0;
      for k := 0 to count
        invariant cnt <= k
        invariant neighbours[..cnt] == NeighbourList(xy[..], i, k, interactionRadius, sqrt)
        invariant Recorded(g[..], len[..], neighbours[..cnt], xy[..], i, sqrt)
        invariant density == Density(WeightsOf(xy[..], i, neighbours[..cnt], interactionRadius, sqrt))
        invariant nearDensity == NearDensity(WeightsOf(xy[..], i, neighbours[..cnt], interactionRadius, sqrt))
      {
        cnt, density, nearDensity := Scan(i, k, cnt, density, nearDensity, sqrt);
      }
    }

    /** One step of the scan: test particle k and include it if it passes. */
    method Scan(i: nat, k: nat, cnt: nat, density: real, nearDensity: real, sqrt: real -> real)
      returns (cnt': nat, density': real, nearDensity': real)
      requires Valid() && i < count && k < count && cnt <= k
      requires neighbours[..cnt] == NeighbourList(xy[..], i, k, interactionRadius, sqrt)
      requires Recorded(g[..], len[..], neighbours[..cnt], xy[..], i, sqrt)
      requires density == Density(WeightsOf(xy[..], i, neighbours[..cnt], interactionRadius, sqrt))
      requires nearDensity == NearDensity(WeightsOf(xy[..], i, neighbours[..cnt], interactionRadius, sqrt))
      modifies g, len, neighbours
      ensures cnt' <= k + 1 && neighbours[..cnt'] == NeighbourList(xy[..], i, k + 1, interactionRadius, sqrt)
      ensures Recorded(g[..], len[..], neighbours[..cnt'], xy[..], i, sqrt)
      ensures density' == Density(WeightsOf(xy[..], i, neighbours[..cnt'], interactionRadius, sqrt))
      ensures nearDensity' == NearDensity(WeightsOf(xy[..], i, neighbours[..cnt'], interactionRadius, sqrt))
    {
      var hit, gk, l := Probe(i, k, sqrt);
      if hit {
        density', nearDensity' := Include(i, k, cnt, gk, l, density, nearDensity, sqrt);
        cnt' := cnt + 1;
      } else {
        cnt', density', nearDensity' := cnt, density, nearDensity;
      }
    }

    /** Particle k passed the tests: record it after the cnt neighbours
        found so far and add its weight to both densities. */
    method Include(i: nat, k: nat, cnt: nat, gk: real, l: real, density: real, nearDensity: real,
                   sqrt: real -> real) returns (density': real, nearDensity': real)
      requires Valid() && i < count && k < count && cnt <= k
      requires Interacts(xy[..], i, k, interactionRadius, sqrt)
      requires gk == Weight(xy[..], i, k, interactionRadius, sqrt) && l == Distance(xy[..], i, k, sqrt)
      requires neighbours[..cnt] == NeighbourList(xy[..], i, k, interactionRadius, sqrt)
      requires Recorded(g[..], len[..], neighbours[..cnt], xy[..], i, sqrt)
      requires density == Density(WeightsOf(xy[..], i, neighbours[..cnt], interactionRadius, sqrt))
      requires nearDensity == NearDensity(WeightsOf(xy[..], i, neighbours[..cnt], interactionRadius, sqrt))
      modifies g, len, neighbours
      ensures neighbours[..cnt + 1] == NeighbourList(xy[..], i, k + 1, interactionRadius, sqrt)
      ensures Recorded(g[..], len[..], neighbours[..cnt + 1], xy[..], i, sqrt)
      ensures density' == Density(WeightsOf(xy[..], i, neighbours[..cnt + 1], interactionRadius, sqrt))
      ensures nearDensity' == NearDensity(WeightsOf(xy[..], i, neighbours[..cnt + 1], interactionRadius, sqrt))
    {
      ghost var t := xy[..];
      ghost var before := neighbours[..cnt];
      ghost var ws := WeightsOf(t, i, before, interactionRadius, sqrt);
      WeightsOfAppend(t, i, before, k, interactionRadius, sqrt);
      DensityAppend(ws, gk);
      RecordedFrame(g[..], len[..], before, t, i, sqrt, k, gk, l);
      density' := density + gk * gk;
      nearDensity' := nearDensity + gk * gk * gk;
      Record(k, cnt, gk, l);
    }

    /** The scan's record: the entries of gs and ls at each particle of l
        hold that particle's weight and distance in s. Stated by recursion
        so that the scan can extend it one neighbour at a time. */
    ghost predicate Recorded(gs: seq<real>, ls: seq<real>, l: seq<nat>, s: seq<real>, i: nat, sqrt: real -> real)
      requires |gs| == count && |ls| == count && |s| == 2 * count && i < count
      requires forall m :: 0 <= m < |l| ==> l[m] < count
    {
      l == [] ||
      (Recorded(gs, ls, l[..|l| - 1], s, i, sqrt) &&
       gs[l[|l| - 1]] == Weight(s, i, l[|l| - 1], interactionRadius, sqrt) &&
       ls[l[|l| - 1]] == Distance(s, i, l[|l| - 1], sqrt))
    }

    /** The record, neighbour by neighbour. */
    lemma {:induction false} RecordedAt(gs: seq<real>, ls: seq<real>, l: seq<nat>, s: seq<real>, i: nat, sqrt: real -> real)
      requires |gs| == count && |ls| == count && |s| == 2 * count && i < count
      requires forall m :: 0 <= m < |l| ==> l[m] < count
      requires Recorded(gs, ls, l, s, i, sqrt)
      ensures forall m :: 0 <= m < |l| ==>
                gs[l[m]] == Weight(s, i, l[m], interactionRadius, sqrt) && ls[l[m]] == Distance(s, i, l[m], sqrt)
    {
      if l != [] {
        RecordedAt(gs, ls, l[..|l| - 1], s, i, sqrt);
      }
    }

    /** Writing entries of a particle beyond every recorded one keeps the
        record. */
    lemma {:induction false} RecordedFrame(gs: seq<real>, ls: seq<real>, l: seq<nat>, s: seq<real>, i: nat,
                                           sqrt: real -> real, k: nat, gk: real, lk: real)
      requires |gs| == count && |ls| == count && |s| == 2 * count && i < count && k < count
      requires forall m :: 0 <= m < |l| ==> l[m] < k
      requires Recorded(gs, ls, l, s, i, sqrt)
      ensures Recorded(gs[k := gk], ls[k := lk], l, s, i, sqrt)
    {
      if l != [] {
        RecordedFrame(gs, ls, l[..|l| - 1], s, i, sqrt, k, gk, lk);
      }
    }

    /** The tests the scan puts particle k through, in order: not i itself,
        inside the box, inside the circle, a weight that is neither NaN nor
        0. A hit comes with k's weight and distance. */
    method Probe(i: nat, k: nat, sqrt: real -> real) returns (hit: bool, gk: real, l: real)
      requires Valid() && i < count && k < count
      ensures hit <==> Interacts(xy[..], i, k, interactionRadius, sqrt)
      ensures hit ==> gk == Weight(xy[..], i, k, interactionRadius, sqrt) && l == Distance(xy[..], i, k, sqrt)
    {
      hit, gk, l := false, 0.0, 0.0;
      if k == i {
        return;
      }
      var xd := Abs(xy[2 * i] - xy[2 * k]);
      var yd := Abs(xy[2 * i + 1] - xy[2 * k + 1]);
      if xd > interactionRadius || yd > interactionRadius {
        return;
      }
      var sq := Square(xd) + Square(yd);
      if sq > Square(interactionRadius) {
        return;
      }
      l := sqrt(sq);
      if interactionRadius == 0.0 {
        return;
      }
      gk := Gradient(l, interactionRadius);
      if gk == 0.0 {
        return;
      }
      hit := true;
    }

    /** Records particle k as the next neighbour, with its weight and
        distance. */
    method Record(k: nat, cnt: nat, gk: real, l: real)
      requires Valid() && k < count && cnt <= k
      modifies g, len, neighbours
      ensures neighbours[..cnt + 1] == old(neighbours[..cnt]) + [k]
      ensures g[..] == old(g[..])[k := gk] && len[..] == old(len[..])[k := l]
    {
      g[k] := gk;
      len[k] := l;
      neighbours[cnt] := k;
    }

    /** `p = STIFFNESS * (density - REST_DENSITY)`. */
    function Pressure(density: real): real
    {
      stiffness * (density - restDensity)
    }

    /** `pNear = STIFFNESS_NEAR * nearDensity`. */
    function NearPressure(nearDensity: real): real
    {
      stiffnessNear * nearDensity
    }

    /** `((p + pNear * g) * g * dTSqu) / len`; a zero distance (two particles
        at the same place) gives no correction. */
    function Magnitude(p: real, pNear: real, gk: real, dTSqu: real, l: real): real
    {
      if l == 0.0 then 0.0 else ((p + pNear * gk) * gk * dTSqu) / l
    }

    /** The positions after particle i's corrections against the first n
        particles of l, each computed from the positions the earlier ones
        left, with the weights gs[k] and distances ls[k] the scan recorded. */
    function Relaxed(s: seq<real>, i: nat, l: seq<nat>, gs: seq<real>, ls: seq<real>,
                     p: real, pNear: real, dTSqu: real, n: nat): (t: seq<real>)
      requires n <= |l| && |s| == 2 * count && |gs| == count && |ls| == count && i < count
      requires forall m :: 0 <= m < |l| ==> l[m] < count
      ensures |t| == |s|
    {
      if n == 0 then s
      else
        var t := Relaxed(s, i, l, gs, ls, p, pNear, dTSqu, n - 1);
        var k := l[n - 1];
        var m := Magnitude(p, pNear, gs[k], dTSqu, ls[k]);
        Corrected(t, i, k, Push(t[2 * i], t[2 * k], m), Push(t[2 * i + 1], t[2 * k + 1], m))
    }

    /** The relaxation of one particle against neighbours other than itself
        keeps the sum of each axis. */
    lemma {:induction false} RelaxedKeepsSums(s: seq<real>, i: nat, l: seq<nat>, gs: seq<real>, ls: seq<real>,
                                              p: real, pNear: real, dTSqu: real, n: nat, c: nat)
      requires n <= |l| && |s| == 2 * count && |gs| == count && |ls| == count && i < count && c < 2
      requires forall m :: 0 <= m < |l| ==> l[m] < count && l[m] != i
      ensures AxisSum(Relaxed(s, i, l, gs, ls, p, pNear, dTSqu, n), count, c) == AxisSum(s, count, c)
    {
      if n > 0 {
        RelaxedKeepsSums(s, i, l, gs, ls, p, pNear, dTSqu, n - 1, c);
        var t := Relaxed(s, i, l, gs, ls, p, pNear, dTSqu, n - 1);
        var k := l[n - 1];
        var m := Magnitude(p, pNear, gs[k], dTSqu, ls[k]);
        CorrectedKeepsSums(t, count, c, i, k, Push(t[2 * i], t[2 * k], m), Push(t[2 * i + 1], t[2 * k + 1], m));
      }
    }

    /** The relaxation loop for particle i over its `cnt` recorded
        neighbours. */
    method Relax(i: nat, cnt: nat, p: real, pNear: real, dTSqu: real)
      requires Valid() && i < count && cnt <= count
      requires forall m :: 0 <= m < cnt ==> neighbours[m] < count
      modifies xy
      ensures xy[..] == Relaxed(old(xy[..]), i, neighbours[..cnt], g[..], len[..], p, pNear, dTSqu, cnt)
    {
      ghost var s, ns, gs, ls := xy[..], neighbours[..cnt], g[..], len[..];
      for n := 0 to cnt
        invariant xy[..] == Relaxed(s, i, ns, gs, ls, p, pNear, dTSqu, n)
      {
        var k := neighbours[n];
        var m := Magnitude(p, pNear, g[k], dTSqu, len[k]);
        assert k == ns[n] && m == Magnitude(p, pNear, gs[k], dTSqu, ls[k]);
        Correct(i, k, m);
      }
    }

    /** One correction of magnitude m between particles i and k: i moves
        by half of the push from i towards k backwards, k by half of it
        forwards. */
    method Correct(i: nat, k: nat, m: real)
      requires Valid() && i < count && k < count
      modifies xy
      ensures xy[..] == Corrected(old(xy[..]), i, k, Push(old(xy[2 * i]), old(xy[2 * k]), m),
                                  Push(old(xy[2 * i + 1]), old(xy[2 * k + 1]), m))
    {
      var dx := Push(xy[2 * i], xy[2 * k], m);
      var dy := Push(xy[2 * i + 1], xy[2 * k + 1], m);
      xy[2 * i] := xy[2 * i] + dx * -0.5;
      xy[2 * i + 1] := xy[2 * i + 1] + dy * -0.5;
      xy[2 * k] := xy[2 * k] + dx * 0.5;
      xy[2 * k + 1] := xy[2 * k + 1] + dy * 0.5;
    }

    /** Pass 2: for each particle in turn, find its neighbours and relax
        against them. The fluid's centre of mass does not move: the sum of
        each axis over all particles is what it was. */
    method Relaxation(dTSqu: real, sqrt: real -> real)
      requires Valid()
      modifies xy, g, len, neighbours
      ensures AxisSum(xy[..], count, 0) == AxisSum(old(xy[..]), count, 0)
      ensures AxisSum(xy[..], count, 1) == AxisSum(old(xy[..]), count, 1)
    {
      for i := 0 to count
        invariant AxisSum(xy[..], count, 0) == AxisSum(old(xy[..]), count, 0)
        invariant AxisSum(xy[..], count, 1) == AxisSum(old(xy[..]), count, 1)
      {
        var cnt, density, nearDensity := FindNeighbours(i, sqrt);
        var p := Pressure(density);
        var pNear := NearPressure(nearDensity);
        ghost var s := xy[..];
        Relax(i, cnt, p, pNear, dTSqu);
        RelaxedKeepsSums(s, i, neighbours[..cnt], g[..], len[..], p, pNear, dTSqu, cnt, 0);
        RelaxedKeepsSums(s, i, neighbours[..cnt], g[..], len[..], p, pNear, dTSqu, cnt, 1);
      }
    }

    // -------------------------------------------------------------------
    // Pass 3: the container and the velocities.

    /** Pass 3: clamp each particle into the container, then derive its
        velocity from where it started the step. */
    method Constrain(dTInv: real)
      requires Valid()
      modifies xy, vxy
      ensures xy[..] == Clamped(old(xy[..]), width as real, height as real)
      ensures Rederived(vxy[..], xy[..], xyOld[..], dTInv, 2 * count)
    {
      for i := 0 to count
        invariant xy[..] == ClampedUpTo(old(xy[..]), i, width as real, height as real)
        invariant Rederived(vxy[..], xy[..], xyOld[..], dTInv, 2 * i)
      {
        ghost var v0, x0 := vxy[..], xy[..];
        ClampedUpToKeeps(old(xy[..]), i, width as real, height as real, 2 * i);
        ClampedUpToKeeps(old(xy[..]), i, width as real, height as real, 2 * i + 1);
        ConstrainParticle(i, dTInv);
        RederivedPair(v0, x0, xyOld[..], vxy[..], xy[..], dTInv, 2 * i);
      }
      ClampedUpToAll(old(xy[..]), count, width as real, height as real);
    }

    /** Pass 3 for particle i: clamp it, then re-derive its velocity. */
    method ConstrainParticle(i: nat, dTInv: real)
      requires Valid() && i < count
      modifies xy, vxy
      ensures xy[..] == old(xy[..])[2 * i := Clamp(old(xy[2 * i]), width as real)]
                                   [2 * i + 1 := Clamp(old(xy[2 * i + 1]), height as real)]
      ensures vxy[..] == old(vxy[..])[2 * i := Velocity(xy[2 * i], xyOld[2 * i], dTInv)]
                                     [2 * i + 1 := Velocity(xy[2 * i + 1], xyOld[2 * i + 1], dTInv)]
    {
      var x := xy[2 * i];
      var y := xy[2 * i + 1];
      if x < 0.0 {
        xy[2 * i] := 0.0;
      } else if x > width as real {
        xy[2 * i] := width as real;
      }
      if y < 0.0 {
        xy[2 * i + 1] := 0.0;
      } else if y > height as real {
        xy[2 * i + 1] := height as real;
      }
      vxy[2 * i] := Velocity(xy[2 * i], xyOld[2 * i], dTInv);
      vxy[2 * i + 1] := Velocity(xy[2 * i + 1], xyOld[2 * i + 1], dTInv);
    }

    // -------------------------------------------------------------------

    /** `update(dT)`: a zero step changes nothing (a negative one is
        integrated); otherwise the step, capped at 0.02, runs the three
        passes. Afterwards every particle is in the container, `xyOld`
        holds where it started, and its velocity is the displacement over
        the step. */
    method Update(dT: real, draws: seq<real>, sqrt: real -> real)
      requires Valid() && |draws| >= 2 * count
      modifies xy, vxy, xyOld, g, len, neighbours
      ensures dT == 0.0 ==> xy[..] == old(xy[..]) && vxy[..] == old(vxy[..]) && xyOld[..] == old(xyOld[..])
      ensures dT != 0.0 ==>
                var d := Capped(dT);
                xyOld[..] == old(xy[..]) &&
                (exists r :: |r| == 2 * count && xy[..] == Clamped(r, width as real, height as real) &&
                   AxisSum(r, count, 0) == AxisSum(Integrated(old(xy[..]), Kicks(old(vxy[..]), draws, d, randomMotion, gravity), d), count, 0) &&
                   AxisSum(r, count, 1) == AxisSum(Integrated(old(xy[..]), Kicks(old(vxy[..]), draws, d, randomMotion, gravity), d), count, 1)) &&
                Contained(xy[..]) &&
                forall j :: 0 <= j < 2 * count ==> vxy[j] == Velocity(xy[j], xyOld[j], 1.0 / d)
    {
      if dT == 0.0 {
        return;
      }
      var d := Capped(dT);
      var dTSqu := Square(d);
      var dTInv := 1.0 / d;
      Integrate(d, draws);
      Relaxation(dTSqu, sqrt);
      ghost var relaxed := xy[..];
      Constrain(dTInv);
      ClampedInside(relaxed, width as real, height as real);
      RederivedAt(vxy[..], xy[..], xyOld[..], dTInv, 2 * count);
    }
  }

  /** `new Liquid(canvasEl, opts)`: throws (None) without a canvas. */
  method New(canvas: Option<Canvas>, opts: Options) returns (r: Option<Liquid>)
    ensures canvas.None? <==> r.None?
    ensures r.Some? ==> fresh(r.value) && r.value.width == canvas.value.width &&
                        r.value.height == canvas.value.height &&
                        r.value.count == Merge(opts).count &&
                        r.value.interactionRadius == Merge(opts).interactionRadius
  {
    if canvas.None? {
      return None;
    }
    var liquid := new Liquid(canvas.value, opts);
    return Some(liquid);
  }
}
