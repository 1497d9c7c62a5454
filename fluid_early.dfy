// The first version of the WebGL fluid (`liquid_1.js`): the same three
// passes as the later one, but with positions in one flat buffer and
// everything else in one array per quantity, a neighbour list that keeps
// particles exactly on the circle, stored pressures, and corrections along
// the unit vector between two particles.

module EarlyFluid {

  import opened FluidCore

  /** The constants `update` declares. */
  const InteractionRadius: real := 50.0
  const Stiffness: real := 10000.0
  const StiffnessNear: real := 10000.0
  const RestDensity: real := 3.0
  const Gravity: real := 1000.0
  const RandomMotion: real := 20.0

  /** The scan keeps particle k for particle i: another particle whose
      squared distance is at most the radius squared. */
  predicate Close(s: seq<real>, i: nat, k: nat)
    requires 2 * i + 1 < |s| && 2 * k + 1 < |s|
  {
    k != i && SqDist(s, i, k) <= Square(InteractionRadius)
  }

  /** `Math.pow(a, 2) + Math.pow(b, 2)` is the squared distance, whatever
      the signs of the differences. */
  lemma PowIsSqDist(s: seq<real>, i: nat, k: nat)
    requires 2 * i + 1 < |s| && 2 * k + 1 < |s|
    ensures SqDist(s, i, k) == Square(s[2 * i] - s[2 * k]) + Square(s[2 * i + 1] - s[2 * k + 1])
  {
    SquareAbs(s[2 * i] - s[2 * k]);
    SquareAbs(s[2 * i + 1] - s[2 * k + 1]);
  }

  lemma SquareAbs(x: real)
    ensures Square(Abs(x)) == Square(x)
  {
    if x < 0.0 {
      assert (-x) * (-x) == x * x;
    }
  }

  /** The local `neighbours` of particle i after the scan over the first n
      particles. */
  function CloseList(s: seq<real>, i: nat, n: nat): (l: seq<nat>)
    requires 2 * i + 1 < |s| && 2 * n <= |s|
    ensures forall m :: 0 <= m < |l| ==> l[m] < n && l[m] != i
  {
    if n == 0 then []
    else CloseList(s, i, n - 1) + (if Close(s, i, n - 1) then [n - 1] else [])
  }

  /** Every entry of l is a particle close to particle i. */
  predicate AllClose(s: seq<real>, i: nat, l: seq<nat>)
    requires 2 * i + 1 < |s| && forall m :: 0 <= m < |l| ==> 2 * l[m] + 1 < |s|
  {
    forall m :: 0 <= m < |l| ==> Close(s, i, l[m])
  }

  /** The entries of l increase strictly, so none appears twice. */
  predicate Increasing(l: seq<nat>)
  {
    forall a, b :: 0 <= a < b < |l| ==> l[a] < l[b]
  }

  /** The list holds only close particles, each once and in increasing
      order. */
  lemma {:induction false} CloseListSound(s: seq<real>, i: nat, n: nat)
    requires 2 * i + 1 < |s| && 2 * n <= |s|
    ensures AllClose(s, i, CloseList(s, i, n)) && Increasing(CloseList(s, i, n))
  {
    if n > 0 {
      CloseListSound(s, i, n - 1);
      var l0 := CloseList(s, i, n - 1);
      var l := CloseList(s, i, n);
      if Close(s, i, n - 1) {
        assert l == l0 + [n - 1];
        forall m | 0 <= m < |l|
          ensures Close(s, i, l[m])
        {
          if m < |l0| {
            assert l[m] == l0[m];
          }
        }
        forall a, b | 0 <= a < b < |l|
          ensures l[a] < l[b]
        {
          if b < |l0| {
            assert l[a] == l0[a] && l[b] == l0[b];
          } else {
            assert l[a] == l0[a] && l0[a] < n - 1;
          }
        }
      } else {
        assert l == l0;
      }
    }
  }

  /** Every close particle among the first n is on the list. */
  lemma {:induction false} CloseListComplete(s: seq<real>, i: nat, n: nat)
    requires 2 * i + 1 < |s| && 2 * n <= |s|
    ensures forall k: nat :: k < n && Close(s, i, k) ==> k in CloseList(s, i, n)
  {
    if n > 0 {
      CloseListComplete(s, i, n - 1);
    }
  }

  /** So the list holds exactly the close particles among the first n. */
  lemma CloseListExact(s: seq<real>, i: nat, n: nat)
    requires 2 * i + 1 < |s| && 2 * n <= |s|
    ensures forall k: nat :: k in CloseList(s, i, n) <==> k < n && Close(s, i, k)
  {
    CloseListSound(s, i, n);
    CloseListComplete(s, i, n);
  }

  /** A particle exactly on the circle is kept, with weight 0. */
  lemma EdgeKeptWithNoWeight(s: seq<real>, i: nat, k: nat, sqrt: real -> real)
    requires 2 * i + 1 < |s| && 2 * k + 1 < |s| && 2 * (k + 1) <= |s|
    requires IsSqrt(sqrt) && k != i && SqDist(s, i, k) == Square(InteractionRadius)
    ensures k in CloseList(s, i, k + 1)
    ensures Weight(s, i, k, InteractionRadius, sqrt) == 0.0
  {
    CloseListExact(s, i, k + 1);
    var len := Distance(s, i, k, sqrt);
    assert 0.0 <= len && len * len == InteractionRadius * InteractionRadius;
    RootOfSquare(len, InteractionRadius);
    WeightInRange(s, i, k, InteractionRadius, sqrt);
  }

  /** The weights of the list lie in [0, 1], so both densities lie between
      0 and the number of other particles, the near density below the
      density, and the pressure is at least -3 times the stiffness. */
  lemma CloseDensities(s: seq<real>, i: nat, n: nat, sqrt: real -> real)
    requires |s| == 2 * n && i < n && IsSqrt(sqrt)
    ensures var ws := WeightsOf(s, i, CloseList(s, i, n), InteractionRadius, sqrt);
            0.0 <= NearDensity(ws) <= Density(ws) <= (n - 1) as real &&
            Stiffness * (Density(ws) - RestDensity) >= -RestDensity * Stiffness
  {
    var l := CloseList(s, i, n);
    CloseListSound(s, i, n);
    CloseListShort(s, i, n);
    var ws := WeightsOf(s, i, l, InteractionRadius, sqrt);
    WeightsOfAt(s, i, l, InteractionRadius, sqrt);
    forall m | 0 <= m < |ws|
      ensures 0.0 <= ws[m] <= 1.0
    {
      WeightInRange(s, i, l[m], InteractionRadius, sqrt);
    }
    DensityBounds(ws);
  }

  /** Particle i is never on its own list, so the list has at most n - 1
      entries. */
  lemma {:induction false} CloseListShort(s: seq<real>, i: nat, n: nat)
    requires 2 * i + 1 < |s| && 2 * n <= |s|
    ensures |CloseList(s, i, n)| <= if i < n then n - 1 else n
  {
    if n > 0 {
      CloseListShort(s, i, n - 1);
    }
  }

  /** `(p * g) + (pNear * g * g)`. */
  function Magnitude(p: real, pNear: real, gk: real): real
  {
    (p * gk) + (pNear * gk * gk)
  }

  /** `magnitude * dT * dT`, the length of a correction. */
  function StepMagnitude(p: real, pNear: real, gk: real, d: real): real
  {
    Magnitude(p, pNear, gk) * d * d
  }

  /** The positions after particle i's corrections against the first n
      particles of l, whose weights are ws: each pushes along the unit
      vector from i to k as they stand after the earlier corrections, by the
      magnitude times the step squared. */
  function Relaxed(s: seq<real>, i: nat, l: seq<nat>, ws: seq<real>, p: real, pNear: real, d: real,
                   n: nat, sqrt: real -> real): (t: seq<real>)
    requires n <= |l| == |ws| && 2 * i + 1 < |s| && forall m :: 0 <= m < |l| ==> 2 * l[m] + 1 < |s|
    ensures |t| == |s|
  {
    if n == 0 then s
    else
      var t := Relaxed(s, i, l, ws, p, pNear, d, n - 1, sqrt);
      RelaxStep(t, i, l[n - 1], StepMagnitude(p, pNear, ws[n - 1], d), sqrt)
  }

  /** The relaxation of one particle against others keeps the sum of each
      axis. */
  lemma {:induction false} RelaxedKeepsSums(s: seq<real>, count: nat, i: nat, l: seq<nat>, ws: seq<real>,
                                            p: real, pNear: real, d: real, n: nat, sqrt: real -> real, c: nat)
    requires n <= |l| == |ws| && |s| == 2 * count && i < count && c < 2
    requires forall m :: 0 <= m < |l| ==> l[m] < count && l[m] != i
    ensures AxisSum(Relaxed(s, i, l, ws, p, pNear, d, n, sqrt), count, c) == AxisSum(s, count, c)
  {
    if n > 0 {
      RelaxedKeepsSums(s, count, i, l, ws, p, pNear, d, n - 1, sqrt, c);
      var t := Relaxed(s, i, l, ws, p, pNear, d, n - 1, sqrt);
      RelaxStepKeepsSums(t, count, c, i, l[n - 1], StepMagnitude(p, pNear, ws[n - 1], d), sqrt);
    }
  }

  /** Pass 3's velocities: for each of the first n particles, the
      displacement from (ox, oy) over the step. */
  ghost predicate Steered(vx: seq<real>, vy: seq<real>, x: seq<real>, ox: seq<real>, oy: seq<real>,
                          inv: real, n: nat)
    requires n <= |vx| && n <= |vy| && 2 * n <= |x| && n <= |ox| && n <= |oy|
  {
    n == 0 ||
    (Steered(vx, vy, x, ox, oy, inv, n - 1) &&
     vx[n - 1] == Velocity(x[2 * (n - 1)], ox[n - 1], inv) &&
     vy[n - 1] == Velocity(x[2 * (n - 1) + 1], oy[n - 1], inv))
  }

  /** The velocities, particle by particle. */
  lemma {:induction false} SteeredAt(vx: seq<real>, vy: seq<real>, x: seq<real>, ox: seq<real>, oy: seq<real>,
                                     inv: real, n: nat)
    requires n <= |vx| && n <= |vy| && 2 * n <= |x| && n <= |ox| && n <= |oy|
    requires Steered(vx, vy, x, ox, oy, inv, n)
    ensures forall t :: 0 <= t < n ==>
              vx[t] == Velocity(x[2 * t], ox[t], inv) && vy[t] == Velocity(x[2 * t + 1], oy[t], inv)
  {
    if n > 0 {
      SteeredAt(vx, vy, x, ox, oy, inv, n - 1);
    }
  }

  /** Changing particle n and nothing before it keeps the record of the
      first n. */
  lemma {:induction false} SteeredFrame(vx: seq<real>, vy: seq<real>, x: seq<real>, ox: seq<real>, oy: seq<real>,
                                        vx': seq<real>, vy': seq<real>, x': seq<real>, inv: real, n: nat)
    requires n <= |vx| == |vx'| && n <= |vy| == |vy'| && 2 * n <= |x| == |x'| && n <= |ox| && n <= |oy|
    requires Steered(vx, vy, x, ox, oy, inv, n)
    requires forall t :: 0 <= t < n ==> vx'[t] == vx[t] && vy'[t] == vy[t]
    requires forall j :: 0 <= j < 2 * n ==> x'[j] == x[j]
    ensures Steered(vx', vy', x', ox, oy, inv, n)
  {
    if n > 0 {
      SteeredFrame(vx, vy, x, ox, oy, vx', vy', x', inv, n - 1);
    }
  }

  /** Re-deriving particle n's velocity, with nothing before it moved,
      extends the record by one particle. */
  lemma SteeredStep(vx0: seq<real>, vy0: seq<real>, x0: seq<real>, ox: seq<real>, oy: seq<real>,
                    vx: seq<real>, vy: seq<real>, x: seq<real>, inv: real, n: nat)
    requires n < |vx0| == |vx| && n < |vy0| == |vy| && 2 * n + 2 <= |x0| == |x| && n < |ox| && n < |oy|
    requires Steered(vx0, vy0, x0, ox, oy, inv, n)
    requires forall j :: 0 <= j < 2 * n ==> x[j] == x0[j]
    requires vx == vx0[n := Velocity(x[2 * n], ox[n], inv)] && vy == vy0[n := Velocity(x[2 * n + 1], oy[n], inv)]
    ensures Steered(vx, vy, x, ox, oy, inv, n + 1)
  {
    SteeredFrame(vx0, vy0, x0, ox, oy, vx, vy, x, inv, n);
  }

  /** The first n particles' positions and velocities: x and y interleaved. */
  function Interleave(xs: seq<real>, ys: seq<real>): (r: seq<real>)
    requires |xs| == |ys|
    ensures |r| == 2 * |xs|
    ensures forall t :: 0 <= t < |xs| ==> r[2 * t] == xs[t] && r[2 * t + 1] == ys[t]
  {
    if |xs| == 0 then [] else Interleave(xs[..|xs| - 1], ys[..|ys| - 1]) + [xs[|xs| - 1], ys[|ys| - 1]]
  }

  /** A buffer whose even entries are xs and odd entries ys is their
      interleaving. */
  lemma InterleaveOf(xs: seq<real>, ys: seq<real>, z: seq<real>)
    requires |xs| == |ys| && |z| == 2 * |xs|
    requires forall t :: 0 <= t < |xs| ==> z[2 * t] == xs[t] && z[2 * t + 1] == ys[t]
    ensures Interleave(xs, ys) == z
  {
    var r := Interleave(xs, ys);
    forall j | 0 <= j < |z|
      ensures r[j] == z[j]
    {
      var t := j / 2;
      if j % 2 == 0 {
        assert j == 2 * t;
        assert r[2 * t] == xs[t] == z[2 * t];
      } else {
        assert j == 2 * t + 1;
        assert r[2 * t + 1] == ys[t] == z[2 * t + 1];
      }
    }
  }

  /** A buffer whose pairs are the pairs of x moved by v is x integrated. */
  lemma MovedPairs(x: seq<real>, v: seq<real>, y: seq<real>, d: real)
    requires |x| == |v| == |y| && |x| % 2 == 0
    requires forall t :: 0 <= t < |x| / 2 ==>
               y[2 * t] == Moved(x[2 * t], v[2 * t], d) && y[2 * t + 1] == Moved(x[2 * t + 1], v[2 * t + 1], d)
    ensures y == Integrated(x, v, d)
  {
    forall j | 0 <= j < |y|
      ensures y[j] == Moved(x[j], v[j], d)
    {
      var t := j / 2;
      if j % 2 == 0 {
        assert j == 2 * t;
      } else {
        assert j == 2 * t + 1;
      }
    }
  }

  /** Pass 1 after its first i particles: each has its old position saved,
      its velocity kicked and its position moved; the rest are untouched. */
  ghost predicate PassOneUpTo(ox: seq<real>, oy: seq<real>, vx: seq<real>, vy: seq<real>, x: seq<real>,
                              x0: seq<real>, vx0: seq<real>, vy0: seq<real>, draws: seq<real>, d: real, i: nat)
    requires |ox| == |oy| == |vx| == |vy| == |vx0| == |vy0| && |x| == |x0| == 2 * |vx| && |draws| >= |x|
    requires i <= |vx|
  {
    (forall t :: 0 <= t < i ==> ox[t] == x0[2 * t] && oy[t] == x0[2 * t + 1]) &&
    (forall t :: 0 <= t < i ==>
       vx[t] == Kicked(vx0[t], draws[2 * t], 2 * t, d, RandomMotion, Gravity) &&
       vy[t] == Kicked(vy0[t], draws[2 * t + 1], 2 * t + 1, d, RandomMotion, Gravity)) &&
    (forall t :: 0 <= t < i ==> x[2 * t] == Moved(x0[2 * t], vx[t], d) && x[2 * t + 1] == Moved(x0[2 * t + 1], vy[t], d)) &&
    (forall t :: i <= t < |vx| ==> vx[t] == vx0[t] && vy[t] == vy0[t]) &&
    (forall j :: 2 * i <= j < |x| ==> x[j] == x0[j])
  }

  /** Pass 1 on particle i extends the account by one particle. */
  lemma PassOneStep(ox: seq<real>, oy: seq<real>, vx: seq<real>, vy: seq<real>, x: seq<real>,
                    ox': seq<real>, oy': seq<real>, vx': seq<real>, vy': seq<real>, x': seq<real>,
                    x0: seq<real>, vx0: seq<real>, vy0: seq<real>, draws: seq<real>, d: real, i: nat)
    requires |ox| == |oy| == |vx| == |vy| == |vx0| == |vy0| && |x| == |x0| == 2 * |vx| && |draws| >= |x|
    requires i < |vx| && PassOneUpTo(ox, oy, vx, vy, x, x0, vx0, vy0, draws, d, i)
    requires ox' == ox[i := x[2 * i]] && oy' == oy[i := x[2 * i + 1]]
    requires vx' == vx[i := Kicked(vx[i], draws[2 * i], 2 * i, d, RandomMotion, Gravity)]
    requires vy' == vy[i := Kicked(vy[i], draws[2 * i + 1], 2 * i + 1, d, RandomMotion, Gravity)]
    requires x' == x[2 * i := Moved(x[2 * i], vx'[i], d)][2 * i + 1 := Moved(x[2 * i + 1], vy'[i], d)]
    ensures PassOneUpTo(ox', oy', vx', vy', x', x0, vx0, vy0, draws, d, i + 1)
  {
  }

  /** After pass 1 over all particles, laid side by side, the old positions
      are the positions before, the velocities the kicked ones, and the
      positions those moved by the new velocities. */
  lemma PassOneDone(ox: seq<real>, oy: seq<real>, vx: seq<real>, vy: seq<real>, x: seq<real>,
                    x0: seq<real>, vx0: seq<real>, vy0: seq<real>, draws: seq<real>, d: real)
    requires |ox| == |oy| == |vx| == |vy| == |vx0| == |vy0| && |x| == |x0| == 2 * |vx| && |draws| >= |x|
    requires PassOneUpTo(ox, oy, vx, vy, x, x0, vx0, vy0, draws, d, |vx|)
    ensures Interleave(ox, oy) == x0
    ensures Interleave(vx, vy) == Kicks(Interleave(vx0, vy0), draws, d, RandomMotion, Gravity)
    ensures x == Integrated(x0, Interleave(vx, vy), d)
  {
    InterleaveOf(ox, oy, x0);
    var w := Interleave(vx0, vy0);
    var v := Kicks(w, draws, d, RandomMotion, Gravity);
    forall t | 0 <= t < |vx|
      ensures vx[t] == v[2 * t] && vy[t] == v[2 * t + 1]
    {
      assert w[2 * t] == vx0[t] && w[2 * t + 1] == vy0[t];
      assert v[2 * t] == Kicked(w[2 * t], draws[2 * t], 2 * t, d, RandomMotion, Gravity);
      assert v[2 * t + 1] == Kicked(w[2 * t + 1], draws[2 * t + 1], 2 * t + 1, d, RandomMotion, Gravity);
    }
    InterleaveOf(vx, vy, v);
    assert |x0| / 2 == |vx|;
    forall t | 0 <= t < |x0| / 2
      ensures x[2 * t] == Moved(x0[2 * t], v[2 * t], d) && x[2 * t + 1] == Moved(x0[2 * t + 1], v[2 * t + 1], d)
    {
    }
    MovedPairs(x0, v, x, d);
  }

  class Liquid {
    const width: nat
    const height: nat
    const count: nat

    var xy: array<real>
    var oldX: array<real>
    var oldY: array<real>
    var vx: array<real>
    var vy: array<real>
    var p: array<real>
    var pNear: array<real>
    var g: array<real>

    /** The buffers the constructor allocates, each of its own. */
    predicate Valid()
      reads this
    {
      xy.Length == 2 * count &&
      oldX.Length == count && oldY.Length == count && vx.Length == count && vy.Length == count &&
      p.Length == count && pNear.Length == count && g.Length == count &&
      xy != oldX && xy != oldY && xy != vx && xy != vy && xy != p && xy != pNear && xy != g &&
      oldX != oldY && oldX != vx && oldX != vy && oldX != p && oldX != pNear && oldX != g &&
      oldY != vx && oldY != vy && oldY != p && oldY != pNear && oldY != g &&
      vx != vy && vx != p && vx != pNear && vx != g &&
      vy != p && vy != pNear && vy != g &&
      p != pNear && p != g && pNear != g
    }

    /** `new Liquid(canvasEl, opts)`: the canvas size, `opts.count`
        particles (100 by default) and zeroed buffers. */
    constructor (canvas: Canvas, countOpt: Option<nat>)
      ensures width == canvas.width && height == canvas.height && count == Or(countOpt, 100)
      ensures Valid()
      ensures fresh(xy) && fresh(oldX) && fresh(oldY) && fresh(vx) && fresh(vy) && fresh(p) && fresh(pNear) && fresh(g)
    {
      width := canvas.width;
      height := canvas.height;
      var n := Or(countOpt, 100);
      count := n;
      xy := new real[2 * n](_ => 0.0);
      oldX := new real[n](_ => 0.0);
      oldY := new real[n](_ => 0.0);
      vx := new real[n](_ => 0.0);
      vy := new real[n](_ => 0.0);
      p := new real[n](_ => 0.0);
      pNear := new real[n](_ => 0.0);
      g := new real[n](_ => 0.0);
    }

    /** `init` past its WebGL setup, which throws when no context is
        available: the particle loop. */
    method Init(webgl: bool, draws: seq<real>) returns (ok: bool)
      requires Valid()
      requires |draws| >= 2 * count && forall j :: 0 <= j < |draws| ==> 0.0 <= draws[j] < 1.0
      modifies xy, oldX, oldY, vx, vy, p, pNear, g
      ensures ok == webgl
      ensures !ok ==> xy[..] == old(xy[..]) && vx[..] == old(vx[..]) && vy[..] == old(vy[..])
      ensures ok ==> forall j :: 0 <= j < 2 * count ==> xy[j] == Scaled(draws[j], Side(j, width as real, height as real))
      ensures ok ==> Inside(xy[..], width as real, height as real)
      ensures ok ==> forall t :: 0 <= t < count ==>
                       oldX[t] == 0.0 && oldY[t] == 0.0 && vx[t] == 0.0 && vy[t] == 0.0 &&
                       p[t] == 0.0 && pNear[t] == 0.0 && g[t] == 0.0
    {
      if !webgl {
        return false;
      }
      Spawn(draws);
      return true;
    }

    /** The particle loop of `init`: every particle at a random place on
        the canvas (x from the first draw of its pair, y from the second),
        everything else zero. */
    method Spawn(draws: seq<real>)
      requires Valid()
      requires |draws| >= 2 * count && forall j :: 0 <= j < |draws| ==> 0.0 <= draws[j] < 1.0
      modifies xy, oldX, oldY, vx, vy, p, pNear, g
      ensures forall j :: 0 <= j < 2 * count ==> xy[j] == Scaled(draws[j], Side(j, width as real, height as real))
      ensures Inside(xy[..], width as real, height as real)
      ensures forall j :: 0 <= j < 2 * count && 0.0 < Side(j, width as real, height as real) ==>
                xy[j] < Side(j, width as real, height as real)
      ensures forall t :: 0 <= t < count ==>
                oldX[t] == 0.0 && oldY[t] == 0.0 && vx[t] == 0.0 && vy[t] == 0.0 &&
                p[t] == 0.0 && pNear[t] == 0.0 && g[t] == 0.0
    {
      var w, h := width as real, height as real;
      for i := 0 to count
        invariant forall j :: 0 <= j < 2 * i ==> xy[j] == Scaled(draws[j], Side(j, w, h))
        invariant forall t :: 0 <= t < i ==>
                    oldX[t] == 0.0 && oldY[t] == 0.0 && vx[t] == 0.0 && vy[t] == 0.0 &&
                    p[t] == 0.0 && pNear[t] == 0.0 && g[t] == 0.0
      {
        xy[i * 2] := Scaled(draws[i * 2], w);
        xy[(i * 2) + 1] := Scaled(draws[(i * 2) + 1], h);
        oldX[i], oldY[i], vx[i], vy[i] := 0.0, 0.0, 0.0, 0.0;
        p[i], pNear[i], g[i] := 0.0, 0.0, 0.0;
      }
      forall j | 0 <= j < 2 * count
        ensures 0.0 <= xy[j] <= Side(j, w, h) && (0.0 < Side(j, w, h) ==> xy[j] < Side(j, w, h))
      {
        ScaledRange(draws[j], Side(j, w, h));
      }
    }

    // -------------------------------------------------------------------
    // Pass 1.

    /** Pass 1: remember every position, kick both velocity components
        (gravity on y only), then move the particle. Laid side by side, the
        velocities are those of the later fluid's pass 1, whose guards on
        the constants hold here. */
    method Integrate(d: real, draws: seq<real>)
      requires Valid() && |draws| >= 2 * count
      modifies xy, oldX, oldY, vx, vy
      ensures Interleave(oldX[..], oldY[..]) == old(xy[..])
      ensures Interleave(vx[..], vy[..]) == Kicks(Interleave(old(vx[..]), old(vy[..])), draws, d, RandomMotion, Gravity)
      ensures xy[..] == Integrated(old(xy[..]), Interleave(vx[..], vy[..]), d)
    {
      ghost var x0, vx0, vy0 := xy[..], vx[..], vy[..];
      for i := 0 to count
        invariant PassOneUpTo(oldX[..], oldY[..], vx[..], vy[..], xy[..], x0, vx0, vy0, draws, d, i)
      {
        ghost var ox, oy, vxs, vys, x := oldX[..], oldY[..], vx[..], vy[..], xy[..];
        IntegrateParticle(i, d, draws[2 * i], draws[2 * i + 1]);
        PassOneStep(ox, oy, vxs, vys, x, oldX[..], oldY[..], vx[..], vy[..], xy[..], x0, vx0, vy0, draws, d, i);
      }
      PassOneDone(oldX[..], oldY[..], vx[..], vy[..], xy[..], x0, vx0, vy0, draws, d);
    }

    /** Pass 1 for particle i with draws u and w. */
    method IntegrateParticle(i: nat, d: real, u: real, w: real)
      requires Valid() && i < count
      modifies xy, oldX, oldY, vx, vy
      ensures oldX[..] == old(oldX[..])[i := old(xy[2 * i])] && oldY[..] == old(oldY[..])[i := old(xy[2 * i + 1])]
      ensures vx[..] == old(vx[..])[i := Kicked(old(vx[i]), u, 2 * i, d, RandomMotion, Gravity)]
      ensures vy[..] == old(vy[..])[i := Kicked(old(vy[i]), w, 2 * i + 1, d, RandomMotion, Gravity)]
      ensures xy[..] == old(xy[..])[2 * i := Moved(old(xy[2 * i]), vx[i], d)]
                                   [2 * i + 1 := Moved(old(xy[2 * i + 1]), vy[i], d)]
    {
      var ix := i * 2;
      var iy := ix + 1;
      var x, y := xy[ix], xy[iy];
      oldX[i] := x;
      oldY[i] := y;
      var vxi := vx[i] + Jitter(u, RandomMotion, d);
      var vyi := vy[i] + Jitter(w, RandomMotion, d);
      vyi := vyi + Fall(Gravity, d);
      assert ix % 2 == 0 && iy % 2 == 1;
      vx[i] := vxi;
      vy[i] := vyi;
      xy[ix] := x + vxi * d;
      xy[iy] := y + vyi * d;
    }

    // -------------------------------------------------------------------
    // Pass 2.

    /** The scan for particle i's neighbours: every other particle within
        the radius, each with its weight recorded in `g`. */
    method FindNeighbours(i: nat, sqrt: real -> real) returns (neighbours: seq<nat>)
      requires Valid() && i < count
      modifies g
      ensures neighbours == CloseList(xy[..], i, count)
      ensures WeightsRecorded(g[..], neighbours, xy[..], i, InteractionRadius, sqrt)
    {
      neighbours := [];
      for k := 0 to count
        invariant neighbours == CloseList(xy[..], i, k)
        invariant WeightsRecorded(g[..], neighbours, xy[..], i, InteractionRadius, sqrt)
      {
        neighbours := Scan(i, k, neighbours, sqrt);
      }
    }

    /** One step of the scan: particle k is skipped when it is i or outside
        the circle, and otherwise recorded. */
    method Scan(i: nat, k: nat, neighbours: seq<nat>, sqrt: real -> real) returns (neighbours': seq<nat>)
      requires Valid() && i < count && k < count
      requires neighbours == CloseList(xy[..], i, k)
      requires WeightsRecorded(g[..], neighbours, xy[..], i, InteractionRadius, sqrt)
      modifies g
      ensures neighbours' == CloseList(xy[..], i, k + 1)
      ensures WeightsRecorded(g[..], neighbours', xy[..], i, InteractionRadius, sqrt)
    {
      neighbours' := neighbours;
      if k == i {
        return;
      }
      ghost var s := xy[..];
      var ix, kx := i * 2, k * 2;
      var lsq := Square(xy[ix] - xy[kx]) + Square(xy[ix + 1] - xy[kx + 1]);
      PowIsSqDist(s, i, k);
      if lsq > Square(InteractionRadius) {
        return;
      }
      var gk := Gradient(sqrt(lsq), InteractionRadius);
      assert gk == Weight(s, i, k, InteractionRadius, sqrt);
      WeightsRecordedAppend(g[..], neighbours, s, i, InteractionRadius, sqrt, k);
      g[k] := gk;
      neighbours' := neighbours + [k];
    }

    /** The density loop: the sums of the squared and cubed recorded
        weights of the neighbours. */
    method Densities(i: nat, neighbours: seq<nat>, ghost s: seq<real>, sqrt: real -> real)
      returns (density: real, nearDensity: real)
      requires Valid() && i < count && |s| == 2 * count
      requires forall m :: 0 <= m < |neighbours| ==> neighbours[m] < count
      requires WeightsRecorded(g[..], neighbours, s, i, InteractionRadius, sqrt)
      ensures density == Density(WeightsOf(s, i, neighbours, InteractionRadius, sqrt))
      ensures nearDensity == NearDensity(WeightsOf(s, i, neighbours, InteractionRadius, sqrt))
    {
      WeightsRecordedAt(g[..], neighbours, s, i, InteractionRadius, sqrt);
      density, nearDensity := 0.0, 0.0;
      for m := 0 to |neighbours|
        invariant density == Density(WeightsOf(s, i, neighbours[..m], InteractionRadius, sqrt))
        invariant nearDensity == NearDensity(WeightsOf(s, i, neighbours[..m], InteractionRadius, sqrt))
      {
        var gk := g[neighbours[m]];
        WeightsOfAppend(s, i, neighbours[..m], neighbours[m], InteractionRadius, sqrt);
        DensityAppend(WeightsOf(s, i, neighbours[..m], InteractionRadius, sqrt), gk);
        assert neighbours[..m + 1] == neighbours[..m] + [neighbours[m]];
        density := density + gk * gk;
        nearDensity := nearDensity + gk * gk * gk;
      }
      assert neighbours[..|neighbours|] == neighbours;
    }

    /** The relaxation loop for particle i over its neighbours, whose
        weights ws are recorded in `g`. */
    method Relax(i: nat, neighbours: seq<nat>, ghost ws: seq<real>, d: real, sqrt: real -> real)
      requires Valid() && i < count && |ws| == |neighbours|
      requires forall m :: 0 <= m < |neighbours| ==> neighbours[m] < count && g[neighbours[m]] == ws[m]
      modifies xy
      ensures xy[..] == Relaxed(old(xy[..]), i, neighbours, ws, p[i], pNear[i], d, |neighbours|, sqrt)
    {
      ghost var s := xy[..];
      var pi, pNeari := p[i], pNear[i];
      for n := 0 to |neighbours|
        invariant xy[..] == Relaxed(s, i, neighbours, ws, pi, pNeari, d, n, sqrt)
      {
        var k := neighbours[n];
        Shift(i, k, StepMagnitude(pi, pNeari, g[k], d), sqrt);
      }
    }

    /** One correction of magnitude m along the unit vector from particle i
        to particle k. */
    method Shift(i: nat, k: nat, m: real, sqrt: real -> real)
      requires Valid() && i < count && k < count
      modifies xy
      ensures xy[..] == RelaxStep(old(xy[..]), i, k, m, sqrt)
    {
      ghost var s := xy[..];
      var d := Along(xy[2 * k] - xy[2 * i], xy[2 * k + 1] - xy[2 * i + 1], m, sqrt);
      RelaxStepCorrects(s, i, k, m, sqrt);
      Correct(i, k, d.0, d.1);
    }

    /** One correction (dx, dy) between particles i and k: i moves by half
        of it backwards, k by half of it forwards. */
    method Correct(i: nat, k: nat, dx: real, dy: real)
      requires Valid() && i < count && k < count
      modifies xy
      ensures xy[..] == Corrected(old(xy[..]), i, k, dx, dy)
    {
      var ix, kx := i * 2, k * 2;
      xy[ix] := xy[ix] + dx * -0.5;
      xy[ix + 1] := xy[ix + 1] + dy * -0.5;
      xy[kx] := xy[kx] + dx * 0.5;
      xy[kx + 1] := xy[kx + 1] + dy * 0.5;
    }

    /** Pass 2 for particle i: its neighbours, its stored pressures, and its
        corrections against the neighbours. */
    method RelaxParticle(i: nat, d: real, sqrt: real -> real) returns (ghost neighbours: seq<nat>)
      requires Valid() && i < count
      modifies xy, p, pNear, g
      ensures neighbours == CloseList(old(xy[..]), i, count)
      ensures var ws := WeightsOf(old(xy[..]), i, neighbours, InteractionRadius, sqrt);
              p[i] == Stiffness * (Density(ws) - RestDensity) && pNear[i] == StiffnessNear * NearDensity(ws) &&
              xy[..] == Relaxed(old(xy[..]), i, neighbours, ws, p[i], pNear[i], d, |neighbours|, sqrt)
    {
      ghost var s := xy[..];
      var found := FindNeighbours(i, sqrt);
      neighbours := found;
      var density, nearDensity := Densities(i, found, s, sqrt);
      p[i] := Stiffness * (density - RestDensity);
      pNear[i] := StiffnessNear * nearDensity;
      ghost var ws := WeightsOf(s, i, found, InteractionRadius, sqrt);
      WeightsRecordedAt(g[..], found, s, i, InteractionRadius, sqrt);
      WeightsOfAt(s, i, found, InteractionRadius, sqrt);
      Relax(i, found, ws, d, sqrt);
    }

    /** Pass 2: each particle in turn relaxes against its neighbours; the
        sum of each axis over all particles is kept. */
    method Relaxation(d: real, sqrt: real -> real)
      requires Valid()
      modifies xy, p, pNear, g
      ensures AxisSum(xy[..], count, 0) == AxisSum(old(xy[..]), count, 0)
      ensures AxisSum(xy[..], count, 1) == AxisSum(old(xy[..]), count, 1)
    {
      for i := 0 to count
        invariant AxisSum(xy[..], count, 0) == AxisSum(old(xy[..]), count, 0)
        invariant AxisSum(xy[..], count, 1) == AxisSum(old(xy[..]), count, 1)
      {
        ghost var s := xy[..];
        ghost var l := RelaxParticle(i, d, sqrt);
        ghost var ws := WeightsOf(s, i, l, InteractionRadius, sqrt);
        RelaxedKeepsSums(s, count, i, l, ws, p[i], pNear[i], d, |l|, sqrt, 0);
        RelaxedKeepsSums(s, count, i, l, ws, p[i], pNear[i], d, |l|, sqrt, 1);
      }
    }

    // -------------------------------------------------------------------
    // Pass 3.

    /** Pass 3: clamp each particle into the canvas, then derive its
        velocity from where it started the step. */
    method Constrain(dTInv: real)
      requires Valid()
      modifies xy, vx, vy
      ensures xy[..] == Clamped(old(xy[..]), width as real, height as real)
      ensures forall t :: 0 <= t < count ==>
                vx[t] == Velocity(xy[2 * t], oldX[t], dTInv) && vy[t] == Velocity(xy[2 * t + 1], oldY[t], dTInv)
    {
      ghost var s0 := xy[..];
      for i := 0 to count
        invariant xy[..] == ClampedUpTo(s0, i, width as real, height as real)
        invariant Steered(vx[..], vy[..], xy[..], oldX[..], oldY[..], dTInv, i)
      {
        ghost var vx0, vy0, x0 := vx[..], vy[..], xy[..];
        ClampedUpToKeeps(s0, i, width as real, height as real, 2 * i);
        ClampedUpToKeeps(s0, i, width as real, height as real, 2 * i + 1);
        ConstrainParticle(i, dTInv);
        SteeredStep(vx0, vy0, x0, oldX[..], oldY[..], vx[..], vy[..], xy[..], dTInv, i);
      }
      ClampedUpToAll(s0, count, width as real, height as real);
      SteeredAt(vx[..], vy[..], xy[..], oldX[..], oldY[..], dTInv, count);
    }

    /** Pass 3 for particle i. */
    method ConstrainParticle(i: nat, dTInv: real)
      requires Valid() && i < count
      modifies xy, vx, vy
      ensures xy[..] == old(xy[..])[2 * i := Clamp(old(xy[2 * i]), width as real)]
                                   [2 * i + 1 := Clamp(old(xy[2 * i + 1]), height as real)]
      ensures vx[..] == old(vx[..])[i := Velocity(xy[2 * i], oldX[i], dTInv)]
      ensures vy[..] == old(vy[..])[i := Velocity(xy[2 * i + 1], oldY[i], dTInv)]
    {
      var ix := i * 2;
      var iy := ix + 1;
      var x, y := xy[ix], xy[iy];
      if x < 0.0 {
        x := 0.0;
      } else if x > width as real {
        x := width as real;
      }
      if y < 0.0 {
        y := 0.0;
      } else if y > height as real {
        y := height as real;
      }
      xy[ix], xy[iy] := x, y;
      vx[i] := Velocity(x, oldX[i], dTInv);
      vy[i] := Velocity(y, oldY[i], dTInv);
    }

    // -------------------------------------------------------------------

    /** `update(dT)`: a zero step changes nothing; otherwise the step,
        capped at 0.02, runs the three passes. Afterwards the old positions
        are where each particle started, the clamped positions keep the axis
        sums of the integrated ones before the clamp, every particle is on
        the canvas, and each velocity is the displacement over the step. */
    method Update(dT: real, draws: seq<real>, sqrt: real -> real)
      requires Valid() && |draws| >= 2 * count
      modifies xy, oldX, oldY, vx, vy, p, pNear, g
      ensures dT == 0.0 ==> xy[..] == old(xy[..]) && vx[..] == old(vx[..]) && vy[..] == old(vy[..]) &&
                            oldX[..] == old(oldX[..]) && oldY[..] == old(oldY[..])
      ensures dT != 0.0 ==>
                var d := Capped(dT);
                var moved := Integrated(old(xy[..]),
                                        Kicks(Interleave(old(vx[..]), old(vy[..])), draws, d, RandomMotion, Gravity), d);
                Interleave(oldX[..], oldY[..]) == old(xy[..]) &&
                (exists r :: |r| == 2 * count && xy[..] == Clamped(r, width as real, height as real) &&
                   AxisSum(r, count, 0) == AxisSum(moved, count, 0) &&
                   AxisSum(r, count, 1) == AxisSum(moved, count, 1)) &&
                Inside(xy[..], width as real, height as real) &&
                forall t :: 0 <= t < count ==>
                  vx[t] == Velocity(xy[2 * t], oldX[t], 1.0 / d) && vy[t] == Velocity(xy[2 * t + 1], oldY[t], 1.0 / d)
    {
      if dT == 0.0 {
        return;
      }
      var d := Capped(dT);
      var dTInv := 1.0 / d;
      Integrate(d, draws);
      Relaxation(d, sqrt);
      ghost var relaxed := xy[..];
      Constrain(dTInv);
      ClampedInside(relaxed, width as real, height as real);
    }
  }
}
