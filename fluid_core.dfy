// What the three particle-fluid integrators share: the time-step guard and
// cap, the square root they are handed, the interaction gradient, the
// density sums, the clamp to the container, velocity from displacement,
// and the per-axis position sums that an equal-and-opposite correction
// leaves alone.

module FluidCore {

  datatype Option<T> = None | Some(value: T)

  function Or<T>(o: Option<T>, fallback: T): T
  {
    if o.Some? then o.value else fallback
  }

  /** The canvas a liquid is drawn on: its size in pixels. */
  datatype Canvas = Canvas(width: nat, height: nat)

  /** The largest step `update` integrates; a longer one is cut to it. */
  const MaxStep: real := 0.02

  /** `if (dT > 0.02) dT = 0.02`: the step integrated. A step at or below
      the cap (a negative one included) is kept; a nonzero step stays
      nonzero. */
  function Capped(dT: real): (d: real)
    ensures d <= MaxStep
    ensures dT <= MaxStep ==> d == dT
    ensures dT > MaxStep ==> d == MaxStep
    ensures dT != 0.0 ==> d != 0.0
  {
    if dT > MaxStep then MaxStep else dT
  }

  /** What `Math.sqrt` is taken to be on the values it is given. */
  ghost predicate IsSqrt(sqrt: real -> real)
  {
    forall x :: 0.0 <= x ==> 0.0 <= sqrt(x) && sqrt(x) * sqrt(x) == x && (0.0 < x ==> 0.0 < sqrt(x))
  }

  /** A root of a square at most R * R is at most R. */
  lemma SqrtAtMost(sqrt: real -> real, sq: real, r: real)
    requires IsSqrt(sqrt) && 0.0 <= sq <= r * r && r >= 0.0
    ensures 0.0 <= sqrt(sq) <= r
  {
    var len := sqrt(sq);
    if len > r {
      SquareGrows(len, r);
      assert false;
    }
  }

  /** Squaring is strictly increasing on the non-negatives. */
  lemma SquareGrows(a: real, b: real)
    requires 0.0 <= b < a
    ensures b * b < a * a
  {
    var p, q := a - b, a + b;
    assert p > 0.0 && q > 0.0;
    assert p * q > 0.0;
    assert a * a - b * b == p * q;
  }

  /** The unique non-negative root of R * R is R. */
  lemma RootOfSquare(len: real, r: real)
    requires 0.0 <= len && 0.0 < r && len * len == r * r
    ensures len == r
  {
    if len < r {
      SquareGrows(r, len);
    } else if len > r {
      SquareGrows(len, r);
    }
  }

  function Abs(x: real): real
  {
    if x < 0.0 then -x else x
  }

  function Square(x: real): (r: real)
    ensures 0.0 <= r
  {
    x * x
  }

  /** `1 - len / R`, the weight of a neighbour at distance len. */
  function Gradient(len: real, r: real): real
    requires r != 0.0
  {
    1.0 - len / r
  }

  /** Within the radius the weight lies in [0, 1]: 1 at the particle
      itself, 0 exactly at the radius. */
  lemma GradientRange(len: real, r: real)
    requires r > 0.0 && 0.0 <= len <= r
    ensures 0.0 <= Gradient(len, r) <= 1.0
    ensures Gradient(len, r) == 0.0 <==> len == r
  {
    assert len / r <= 1.0 by {
      assert len / r * r == len;
    }
  }

  /** The squared distance between particles i and k of a flat buffer. */
  function SqDist(s: seq<real>, i: nat, k: nat): real
    requires 2 * i + 1 < |s| && 2 * k + 1 < |s|
  {
    Square(Abs(s[2 * i] - s[2 * k])) + Square(Abs(s[2 * i + 1] - s[2 * k + 1]))
  }

  /** `Math.sqrt(sq)`: the distance between particles i and k. */
  function Distance(s: seq<real>, i: nat, k: nat, sqrt: real -> real): real
    requires 2 * i + 1 < |s| && 2 * k + 1 < |s|
  {
    sqrt(SqDist(s, i, k))
  }

  /** `1 - len / R`, the weight of particle k seen from particle i; with a
      zero radius the division gives NaN, which no scan keeps. */
  function Weight(s: seq<real>, i: nat, k: nat, r: real, sqrt: real -> real): real
    requires 2 * i + 1 < |s| && 2 * k + 1 < |s|
  {
    if r != 0.0 then Gradient(Distance(s, i, k, sqrt), r) else 0.0
  }

  /** Inside the circle of radius R the distance is at most R and the
      weight lies in [0, 1], 0 exactly on the circle. */
  lemma WeightInRange(s: seq<real>, i: nat, k: nat, r: real, sqrt: real -> real)
    requires 2 * i + 1 < |s| && 2 * k + 1 < |s|
    requires IsSqrt(sqrt) && 0.0 < r && SqDist(s, i, k) <= Square(r)
    ensures 0.0 <= Distance(s, i, k, sqrt) <= r
    ensures 0.0 <= Weight(s, i, k, r, sqrt) <= 1.0
    ensures Weight(s, i, k, r, sqrt) == 0.0 <==> Distance(s, i, k, sqrt) == r
  {
    var sq := SqDist(s, i, k);
    assert 0.0 <= sq <= r * r;
    SqrtAtMost(sqrt, sq, r);
    GradientRange(sqrt(sq), r);
  }

  /** The weights of the particles of l seen from particle i, in order. */
  function WeightsOf(s: seq<real>, i: nat, l: seq<nat>, r: real, sqrt: real -> real): (ws: seq<real>)
    requires 2 * i + 1 < |s| && forall m :: 0 <= m < |l| ==> 2 * l[m] + 1 < |s|
    ensures |ws| == |l|
  {
    if l == [] then [] else WeightsOf(s, i, l[..|l| - 1], r, sqrt) + [Weight(s, i, l[|l| - 1], r, sqrt)]
  }

  /** Each weight belongs to the particle at the same place in l. */
  lemma {:induction false} WeightsOfAt(s: seq<real>, i: nat, l: seq<nat>, r: real, sqrt: real -> real)
    requires 2 * i + 1 < |s| && forall m :: 0 <= m < |l| ==> 2 * l[m] + 1 < |s|
    ensures forall m :: 0 <= m < |l| ==> WeightsOf(s, i, l, r, sqrt)[m] == Weight(s, i, l[m], r, sqrt)
  {
    if l != [] {
      WeightsOfAt(s, i, l[..|l| - 1], r, sqrt);
    }
  }

  /** One more particle, one more weight. */
  lemma WeightsOfAppend(s: seq<real>, i: nat, l: seq<nat>, k: nat, r: real, sqrt: real -> real)
    requires 2 * i + 1 < |s| && 2 * k + 1 < |s| && forall m :: 0 <= m < |l| ==> 2 * l[m] + 1 < |s|
    ensures WeightsOf(s, i, l + [k], r, sqrt) == WeightsOf(s, i, l, r, sqrt) + [Weight(s, i, k, r, sqrt)]
  {
    assert (l + [k])[..|l|] == l;
  }

  /** Particle k counts as a neighbour of particle i for radius R: another
      particle, within R along both axes and inside the circle, with a
      weight that is neither 0 nor NaN (a zero radius makes it NaN). */
  predicate Interacts(s: seq<real>, i: nat, k: nat, r: real, sqrt: real -> real)
    requires 2 * i + 1 < |s| && 2 * k + 1 < |s|
  {
    k != i &&
    Abs(s[2 * i] - s[2 * k]) <= r && Abs(s[2 * i + 1] - s[2 * k + 1]) <= r &&
    SqDist(s, i, k) <= Square(r) &&
    r != 0.0 && Weight(s, i, k, r, sqrt) != 0.0
  }

  /** The neighbours of particle i among the first n, in index order. */
  function NeighbourList(s: seq<real>, i: nat, n: nat, r: real, sqrt: real -> real): (l: seq<nat>)
    requires 2 * i + 1 < |s| && 2 * n <= |s|
    ensures forall m :: 0 <= m < |l| ==> l[m] < n && l[m] != i
  {
    if n == 0 then []
    else NeighbourList(s, i, n - 1, r, sqrt) + (if Interacts(s, i, n - 1, r, sqrt) then [n - 1] else [])
  }

  /** The neighbour list holds only interacting particles, each once and
      in increasing order, and never i itself, so there are at most n - 1
      of them when i is among the first n. */
  lemma {:induction false} NeighbourListFacts(s: seq<real>, i: nat, n: nat, r: real, sqrt: real -> real)
    requires 2 * i + 1 < |s| && 2 * n <= |s|
    ensures var l := NeighbourList(s, i, n, r, sqrt);
            (forall m :: 0 <= m < |l| ==> Interacts(s, i, l[m], r, sqrt)) &&
            (forall a, b :: 0 <= a < b < |l| ==> l[a] < l[b])
    ensures |NeighbourList(s, i, n, r, sqrt)| <= if i < n then n - 1 else n
  {
    if n > 0 {
      NeighbourListFacts(s, i, n - 1, r, sqrt);
    }
  }

  /** ... and every interacting particle among the first n is on it. */
  lemma {:induction false} NeighbourListComplete(s: seq<real>, i: nat, n: nat, r: real, sqrt: real -> real)
    requires 2 * i + 1 < |s| && 2 * n <= |s|
    ensures forall k :: 0 <= k < n && Interacts(s, i, k, r, sqrt) ==> k in NeighbourList(s, i, n, r, sqrt)
  {
    if n > 0 {
      NeighbourListComplete(s, i, n - 1, r, sqrt);
    }
  }

  /** A neighbour's distance is at most the radius and its weight lies in
      (0, 1]. */
  lemma NeighbourWeight(s: seq<real>, i: nat, k: nat, r: real, sqrt: real -> real)
    requires 2 * i + 1 < |s| && 2 * k + 1 < |s|
    requires IsSqrt(sqrt) && Interacts(s, i, k, r, sqrt)
    ensures 0.0 <= Distance(s, i, k, sqrt) <= r
    ensures 0.0 < Weight(s, i, k, r, sqrt) <= 1.0
  {
    WeightInRange(s, i, k, r, sqrt);
  }

  /** Every weight of a neighbour list is in (0, 1], so both densities of
      a particle lie between 0 and its number of neighbours, at most
      n - 1 among n particles, and the near density never exceeds the
      density. */
  lemma NeighbourDensities(s: seq<real>, i: nat, n: nat, r: real, sqrt: real -> real)
    requires |s| == 2 * n && i < n && IsSqrt(sqrt)
    ensures var ws := WeightsOf(s, i, NeighbourList(s, i, n, r, sqrt), r, sqrt);
            0.0 <= NearDensity(ws) <= Density(ws) <= (n - 1) as real
  {
    var l := NeighbourList(s, i, n, r, sqrt);
    NeighbourListFacts(s, i, n, r, sqrt);
    var ws := WeightsOf(s, i, l, r, sqrt);
    WeightsOfAt(s, i, l, r, sqrt);
    forall m | 0 <= m < |ws|
      ensures 0.0 <= ws[m] <= 1.0
    {
      NeighbourWeight(s, i, l[m], r, sqrt);
    }
    DensityBounds(ws);
  }

  /** A scan's record of weights: gs holds, at each particle of l, that
      particle's weight seen from particle i. Stated by recursion so that a
      scan can extend it one neighbour at a time. */
  ghost predicate WeightsRecorded(gs: seq<real>, l: seq<nat>, s: seq<real>, i: nat, r: real, sqrt: real -> real)
    requires 2 * i + 1 < |s| && forall m :: 0 <= m < |l| ==> l[m] < |gs| && 2 * l[m] + 1 < |s|
  {
    l == [] ||
    (WeightsRecorded(gs, l[..|l| - 1], s, i, r, sqrt) && gs[l[|l| - 1]] == Weight(s, i, l[|l| - 1], r, sqrt))
  }

  /** The record, neighbour by neighbour. */
  lemma {:induction false} WeightsRecordedAt(gs: seq<real>, l: seq<nat>, s: seq<real>, i: nat, r: real,
                                             sqrt: real -> real)
    requires 2 * i + 1 < |s| && forall m :: 0 <= m < |l| ==> l[m] < |gs| && 2 * l[m] + 1 < |s|
    requires WeightsRecorded(gs, l, s, i, r, sqrt)
    ensures forall m :: 0 <= m < |l| ==> gs[l[m]] == Weight(s, i, l[m], r, sqrt)
  {
    if l != [] {
      WeightsRecordedAt(gs, l[..|l| - 1], s, i, r, sqrt);
    }
  }

  /** Writing the weight of a particle beyond every recorded one keeps the
      record. */
  lemma {:induction false} WeightsRecordedFrame(gs: seq<real>, l: seq<nat>, s: seq<real>, i: nat, r: real,
                                                sqrt: real -> real, k: nat, gk: real)
    requires 2 * i + 1 < |s| && k < |gs| && forall m :: 0 <= m < |l| ==> l[m] < k && 2 * l[m] + 1 < |s|
    requires WeightsRecorded(gs, l, s, i, r, sqrt)
    ensures WeightsRecorded(gs[k := gk], l, s, i, r, sqrt)
  {
    if l != [] {
      WeightsRecordedFrame(gs, l[..|l| - 1], s, i, r, sqrt, k, gk);
    }
  }

  /** Recording the next neighbour with its weight extends the record. */
  lemma WeightsRecordedAppend(gs: seq<real>, l: seq<nat>, s: seq<real>, i: nat, r: real,
                              sqrt: real -> real, k: nat)
    requires 2 * i + 1 < |s| && 2 * k + 1 < |s| && k < |gs|
    requires forall m :: 0 <= m < |l| ==> l[m] < k && 2 * l[m] + 1 < |s|
    requires WeightsRecorded(gs, l, s, i, r, sqrt)
    ensures WeightsRecorded(gs[k := Weight(s, i, k, r, sqrt)], l + [k], s, i, r, sqrt)
  {
    WeightsRecordedFrame(gs, l, s, i, r, sqrt, k, Weight(s, i, k, r, sqrt));
    assert (l + [k])[..|l|] == l;
  }

  /** `density`: the sum of the squared weights. */
  function Density(gs: seq<real>): real
  {
    if |gs| == 0 then 0.0 else Density(gs[..|gs| - 1]) + gs[|gs| - 1] * gs[|gs| - 1]
  }

  /** `nearDensity`: the sum of the cubed weights. */
  function NearDensity(gs: seq<real>): real
  {
    if |gs| == 0 then 0.0
    else NearDensity(gs[..|gs| - 1]) + gs[|gs| - 1] * gs[|gs| - 1] * gs[|gs| - 1]
  }

  /** Both densities are sums of non-negative terms when every weight is
      in [0, 1], and the near density never exceeds the density. */
  lemma {:induction false} DensityBounds(gs: seq<real>)
    requires forall n :: 0 <= n < |gs| ==> 0.0 <= gs[n] <= 1.0
    ensures 0.0 <= NearDensity(gs) <= Density(gs) <= |gs| as real
  {
    if |gs| > 0 {
      DensityBounds(gs[..|gs| - 1]);
      var g := gs[|gs| - 1];
      assert 0.0 <= g * g <= 1.0 by {
        assert g * g <= g * 1.0;
      }
      assert 0.0 <= g * g * g <= g * g by {
        assert g * g * g <= g * g * 1.0;
      }
    }
  }

  /** The density after one more weight. */
  lemma DensityAppend(gs: seq<real>, g: real)
    ensures Density(gs + [g]) == Density(gs) + g * g
    ensures NearDensity(gs + [g]) == NearDensity(gs) + g * g * g
  {
    assert (gs + [g])[..|gs|] == gs;
  }

  /** `x < 0 ? 0 : x > hi ? hi : x`: the clamp into the container. */
  function Clamp(x: real, hi: real): (r: real)
    ensures 0.0 <= hi ==> 0.0 <= r <= hi
    ensures 0.0 <= x <= hi ==> r == x
  {
    if x < 0.0 then 0.0 else if x > hi then hi else x
  }

  /** The container's extent along the axis of flat-buffer index j: the
      width at even (x) indices, the height at odd (y) ones. */
  function Side(j: nat, w: real, h: real): real
  {
    if j % 2 == 0 then w else h
  }

  /** Every coordinate lies inside the w by h container. */
  predicate Inside(s: seq<real>, w: real, h: real)
  {
    forall j :: 0 <= j < |s| ==> 0.0 <= s[j] <= Side(j, w, h)
  }

  /** Every coordinate clamped into the container. */
  function Clamped(s: seq<real>, w: real, h: real): (r: seq<real>)
    ensures |r| == |s|
  {
    seq(|s|, j requires 0 <= j < |s| => Clamp(s[j], Side(j, w, h)))
  }

  /** The clamp puts every coordinate inside the container and leaves a
      buffer that is already inside it as it was. */
  lemma ClampedInside(s: seq<real>, w: real, h: real)
    requires 0.0 <= w && 0.0 <= h
    ensures Inside(Clamped(s, w, h), w, h)
    ensures Inside(s, w, h) ==> Clamped(s, w, h) == s
  {
    var r := Clamped(s, w, h);
    forall j | 0 <= j < |s|
      ensures 0.0 <= r[j] <= Side(j, w, h)
      ensures 0.0 <= s[j] <= Side(j, w, h) ==> r[j] == s[j]
    {
    }
  }

  /** The buffer with its first n particles clamped, one at a time as the
      clamp loop goes. */
  function ClampedUpTo(s: seq<real>, n: nat, w: real, h: real): (r: seq<real>)
    requires 2 * n <= |s|
    ensures |r| == |s|
  {
    if n == 0 then s
    else
      var r := ClampedUpTo(s, n - 1, w, h);
      r[2 * (n - 1) := Clamp(s[2 * (n - 1)], w)][2 * (n - 1) + 1 := Clamp(s[2 * (n - 1) + 1], h)]
  }

  /** Clamping particle by particle clamps the first 2n entries. */
  lemma {:induction false} ClampedUpToAt(s: seq<real>, n: nat, w: real, h: real)
    requires 2 * n <= |s|
    ensures forall j :: 0 <= j < 2 * n ==> ClampedUpTo(s, n, w, h)[j] == Clamp(s[j], Side(j, w, h))
  {
    if n > 0 {
      ClampedUpToAt(s, n - 1, w, h);
      assert Side(2 * (n - 1), w, h) == w;
      assert Side(2 * (n - 1) + 1, w, h) == h;
    }
  }

  /** ... and leaves the rest. */
  lemma {:induction false} ClampedUpToKeeps(s: seq<real>, n: nat, w: real, h: real, j: nat)
    requires 2 * n <= j < |s|
    ensures ClampedUpTo(s, n, w, h)[j] == s[j]
  {
    if n > 0 {
      ClampedUpToKeeps(s, n - 1, w, h, j);
    }
  }

  /** Once every particle is done, the loop's buffer is the clamped one. */
  lemma ClampedUpToAll(s: seq<real>, n: nat, w: real, h: real)
    requires 2 * n == |s|
    ensures ClampedUpTo(s, n, w, h) == Clamped(s, w, h)
  {
    ClampedUpToAt(s, n, w, h);
  }

  /** `getApproximateUnitVector(x, y)`: (x, y) divided by its length. The
      zero vector, whose division gives NaN, is left at zero here. */
  function UnitVector(x: real, y: real, sqrt: real -> real): (real, real)
  {
    var len := sqrt(x * x + y * y);
    if len == 0.0 then (0.0, 0.0) else (x / len, y / len)
  }

  /** A vector other than zero has a positive squared length. */
  lemma SumOfSquaresPositive(x: real, y: real)
    requires x != 0.0 || y != 0.0
    ensures 0.0 < x * x + y * y
  {
    assert 0.0 <= x * x by { assert 0.0 <= Square(x); }
    assert 0.0 <= y * y by { assert 0.0 <= Square(y); }
    if x != 0.0 {
      SquarePositive(x);
    } else {
      SquarePositive(y);
    }
  }

  lemma SquarePositive(x: real)
    requires x != 0.0
    ensures 0.0 < x * x
  {
    if x < 0.0 {
      assert x * x == (-x) * (-x);
    }
  }

  /** A nonzero vector has a positive length, and its unit vector scaled
      back by that length is the vector again. */
  lemma UnitVectorScalesBack(x: real, y: real, sqrt: real -> real)
    requires IsSqrt(sqrt) && (x != 0.0 || y != 0.0)
    ensures var u, len := UnitVector(x, y, sqrt), sqrt(x * x + y * y);
            0.0 < len && u.0 * len == x && u.1 * len == y
  {
    SumOfSquaresPositive(x, y);
  }

  /** The unit vector of (x, y) scaled by m. */
  function Along(x: real, y: real, m: real, sqrt: real -> real): (real, real)
  {
    var u := UnitVector(x, y, sqrt);
    (u.0 * m, u.1 * m)
  }

  /** Scaling the unit vector by the vector's own length times f gives the
      vector times f. */
  lemma AlongScalesBack(x: real, y: real, f: real, sqrt: real -> real)
    requires IsSqrt(sqrt) && (x != 0.0 || y != 0.0)
    ensures Along(x, y, sqrt(x * x + y * y) * f, sqrt).0 == x * f
    ensures Along(x, y, sqrt(x * x + y * y) * f, sqrt).1 == y * f
  {
    var len := sqrt(x * x + y * y);
    UnitVectorScalesBack(x, y, sqrt);
    assert UnitVector(x, y, sqrt).0 * (len * f) == (UnitVector(x, y, sqrt).0 * len) * f;
    assert UnitVector(x, y, sqrt).1 * (len * f) == (UnitVector(x, y, sqrt).1 * len) * f;
  }

  /** `(xy - xyOld) * dTInv`. */
  function Velocity(x: real, start: real, inv: real): real
  {
    (x - start) * inv
  }

  /** A velocity re-derived from the step's displacement carries the
      particle from where it started to where it ended. */
  lemma VelocityCarries(x: real, start: real, d: real)
    requires d != 0.0
    ensures start + Velocity(x, start, 1.0 / d) * d == x
  {
    assert (x - start) * (1.0 / d) * d == x - start;
  }

  /** The first n velocities are re-derived from the displacements: each is
      (x - o) * inv. Stated by recursion so that a loop can extend it one
      entry at a time. */
  ghost predicate Rederived(v: seq<real>, x: seq<real>, o: seq<real>, inv: real, n: nat)
    requires n <= |v| && n <= |x| && n <= |o|
  {
    n == 0 || (Rederived(v, x, o, inv, n - 1) && v[n - 1] == Velocity(x[n - 1], o[n - 1], inv))
  }

  /** Re-derived velocities, entry by entry. */
  lemma {:induction false} RederivedAt(v: seq<real>, x: seq<real>, o: seq<real>, inv: real, n: nat)
    requires n <= |v| && n <= |x| && n <= |o| && Rederived(v, x, o, inv, n)
    ensures forall j :: 0 <= j < n ==> v[j] == Velocity(x[j], o[j], inv)
  {
    if n > 0 {
      RederivedAt(v, x, o, inv, n - 1);
    }
  }

  /** Only the first n entries matter. */
  lemma {:induction false} RederivedFrame(v: seq<real>, x: seq<real>, o: seq<real>,
                                          v': seq<real>, x': seq<real>, o': seq<real>, inv: real, n: nat)
    requires n <= |v| && n <= |x| && n <= |o| && n <= |v'| && n <= |x'| && n <= |o'|
    requires forall j :: 0 <= j < n ==> v[j] == v'[j] && x[j] == x'[j] && o[j] == o'[j]
    requires Rederived(v, x, o, inv, n)
    ensures Rederived(v', x', o', inv, n)
  {
    if n > 0 {
      RederivedFrame(v, x, o, v', x', o', inv, n - 1);
    }
  }

  /** Re-deriving the next two velocities extends the re-derived prefix. */
  lemma RederivedPair(v0: seq<real>, x0: seq<real>, o: seq<real>, v: seq<real>, x: seq<real>,
                      inv: real, n: nat)
    requires n + 2 <= |v0| == |v| && n + 2 <= |x0| == |x| && n + 2 <= |o|
    requires Rederived(v0, x0, o, inv, n)
    requires forall j :: 0 <= j < n ==> x[j] == x0[j]
    requires v == v0[n := Velocity(x[n], o[n], inv)][n + 1 := Velocity(x[n + 1], o[n + 1], inv)]
    ensures Rederived(v, x, o, inv, n + 2)
  {
    RederivedFrame(v0, x0, o, v, x, o, inv, n);
  }

  /** `(Math.random() - 0.5) * RANDOM_MOTION * dT * 2`. */
  function Jitter(u: real, motion: real, d: real): real
  {
    (u - 0.5) * motion * d * 2.0
  }

  /** `GRAVITY * dT`. */
  function Fall(gravity: real, d: real): real
  {
    gravity * d
  }

  /** `x + v * dT`. */
  function Moved(x: real, v: real, d: real): real
  {
    x + v * d
  }

  /** A velocity component after pass 1's random kick (when random motion
      is on) and gravity (when on, and only along y, the odd indices). */
  function Kicked(v: real, u: real, j: nat, d: real, motion: real, gravity: real): real
  {
    var v1 := if motion != 0.0 then v + Jitter(u, motion, d) else v;
    if gravity != 0.0 && j % 2 > 0 then v1 + Fall(gravity, d) else v1
  }

  /** Gravity acts along y only: without random motion an x component is
      kept and a y component gains gravity times the step. */
  lemma GravityAlongY(v: real, u: real, j: nat, d: real, gravity: real)
    ensures j % 2 == 0 ==> Kicked(v, u, j, d, 0.0, gravity) == v
    ensures j % 2 == 1 ==> Kicked(v, u, j, d, 0.0, gravity) == v + Fall(gravity, d)
  {
  }

  /** The velocities after pass 1, one draw per component. */
  function Kicks(v: seq<real>, draws: seq<real>, d: real, motion: real, gravity: real): (r: seq<real>)
    requires |draws| >= |v|
    ensures |r| == |v|
  {
    seq(|v|, j requires 0 <= j < |v| => Kicked(v[j], draws[j], j, d, motion, gravity))
  }

  /** The positions after pass 1: each moved by its new velocity. */
  function Integrated(x: seq<real>, v: seq<real>, d: real): (r: seq<real>)
    requires |v| == |x|
    ensures |r| == |x|
  {
    seq(|x|, j requires 0 <= j < |x| => Moved(x[j], v[j], d))
  }

  /** `u * scale` for a draw `u` in [0, 1). */
  function Scaled(u: real, scale: real): real
  {
    u * scale
  }

  /** A draw in [0, 1) scaled by a non-negative length lies in [0, length),
      and at 0 for a zero length. */
  lemma ScaledRange(u: real, scale: real)
    requires 0.0 <= u < 1.0 && 0.0 <= scale
    ensures 0.0 <= Scaled(u, scale) <= scale
    ensures 0.0 < scale ==> Scaled(u, scale) < scale
  {
    assert u * scale <= 1.0 * scale;
    if 0.0 < scale {
      assert u * scale < 1.0 * scale;
    }
  }

  /** The sum of coordinate c (0 for x, 1 for y) over the first n particles
      of a flat xy buffer. */
  function AxisSum(s: seq<real>, n: nat, c: nat): real
    requires c < 2 && 2 * n <= |s|
  {
    if n == 0 then 0.0 else AxisSum(s, n - 1, c) + s[2 * (n - 1) + c]
  }

  /** Adding u to one entry of the buffer adds u to its own axis's sum and
      nothing to the other's. */
  lemma {:induction false} AxisSumUpdate(s: seq<real>, n: nat, c: nat, idx: nat, u: real)
    requires c < 2 && 2 * n <= |s| && idx < 2 * n
    ensures AxisSum(s[idx := s[idx] + u], n, c) ==
            AxisSum(s, n, c) + (if idx % 2 == c then u else 0.0)
  {
    if n > 0 {
      var s' := s[idx := s[idx] + u];
      if idx < 2 * (n - 1) {
        AxisSumUpdate(s, n - 1, c, idx, u);
        assert s'[2 * (n - 1) + c] == s[2 * (n - 1) + c];
      } else {
        AxisSumFrame(s, s', n - 1, c);
        if idx == 2 * (n - 1) + c {
          assert s'[idx] == s[idx] + u;
        } else {
          assert s'[2 * (n - 1) + c] == s[2 * (n - 1) + c];
        }
      }
    }
  }

  /** Sums over particles whose coordinates agree are equal. */
  lemma {:induction false} AxisSumFrame(s: seq<real>, t: seq<real>, n: nat, c: nat)
    requires c < 2 && 2 * n <= |s| && 2 * n <= |t|
    requires forall j :: 0 <= j < 2 * n ==> s[j] == t[j]
    ensures AxisSum(s, n, c) == AxisSum(t, n, c)
  {
    if n > 0 {
      AxisSumFrame(s, t, n - 1, c);
    }
  }

  /** One relaxation correction: particle i moves by -d/2 and particle k by
      +d/2 along both axes. */
  function Corrected(s: seq<real>, i: nat, k: nat, dx: real, dy: real): (t: seq<real>)
    requires 2 * i + 1 < |s| && 2 * k + 1 < |s|
    ensures |t| == |s|
  {
    var s1 := s[2 * i := s[2 * i] + dx * -0.5];
    var s2 := s1[2 * i + 1 := s1[2 * i + 1] + dy * -0.5];
    var s3 := s2[2 * k := s2[2 * k] + dx * 0.5];
    s3[2 * k + 1 := s3[2 * k + 1] + dy * 0.5]
  }

  /** An equal-and-opposite correction between two distinct particles keeps
      their pairwise coordinate sums and leaves every other particle where
      it was. */
  lemma CorrectedPairs(s: seq<real>, i: nat, k: nat, dx: real, dy: real)
    requires 2 * i + 1 < |s| && 2 * k + 1 < |s| && i != k
    ensures var t := Corrected(s, i, k, dx, dy);
            t[2 * i] + t[2 * k] == s[2 * i] + s[2 * k] &&
            t[2 * i + 1] + t[2 * k + 1] == s[2 * i + 1] + s[2 * k + 1]
    ensures var t := Corrected(s, i, k, dx, dy);
            forall j :: 0 <= j < |s| && j != 2 * i && j != 2 * i + 1 && j != 2 * k && j != 2 * k + 1 ==>
              t[j] == s[j]
  {
  }

  /** The same correction keeps the sum of each axis over all particles:
      the relaxation never moves the fluid's centre of mass. */
  lemma CorrectedKeepsSums(s: seq<real>, n: nat, c: nat, i: nat, k: nat, dx: real, dy: real)
    requires 2 * n <= |s| && c < 2 && i < n && k < n && i != k
    ensures AxisSum(Corrected(s, i, k, dx, dy), n, c) == AxisSum(s, n, c)
  {
    var s1 := s[2 * i := s[2 * i] + dx * -0.5];
    var s2 := s1[2 * i + 1 := s1[2 * i + 1] + dy * -0.5];
    var s3 := s2[2 * k := s2[2 * k] + dx * 0.5];
    var s4 := s3[2 * k + 1 := s3[2 * k + 1] + dy * 0.5];
    assert (2 * i) % 2 == 0 && (2 * k) % 2 == 0;
    assert (2 * i + 1) % 2 == 1 && (2 * k + 1) % 2 == 1;
    AxisSumUpdate(s, n, c, 2 * i, dx * -0.5);
    AxisSumUpdate(s1, n, c, 2 * i + 1, dy * -0.5);
    AxisSumUpdate(s2, n, c, 2 * k, dx * 0.5);
    AxisSumUpdate(s3, n, c, 2 * k + 1, dy * 0.5);
    assert Corrected(s, i, k, dx, dy) == s4;
  }

  /** One correction of magnitude m along the unit vector from particle i
      to particle k: i moves by half of it backwards, k by half of it
      forwards. */
  function RelaxStep(t: seq<real>, i: nat, k: nat, m: real, sqrt: real -> real): (r: seq<real>)
    requires 2 * i + 1 < |t| && 2 * k + 1 < |t|
    ensures |r| == |t|
  {
    var d := Along(t[2 * k] - t[2 * i], t[2 * k + 1] - t[2 * i + 1], m, sqrt);
    Corrected(t, i, k, d.0, d.1)
  }

  /** The step is the correction by the scaled unit vector between the
      two particles. */
  lemma RelaxStepCorrects(t: seq<real>, i: nat, k: nat, m: real, sqrt: real -> real)
    requires 2 * i + 1 < |t| && 2 * k + 1 < |t|
    ensures var d := Along(t[2 * k] - t[2 * i], t[2 * k + 1] - t[2 * i + 1], m, sqrt);
            RelaxStep(t, i, k, m, sqrt) == Corrected(t, i, k, d.0, d.1)
  {
  }

  /** A correction between two distinct particles keeps the sum of each
      axis, whatever its direction. */
  lemma RelaxStepKeepsSums(t: seq<real>, count: nat, c: nat, i: nat, k: nat, m: real, sqrt: real -> real)
    requires |t| == 2 * count && i < count && k < count && i != k && c < 2
    ensures AxisSum(RelaxStep(t, i, k, m, sqrt), count, c) == AxisSum(t, count, c)
  {
    var d := Along(t[2 * k] - t[2 * i], t[2 * k + 1] - t[2 * i + 1], m, sqrt);
    CorrectedKeepsSums(t, count, c, i, k, d.0, d.1);
  }
}
