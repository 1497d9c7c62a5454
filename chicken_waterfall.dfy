// The chicken-cave waterfall: an "update" entity that counts down a spawn
// timer by the elapsed time and, each time it runs out, rewinds it by the
// spawn interval and gives every particle entity one water particle.

module ChickenWaterfall {

  import ChickenParticles

  datatype Option<T> = None | Some(value: T)

  function Or(o: Option<real>, d: real): real
  {
    if o.Some? then o.value else d
  }

  /** The constructor's options; a missing one takes its default. */
  datatype Options = Options(x: Option<real>, y: Option<real>, xv: Option<real>, yv: Option<real>,
                             xRange: Option<real>, yRange: Option<real>, rate: Option<real>)

  /** One `particle.spawn(type, x, y, xv, yv)` call. */
  datatype SpawnCall = SpawnCall(t: int, x: int, y: int, xv: real, yv: real)

  /** The two random draws a spawn may take for one particle entity, each
      in [0, 1). */
  datatype Draw = Draw(rx: real, ry: real)

  /** The random offset along one axis: the draw times the range when the
      range is non-zero, nothing otherwise. */
  function Jitter(range: real, u: real): real
  {
    if range != 0.0 then u * range else 0.0
  }

  /** The timer after `n` rewinds from `start`. */
  function After(start: real, rate: real, n: int): real
  {
    start + n as real * rate
  }

  /** How many times `update`'s loop runs for a timer at `start`. */
  function SpawnCount(start: real, rate: real): int
    requires rate > 0.0
  {
    if start >= 0.0 then 0 else -(start / rate).Floor
  }

  lemma MulLe(a: real, b: real, c: real)
    requires a <= b && c > 0.0
    ensures a * c <= b * c
  {
  }

  /** Bounds on a quotient carry over to the dividend. */
  lemma DivBounds(start: real, rate: real, lo: real, hi: real)
    requires rate > 0.0 && lo <= start / rate < hi
    ensures lo * rate <= start < hi * rate
  {
    var d := start / rate;
    assert d * rate == start;
    MulLe(lo, d, rate);
    MulLe(d, hi, rate);
  }

  /** The loop runs the least number of times that brings the timer back
      to zero or above. */
  lemma SpawnCountIsLeast(start: real, rate: real)
    requires rate > 0.0
    ensures SpawnCount(start, rate) >= 0
    ensures After(start, rate, SpawnCount(start, rate)) >= 0.0
    ensures forall j :: 0 <= j < SpawnCount(start, rate) ==> After(start, rate, j) < 0.0
  {
    if start < 0.0 {
      var d := start / rate;
      var q := d.Floor;
      var n := -q;
      var lo, hi := q as real, (q + 1) as real;
      assert lo <= d < hi;
      DivBounds(start, rate, lo, hi);
      assert d < 0.0;
      assert n >= 1;
      assert After(start, rate, n) == start - q as real * rate;
      forall j | 0 <= j < n
        ensures After(start, rate, j) < 0.0
      {
        MulLe(j as real, (n - 1) as real, rate);
        assert (n - 1) as real * rate == -(hi * rate);
      }
    }
  }

  /** A timer within [0, rate] before a non-negative step stays within
      [0, rate] after the loop. */
  lemma NextStaysWithinRate(next: real, dT: real, rate: real)
    requires rate > 0.0 && 0.0 <= next <= rate && dT >= 0.0
    ensures var n := SpawnCount(next - dT, rate);
            0.0 <= After(next - dT, rate, n) <= rate
  {
    var start := next - dT;
    var n := SpawnCount(start, rate);
    SpawnCountIsLeast(start, rate);
    if n > 0 {
      assert After(start, rate, n - 1) < 0.0;
      assert After(start, rate, n) == After(start, rate, n - 1) + rate;
    }
  }

  lemma MulMono(a: nat, b: nat, k: nat)
    requires a <= b
    ensures a * k <= b * k
  {
  }

  class Waterfall {
    const x: real
    const y: real
    const xv: real
    const yv: real
    const xRange: real
    const yRange: real
    const rate: real
    var next: real

    /** Options over the defaults: at the origin, at rest, no random range,
        one spawn per second; the timer starts a full interval away. */
    constructor (opts: Options)
      ensures x == Or(opts.x, 0.0) && y == Or(opts.y, 0.0)
      ensures xv == Or(opts.xv, 0.0) && yv == Or(opts.yv, 0.0)
      ensures xRange == Or(opts.xRange, 0.0) && yRange == Or(opts.yRange, 0.0)
      ensures rate == Or(opts.rate, 1.0) && next == rate
    {
      x := Or(opts.x, 0.0);
      y := Or(opts.y, 0.0);
      xv := Or(opts.xv, 0.0);
      yv := Or(opts.yv, 0.0);
      xRange := Or(opts.xRange, 0.0);
      yRange := Or(opts.yRange, 0.0);
      rate := Or(opts.rate, 1.0);
      next := Or(opts.rate, 1.0);
    }

    /** The call one particle entity receives: a water particle at the
        floored, jittered position with the waterfall's velocity. */
    function SpawnOf(d: Draw): (c: SpawnCall)
      ensures c.t == ChickenParticles.Water && c.xv == xv && c.yv == yv
      ensures c.x as real <= x + Jitter(xRange, d.rx) < c.x as real + 1.0
      ensures c.y as real <= y + Jitter(yRange, d.ry) < c.y as real + 1.0
      ensures xRange == 0.0 ==> c.x == x.Floor
      ensures yRange == 0.0 ==> c.y == y.Floor
    {
      SpawnCall(ChickenParticles.Water, (x + Jitter(xRange, d.rx)).Floor, (y + Jitter(yRange, d.ry)).Floor, xv, yv)
    }

    /** `spawn`: one call per particle entity, in order, the j-th using
        the j-th draws. */
    method Spawn(k: nat, draws: seq<Draw>) returns (calls: seq<SpawnCall>)
      requires |draws| == k
      ensures |calls| == k
      ensures forall j :: 0 <= j < k ==> calls[j] == SpawnOf(draws[j])
    {
      calls := [];
      var j := 0;
      while j < k
        invariant 0 <= j <= k && |calls| == j
        invariant forall i :: 0 <= i < j ==> calls[i] == SpawnOf(draws[i])
      {
        calls := calls + [SpawnOf(draws[j])];
        j := j + 1;
      }
    }

    /** `update` with `k` particle entities: nothing when the rate is not
        positive; otherwise the timer loses dT and is rewound by the rate,
        one spawn per rewind, until it is not negative. */
    method Update(dT: real, k: nat, draws: seq<Draw>) returns (calls: seq<SpawnCall>)
      requires rate > 0.0 ==> |draws| >= SpawnCount(next - dT, rate) * k
      modifies this
      ensures rate <= 0.0 ==> next == old(next) && calls == []
      ensures rate > 0.0 ==> next == After(old(next) - dT, rate, SpawnCount(old(next) - dT, rate)) && next >= 0.0
      ensures rate > 0.0 ==> |calls| == SpawnCount(old(next) - dT, rate) * k
      ensures forall j :: 0 <= j < |calls| ==> calls[j] == SpawnOf(draws[j])
    {
      calls := [];
      if rate <= 0.0 {
        return;
      }
      next := next - dT;
      ghost var start := next;
      ghost var n := SpawnCount(start, rate);
      SpawnCountIsLeast(start, rate);
      var i := 0;
      while next < 0.0
        invariant 0 <= i <= n && next == After(start, rate, i)
        invariant |calls| == i * k
        invariant forall j :: 0 <= j < |calls| ==> calls[j] == SpawnOf(draws[j])
        decreases n - i
      {
        assert i < n;
        next := next + rate;
        assert next == After(start, rate, i + 1);
        MulMono(i + 1, n, k);
        var used := |calls|;
        var c := Spawn(k, draws[used..used + k]);
        calls := calls + c;
        i := i + 1;
      }
    }
  }
}
