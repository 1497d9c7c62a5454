// The chicken-cave particle pool: a ring buffer of 1024 slots, each with a
// type byte (0 = dead), a position and a velocity, stepped once per game
// update against the level walls.

module ChickenParticles {

  import ChickenGame
  import ChickenLevelWalls

  const MaxPoints := 1024
  const HalfPoints := 512
  const NoneType := 0
  const Water := 1

  /** One slot: type byte, position, velocity. */
  datatype Point = Point(t: int, x: real, y: real, xv: real, yv: real)

  /** A `Uint8Array` store: the value modulo 256. */
  function ToByte(v: int): (b: int)
    ensures 0 <= b < 256
    ensures 0 <= v < 256 ==> b == v
  {
    v % 256
  }

  /** `Math.round`: to the nearest integer, halves upwards. */
  function Round(v: real): int
  {
    (v + 0.5).Floor
  }

  /** The 16-pixel edge nearest to a coordinate:
      `Math.round(v * 0.0625) * 16`. */
  function SnapEdge(v: real): real
  {
    (Round(v * 0.0625) * 16) as real
  }

  /** Whether slot `n` is in the half of the pool an update with the given
      (already toggled) step checks against the player. */
  predicate IsStep(step: int, n: int)
  {
    if step == 1 then n >= HalfPoints else n < HalfPoints
  }

  /** What a particle collides with: the answer of the wall entity's
      `isSolidAtPosition` for each pixel position. */
  datatype Level = Level(solid: (real, real) -> bool)

  /** `lv` answers as a `LevelWalls` grid of `w` x `h` cells of `size`
      pixels does. */
  ghost predicate WallLevel(lv: Level, g: seq<int>, w: nat, h: nat, size: real)
    requires |g| == w * h && size > 0.0
  {
    forall x, y :: lv.solid(x, y) <==> ChickenLevelWalls.IsSolidAtPosition(g, w, h, size, x, y)
  }

  /** The level's `isSolidAtPosition`. */
  predicate Solid(lv: Level, x: real, y: real)
  {
    lv.solid(x, y)
  }

  /** The random draws one slot may take during an update, in order: the
      x bounce, the y bounce and the ground speed; each in [0, 1). */
  datatype Draws = Draws(bounceX: real, bounceY: real, speed: real)

  /** One slot of `update`: dead slots are skipped; a live one left or
      above the level is killed where it is; any other moves by its
      velocity times dT, except along an axis whose destination is solid,
      where it is snapped to the nearest cell edge and bounces; gravity
      then pulls its y velocity by 256 per second. */
  function Step(p: Point, dT: real, lv: Level, r: Draws): (q: Point)
  {
    if p.t == 0 then p
    else if p.x < 0.0 || p.y < 0.0 then p.(t := 0)
    else Moved(p, Delta(p.xv, dT), Delta(p.yv, dT), dT, Solid(lv, p.x + Delta(p.xv, dT), p.y), Solid(lv, p.x, p.y + Delta(p.yv, dT)), r)
  }

  /** A live slot inside the level, about to move by (dx, dy), with whether
      its destination along x and along y is solid. */
  function Moved(p: Point, dx: real, dy: real, dT: real, hitX: bool, hitY: bool, r: Draws): Point
  {
    Point(p.t,
          if hitX then SnapEdge(p.x) - dx else p.x + dx,
          if hitY then SnapEdge(p.y) - dy else p.y + dy,
          BouncedXV(p, hitX, hitY, r),
          (if hitY then p.yv * (r.bounceY * -0.1) else p.yv) - 256.0 * dT)
  }

  /** The new x velocity: reversed and damped by a random factor after an
      x hit; after a y hit, sped up by a fifth when the slot landed fast,
      or raised to a random 12-16 when it was crawling along the ground. */
  function BouncedXV(p: Point, hitX: bool, hitY: bool, r: Draws): real
  {
    var xv1 := if hitX then p.xv * -r.bounceX else p.xv;
    var newSpeed := 12.0 + r.speed * 4.0;
    if !hitY then xv1
    else if p.yv < -24.0 then xv1 * 1.2
    else if p.xv != 0.0 && Abs(p.xv) < 12.0 then (if p.xv > 0.0 then newSpeed else -newSpeed)
    else xv1
  }

  /** The distance covered at velocity `v` in `dT` seconds. */
  function Delta(v: real, dT: real): real
  {
    v * dT
  }

  function Abs(v: real): real
  {
    if v < 0.0 then -v else v
  }

  /** Dead slots are never touched. */
  lemma DeadSlotUntouched(p: Point, dT: real, lv: Level, r: Draws)
    requires p.t == 0
    ensures Step(p, dT, lv, r) == p
  {
  }

  /** A live slot left of or above the level is killed and keeps its
      position and velocity. */
  lemma OutOfBoundsKilled(p: Point, dT: real, lv: Level, r: Draws)
    requires p.t != 0 && (p.x < 0.0 || p.y < 0.0)
    ensures Step(p, dT, lv, r) == Point(0, p.x, p.y, p.xv, p.yv)
  {
  }

  /** A live slot inside stays alive; in open space it moves by exactly its
      velocity times dT and only its y velocity changes, by gravity. */
  lemma FreeFlight(p: Point, dT: real, lv: Level, r: Draws)
    requires p.t != 0 && p.x >= 0.0 && p.y >= 0.0
    ensures Step(p, dT, lv, r).t == p.t
    ensures !Solid(lv, p.x + Delta(p.xv, dT), p.y) && !Solid(lv, p.x, p.y + Delta(p.yv, dT)) ==>
              Step(p, dT, lv, r) == Point(p.t, p.x + Delta(p.xv, dT), p.y + Delta(p.yv, dT), p.xv, p.yv - 256.0 * dT)
  {
  }

  /** A slot whose destination is solid along x ends on the nearest
      16-pixel edge to where it was, minus the step it would have taken. */
  lemma WallSnapsX(p: Point, dT: real, lv: Level, r: Draws)
    requires p.t != 0 && p.x >= 0.0 && p.y >= 0.0 && Solid(lv, p.x + Delta(p.xv, dT), p.y)
    ensures Step(p, dT, lv, r).x == SnapEdge(p.x) - Delta(p.xv, dT)
  {
  }

  /** In a walled level, a slot about to cross the level's left or right
      border along x is snapped back to the nearest cell edge. */
  lemma BorderSnapsX(p: Point, dT: real, lv: Level, g: seq<int>, w: nat, h: nat, size: real, r: Draws)
    requires |g| == w * h && size > 0.0 && WallLevel(lv, g, w, h, size)
    requires p.t != 0 && p.x >= 0.0 && p.y >= 0.0
    requires p.x + Delta(p.xv, dT) < 0.0 || p.x + Delta(p.xv, dT) >= w as real * size
    ensures Step(p, dT, lv, r).x == SnapEdge(p.x) - Delta(p.xv, dT)
  {
    ChickenLevelWalls.OffGridPixelsSolid(g, w, h, size, p.x + Delta(p.xv, dT), p.y);
    WallSnapsX(p, dT, lv, r);
  }

  /** `update` as written, for one slot: the player check iterates the
      game's "player" registry, which the game never creates, so on a live
      slot inside the level in the half being checked the update throws. */
  function StepAsWritten(p: Point, n: int, step: int, dT: real, lv: Level,
                         r: Draws): (res: Option<Point>)
    ensures res.Some? ==> res.value == Step(p, dT, lv, r)
  {
    if p.t != 0 && p.x >= 0.0 && p.y >= 0.0 && IsStep(step, n) && "player" !in ChickenGame.Roles
    then None
    else Some(Step(p, dT, lv, r))
  }

  datatype Option<T> = None | Some(value: T)

  /** A single live water particle at (10, 10) in slot 0 makes the first
      update (step 0 toggled to 1 checks slots 512 and up; the next, back
      to 0, checks slot 0) throw as written. */
  lemma PlayerCheckThrows(lv: Level, r: Draws)
    ensures StepAsWritten(Point(Water, 10.0, 10.0, 0.0, 0.0), 0, 0, 0.02, lv, r).None?
    ensures StepAsWritten(Point(Water, 10.0, 10.0, 0.0, 0.0), 0, 1, 0.02, lv, r).Some?
  {
  }

  /** The body of `update`'s loop for a live slot inside the level, given
      what the wall answers for its x and its y destination: the position
      and velocity are adjusted in place, then the remaining step and
      gravity are applied. */
  method MoveLive(p: Point, dT: real, hitX: bool, hitY: bool, r: Draws) returns (q: Point)
    ensures q == Moved(p, Delta(p.xv, dT), Delta(p.yv, dT), dT, hitX, hitY, r)
  {
    var dx, dy := Delta(p.xv, dT), Delta(p.yv, dT);
    var nx, ny, nxv, nyv := p.x, p.y, p.xv, p.yv;
    if hitX {
      nx := SnapEdge(p.x) - dx;
      nxv := nxv * -r.bounceX;
      dx := 0.0;
    }
    if hitY {
      ny := SnapEdge(p.y) - dy;
      nyv := nyv * (r.bounceY * -0.1);
      dy := 0.0;
      if p.yv < -24.0 {
        nxv := nxv * 1.2;
      } else if p.xv != 0.0 && Abs(p.xv) < 12.0 {
        var newSpeed := 12.0 + r.speed * 4.0;
        nxv := if p.xv > 0.0 then newSpeed else -newSpeed;
      }
    }
    q := Point(p.t, nx + dx, ny + dy, nxv, nyv - 256.0 * dT);
  }

  class Particles {
    var pointType: array<int>
    var pointXY: array<real>
    var pointVel: array<real>
    var index: int
    var step: int

    predicate Valid()
      reads this
    {
      pointType.Length == MaxPoints && pointXY.Length == 2 * MaxPoints &&
      pointVel.Length == 2 * MaxPoints && pointXY != pointVel &&
      0 <= index < MaxPoints && (step == 0 || step == 1)
    }

    /** Slot `n` as a value. */
    function Slot(n: int): Point
      requires Valid() && 0 <= n < MaxPoints
      reads this, pointType, pointXY, pointVel
    {
      Point(pointType[n], pointXY[2 * n], pointXY[2 * n + 1], pointVel[2 * n], pointVel[2 * n + 1])
    }

    /** The pool starts without buffers (`init` makes them). */
    constructor ()
      ensures index == 0 && step == 0
      ensures pointType.Length == 0 && pointXY.Length == 0 && pointVel.Length == 0
    {
      pointType := new int[0];
      pointXY := new real[0];
      pointVel := new real[0];
      index := 0;
      step := 0;
    }

    /** `init`: 1024 dead slots at the origin at rest; the ring starts at
        slot 0. */
    method Init()
      requires step == 0 || step == 1
      modifies this
      ensures Valid() && fresh(pointType) && fresh(pointXY) && fresh(pointVel)
      ensures index == 0 && step == old(step)
      ensures forall n :: 0 <= n < MaxPoints ==> Slot(n) == Point(NoneType, 0.0, 0.0, 0.0, 0.0)
    {
      pointType := new int[MaxPoints](_ => NoneType);
      pointXY := new real[MaxPoints * 2](_ => 0.0);
      pointVel := new real[MaxPoints * 2](_ => 0.0);
      index := 0;
    }

    /** `spawn`: writes slot `index` and advances the ring, wrapping to 0
        after the last slot; no other slot changes. */
    method Spawn(t: int, x: real, y: real, xv: real, yv: real)
      requires Valid()
      modifies this, pointType, pointXY, pointVel
      ensures Valid() && step == old(step)
      ensures pointType == old(pointType) && pointXY == old(pointXY) && pointVel == old(pointVel)
      ensures Slot(old(index)) == Point(ToByte(t), x, y, xv, yv)
      ensures forall n :: 0 <= n < MaxPoints && n != old(index) ==> Slot(n) == old(Slot(n))
      ensures index == (old(index) + 1) % MaxPoints
    {
      var i := index * 2;
      pointType[index] := ToByte(t);
      pointXY[i] := x;
      pointXY[i + 1] := y;
      pointVel[i] := xv;
      pointVel[i + 1] := yv;
      index := index + 1;
      if index >= MaxPoints {
        index := 0;
      }
    }

    /** `particleIsAlive`: the slot's type is not NONE (a slot outside the
        pool reads as undefined, which is not alive). */
    method ParticleIsAlive(n: int) returns (alive: bool)
      requires Valid()
      ensures alive <==> 0 <= n < MaxPoints && Slot(n).t > 0
    {
      alive := 0 <= n < MaxPoints && pointType[n] > 0;
    }

    /** `killParticle`: the slot's type becomes NONE; its position and
        velocity stay (the drip sound returns before playing anything). */
    method KillParticle(n: int)
      requires Valid()
      modifies pointType
      ensures 0 <= n < MaxPoints ==> Slot(n) == old(Slot(n)).(t := NoneType)
      ensures forall m :: 0 <= m < MaxPoints && m != n ==> Slot(m) == old(Slot(m))
    {
      if 0 <= n < MaxPoints {
        pointType[n] := NoneType;
      }
    }

    /** `update` with the player check skipped (the game has no players
        registry): the step flips and every slot takes one `Step`. */
    method Update(dT: real, lv: Level, draws: seq<Draws>)
      requires Valid() && |draws| == MaxPoints
      modifies this, pointType, pointXY, pointVel
      ensures Valid() && index == old(index) && step == 1 - old(step)
      ensures pointType == old(pointType) && pointXY == old(pointXY) && pointVel == old(pointVel)
      ensures forall n :: 0 <= n < MaxPoints ==> Slot(n) == Step(old(Slot(n)), dT, lv, draws[n])
    {
      step := if step == 0 then 1 else 0;
      var n := 0;
      while n < MaxPoints
        invariant 0 <= n <= MaxPoints && Valid() && index == old(index) && step == 1 - old(step)
        invariant pointType == old(pointType) && pointXY == old(pointXY) && pointVel == old(pointVel)
        invariant forall m :: 0 <= m < n ==> Slot(m) == Step(old(Slot(m)), dT, lv, draws[m])
        invariant forall m :: n <= m < MaxPoints ==> Slot(m) == old(Slot(m))
      {
        UpdateSlot(n, dT, lv, draws[n]);
        n := n + 1;
      }
    }

    /** One iteration of `update`'s loop, computing the slot's new state
        in locals and storing it. */
    method UpdateSlot(n: int, dT: real, lv: Level, r: Draws)
      requires Valid() && 0 <= n < MaxPoints
      modifies pointType, pointXY, pointVel
      ensures Slot(n) == Step(old(Slot(n)), dT, lv, r)
      ensures forall m :: 0 <= m < MaxPoints && m != n ==> Slot(m) == old(Slot(m))
    {
      var t := pointType[n];
      if t == 0 {
        return;
      }
      var i := n * 2;
      var x, y := pointXY[i], pointXY[i + 1];
      var xv, yv := pointVel[i], pointVel[i + 1];
      var p := Point(t, x, y, xv, yv);
      assert p == Slot(n);
      if x < 0.0 || y < 0.0 {
        KillParticle(n);
        return;
      }
      var dx, dy := Delta(xv, dT), Delta(yv, dT);
      var q := MoveLive(p, dT, Solid(lv, x + dx, y), Solid(lv, x, y + dy), r);
      WriteSlot(n, q);
    }

    method WriteSlot(n: int, p: Point)
      requires Valid() && 0 <= n < MaxPoints
      modifies pointType, pointXY, pointVel
      ensures Slot(n) == p
      ensures forall m :: 0 <= m < MaxPoints && m != n ==> Slot(m) == old(Slot(m))
    {
      pointType[n] := p.t;
      pointXY[2 * n] := p.x;
      pointXY[2 * n + 1] := p.y;
      pointVel[2 * n] := p.xv;
      pointVel[2 * n + 1] := p.yv;
    }
  }
}
