/**
 * The bouncing-ball prototype: on every timer tick each coordinate moves by
 * its velocity; reaching or passing a wall (0 or 100) reverses that velocity
 * component and clamps the coordinate into [0, 100]. The start state is the
 * integer position (50, 50) and velocity (2, 2), so all values stay integers.
 */
module BouncingBall {
  import opened Percent

  /** The candidate coordinate reaches or passes a wall. */
  predicate HitsWall(candidate: int) {
    candidate >= Hi || candidate <= Lo
  }

  /** One coordinate together with its velocity component. */
  datatype Axis = Axis(pos: int, vel: int)

  /** The update of one axis in one tick. */
  function Step(a: Axis): (r: Axis)
    ensures Lo <= r.pos <= Hi
    ensures Lo <= a.pos + a.vel <= Hi ==> r.pos == a.pos + a.vel
    ensures a.pos + a.vel > Hi ==> r.pos == Hi
    ensures a.pos + a.vel < Lo ==> r.pos == Lo
    ensures r.vel == if HitsWall(a.pos + a.vel) then -a.vel else a.vel
  {
    var candidate := a.pos + a.vel;
    if HitsWall(candidate) then Axis(Clamp(candidate), -a.vel) else Axis(candidate, a.vel)
  }

  /** `n` ticks of one axis. */
  function Run(a: Axis, n: nat): Axis
    decreases n
  {
    if n == 0 then a else Run(Step(a), n - 1)
  }

  function Abs(v: int): nat {
    if v < 0 then -v else v
  }

  /** From a position inside the box, the position stays inside after any number of ticks. */
  lemma {:induction false} StaysInBox(a: Axis, n: nat)
    requires Lo <= a.pos <= Hi
    ensures Lo <= Run(a, n).pos <= Hi
    decreases n
  {
    if n > 0 {
      StaysInBox(Step(a), n - 1);
    }
  }

  /** Bouncing never changes the speed, only the direction. */
  lemma {:induction false} SpeedPreserved(a: Axis, n: nat)
    ensures Abs(Run(a, n).vel) == Abs(a.vel)
    decreases n
  {
    if n > 0 {
      SpeedPreserved(Step(a), n - 1);
    }
  }

  /** Ticking `m` then `n` times is ticking `m + n` times. */
  lemma {:induction false} RunAdd(a: Axis, m: nat, n: nat)
    ensures Run(a, m + n) == Run(Run(a, m), n)
    decreases m
  {
    if m > 0 {
      RunAdd(Step(a), m - 1, n);
    }
  }

  /**
   * Free flight: while the position after `k` ticks stays strictly inside the
   * box, no wall is hit and the axis moves by `k` times its velocity.
   */
  lemma {:induction false} FreeFlight(p: int, v: int, k: nat)
    requires Lo <= p <= Hi
    requires Lo < p + k * v < Hi
    ensures Run(Axis(p, v), k) == Axis(p + k * v, v)
    decreases k
  {
    if k > 0 {
      assert p + k * v == (p + v) + (k - 1) * v;
      assert Lo < p + v < Hi by {
        if v >= 0 {
          assert (k - 1) * v >= 0;
        } else {
          assert (k - 1) * v <= 0;
        }
      }
      assert Step(Axis(p, v)) == Axis(p + v, v);
      FreeFlight(p + v, v, k - 1);
    }
  }

  /**
   * From the start state (50, velocity 2) the axis moves freely for 24
   * ticks, reaches 100 on tick 25 and turns back, then reaches 0 on tick 75
   * and turns again.
   */
  lemma FirstBounce()
    ensures Run(Axis(50, 2), 24) == Axis(98, 2)
    ensures Run(Axis(50, 2), 25) == Axis(100, -2)
    ensures Run(Axis(50, 2), 74) == Axis(2, -2)
    ensures Run(Axis(50, 2), 75) == Axis(0, 2)
  {
    FreeFlight(50, 2, 24);
    RunAdd(Axis(50, 2), 24, 1);
    assert Step(Axis(98, 2)) == Axis(100, -2);
    FreeFlight(100, -2, 49);
    RunAdd(Axis(50, 2), 25, 49);
    RunAdd(Axis(50, 2), 74, 1);
    assert Step(Axis(2, -2)) == Axis(0, 2);
  }

  class Ball {
    var x: int
    var y: int
    var vx: int
    var vy: int

    /** The ball is inside the box. */
    ghost predicate Valid()
      reads this
    {
      Lo <= x <= Hi && Lo <= y <= Hi
    }

    /** `useState({ x: 50, y: 50 })` and `useState({ x: 2, y: 2 })`. */
    constructor ()
      ensures Valid()
      ensures x == 50 && y == 50 && vx == 2 && vy == 2
    {
      x, y := 50, 50;
      vx, vy := 2, 2;
    }

    /**
     * One `setInterval` callback. Each axis is updated from its own old
     * position and velocity only.
     */
    method Tick()
      modifies this
      ensures Valid()
      ensures Axis(x, vx) == Step(Axis(old(x), old(vx)))
      ensures Axis(y, vy) == Step(Axis(old(y), old(vy)))
    {
      var newX := x + vx;
      var newY := y + vy;
      if newX >= Hi || newX <= Lo {
        vx := -vx;
        newX := Clamp(newX);
      }
      if newY >= Hi || newY <= Lo {
        vy := -vy;
        newY := Clamp(newY);
      }
      x, y := newX, newY;
    }
  }

  /** Ticking a ball `n` times moves each axis as `Run` says. */
  method Animate(b: Ball, n: nat)
    requires b.Valid()
    modifies b
    ensures b.Valid()
    ensures Axis(b.x, b.vx) == Run(Axis(old(b.x), old(b.vx)), n)
    ensures Axis(b.y, b.vy) == Run(Axis(old(b.y), old(b.vy)), n)
  {
    var i := 0;
    while i < n
      invariant 0 <= i <= n
      invariant b.Valid()
      invariant Run(Axis(b.x, b.vx), n - i) == Run(Axis(old(b.x), old(b.vx)), n)
      invariant Run(Axis(b.y, b.vy), n - i) == Run(Axis(old(b.y), old(b.vy)), n)
    {
      b.Tick();
      i := i + 1;
    }
  }
}
