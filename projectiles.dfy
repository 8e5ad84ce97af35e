/**
 * The projectile of Projectile.java: it flies in a straight line from its
 * origin (x, y) toward the impact point (targetX, 0) at a constant speed.
 * Its position is never integrated: every update recomputes it from the
 * origin and the total elapsed time.
 */
module Projectiles {
  import opened RealMath
  import opened Utility

  /** The defaults the no-argument constructor takes from Value.java. */
  const ProjectileXDefault: real := 100.0
  const ProjectileYDefault: real := 800.0
  const SpeedDefault: real := 100.0
  const ImpactXDefault: real := 400.0

  /** Projectiles always aim at the ground line y = 0. */
  const GroundY: real := 0.0

  /** The Math.hypot distance update measures from the origin to the target. */
  function AimDistance(x: real, y: real, targetX: real, targetY: real): real
  {
    Hypot(targetX - x, targetY - y)
  }

  /**
   * Where update(time) puts a projectile with origin (x, y), target
   * (targetX, targetY) and the given speed: the origin plus the calcVelocity
   * components toward the target, times the total elapsed time.
   */
  function ProjectilePosition(x: real, y: real, targetX: real, targetY: real, speed: real, time: real): (p: Point)
    requires AimDistance(x, y, targetX, targetY) != 0.0
    ensures time == 0.0 ==> p == Point(x, y)
  {
    var distance := AimDistance(x, y, targetX, targetY);
    var vx := CalcVelocity(x, targetX, distance, speed);
    var vy := CalcVelocity(y, targetY, distance, speed);
    Point(x + vx * time, y + vy * time)
  }

  /** At every time the projectile is on the line through its origin and its target. */
  lemma ProjectileOnAimLine(x: real, y: real, targetX: real, targetY: real, speed: real, time: real)
    requires AimDistance(x, y, targetX, targetY) != 0.0
    ensures var p := ProjectilePosition(x, y, targetX, targetY, speed, time);
            (p.x - x) * (targetY - y) == (p.y - y) * (targetX - x)
  {
    var d := AimDistance(x, y, targetX, targetY);
    var vx := CalcVelocity(x, targetX, d, speed);
    var vy := CalcVelocity(y, targetY, d, speed);
    ScaledParallel(vx, vy, d, speed, targetX - x, targetY - y);
  }

  /**
   * The velocity has magnitude |speed|, so after a time t the projectile is
   * speed·t away from its origin.
   */
  lemma ProjectileTravel(x: real, y: real, targetX: real, targetY: real, speed: real, time: real)
    requires SqrtLaw()
    requires AimDistance(x, y, targetX, targetY) != 0.0
    ensures SqDist(ProjectilePosition(x, y, targetX, targetY, speed, time), Point(x, y))
              == (speed * time) * (speed * time)
  {
    var d := AimDistance(x, y, targetX, targetY);
    var vx := CalcVelocity(x, targetX, d, speed);
    var vy := CalcVelocity(y, targetY, d, speed);
    VelocityTowardPoint(x, y, targetX, targetY, speed);
    assert vx * vx + vy * vy == speed * speed;
    TravelledSquare(vx, vy, speed, time);
  }

  lemma TravelledSquare(vx: real, vy: real, speed: real, time: real)
    requires vx * vx + vy * vy == speed * speed
    ensures SumSq(vx * time, vy * time) == (speed * time) * (speed * time)
  {
    calc {
      SumSq(vx * time, vy * time);
      (vx * time) * (vx * time) + (vy * time) * (vy * time);
      (vx * vx + vy * vy) * (time * time);
      (speed * speed) * (time * time);
      (speed * time) * (speed * time);
    }
  }

  /** Flying for distance / speed brings the projectile exactly onto its target. */
  lemma ProjectileReachesTarget(x: real, y: real, targetX: real, targetY: real, speed: real)
    requires AimDistance(x, y, targetX, targetY) != 0.0 && speed != 0.0
    ensures ProjectilePosition(x, y, targetX, targetY, speed, AimDistance(x, y, targetX, targetY) / speed)
              == Point(targetX, targetY)
  {
    var d := AimDistance(x, y, targetX, targetY);
    var vx := CalcVelocity(x, targetX, d, speed);
    var vy := CalcVelocity(y, targetY, d, speed);
    CoverComponent(vx, d, speed, targetX - x);
    CoverComponent(vy, d, speed, targetY - y);
  }

  /** A component v with v·d = speed·delta covers delta in the time d / speed. */
  lemma CoverComponent(v: real, d: real, speed: real, delta: real)
    requires speed != 0.0 && v * d == speed * delta
    ensures v * (d / speed) == delta
  {
    calc {
      v * (d / speed);
      (v * d) / speed;
      (speed * delta) / speed;
      delta;
    }
  }

  /**
   * A projectile that starts above the ground and flies toward a point on it
   * is below the ground (isOutOfBounds) exactly when it has flown farther than
   * its aim distance, that is, once it has passed its impact point.
   */
  lemma OutOfBoundsPastImpact(x: real, y: real, targetX: real, speed: real, time: real)
    requires SqrtLaw()
    requires AimDistance(x, y, targetX, GroundY) != 0.0
    requires 0.0 < y && 0.0 < speed
    ensures (ProjectilePosition(x, y, targetX, GroundY, speed, time).y < GroundY) <==>
            (speed * time > AimDistance(x, y, targetX, GroundY))
  {
    var d := AimDistance(x, y, targetX, GroundY);
    SumSqPositive(targetX - x, GroundY - y);
    SqrtAt(SumSq(targetX - x, GroundY - y));
    var vy := CalcVelocity(y, GroundY, d, speed);
    var py := ProjectilePosition(x, y, targetX, GroundY, speed, time).y;
    HeightScaled(y, vy, d, speed, time);
    SignOfProduct(py, d, y, d - speed * time);
  }

  /** The height, scaled by the aim distance, is y·(d − speed·t). */
  lemma HeightScaled(y: real, vy: real, d: real, speed: real, time: real)
    requires vy * d == speed * (GroundY - y)
    ensures (y + vy * time) * d == y * (d - speed * time)
  {
    calc {
      (y + vy * time) * d;
      y * d + (vy * d) * time;
      y * d + (speed * (GroundY - y)) * time;
      y * (d - speed * time);
    }
  }

  /** With d and y positive, p·d = y·w makes p and w negative together. */
  lemma SignOfProduct(p: real, d: real, y: real, w: real)
    requires 0.0 < d && 0.0 < y && p * d == y * w
    ensures p < 0.0 <==> w < 0.0
  {
    if p < 0.0 {
      MulPositive(-p, d);
    } else {
      if w < 0.0 {
        MulPositive(y, -w);
      }
      MulNonNegative(p, d);
    }
  }

  /** Projectile.java: the projectile's origin, target, speed and current position. */
  class Projectile {
    var x: real
    var y: real
    var targetX: real
    var targetY: real
    var currentX: real
    var currentY: real
    var speed: real

    /** Projectile(x, y, speed, targetX): aimed at (targetX, 0) and resting at its origin. */
    constructor(x0: real, y0: real, speed0: real, targetX0: real)
      ensures x == x0 && y == y0 && speed == speed0
      ensures targetX == targetX0 && targetY == GroundY
      ensures currentX == x0 && currentY == y0
    {
      x := x0;
      y := y0;
      speed := speed0;
      targetX := targetX0;
      targetY := GroundY;
      currentX := x0;
      currentY := y0;
    }

    /** Projectile(): the same, with the default origin, speed and impact point. */
    constructor Default()
      ensures x == ProjectileXDefault && y == ProjectileYDefault && speed == SpeedDefault
      ensures targetX == ImpactXDefault && targetY == GroundY
      ensures currentX == ProjectileXDefault && currentY == ProjectileYDefault
    {
      x := ProjectileXDefault;
      y := ProjectileYDefault;
      speed := SpeedDefault;
      targetX := ImpactXDefault;
      targetY := GroundY;
      currentX := ProjectileXDefault;
      currentY := ProjectileYDefault;
    }

    /** The origin and the target are apart, so update's velocity is defined. */
    predicate Aimed()
      reads this
    {
      AimDistance(x, y, targetX, targetY) != 0.0
    }

    /** The current position is the one update(time) sets. */
    predicate At(time: real)
      reads this
    {
      Aimed() && Point(currentX, currentY) == ProjectilePosition(x, y, targetX, targetY, speed, time)
    }

    /**
     * update(time): the current position becomes the position at the total
     * elapsed time, whatever it was before; nothing else changes.
     */
    method Update(time: real)
      requires Aimed()
      modifies this`currentX, this`currentY
      ensures At(time)
    {
      var distance := Hypot(targetX - x, targetY - y);
      var vx := CalcVelocity(x, targetX, distance, speed);
      var vy := CalcVelocity(y, targetY, distance, speed);
      currentX := x + vx * time;
      currentY := y + vy * time;
    }

    /** isOutOfBounds: the projectile is below the ground line. */
    predicate IsOutOfBounds()
      reads this
    {
      currentY < GroundY
    }

    /**
     * A projectile launched from above the ground and put where update(time)
     * puts it is out of bounds exactly when it has flown farther than its aim
     * distance, that is, past its impact point.
     */
    lemma OutOfBoundsAt(time: real)
      requires SqrtLaw()
      requires At(time) && targetY == GroundY
      requires 0.0 < y && 0.0 < speed
      ensures IsOutOfBounds() <==> speed * time > AimDistance(x, y, targetX, targetY)
    {
      OutOfBoundsPastImpact(x, y, targetX, speed, time);
    }
  }
}
