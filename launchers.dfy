/**
 * The interceptor of Launcher.java: it starts on the ground at (x, 0) and,
 * once launched, flies in a straight line at a launch angle with a constant
 * speed. Like the projectile, its position is recomputed from its origin on
 * every update.
 */
module Launchers {
  import opened RealMath
  import opened Utility
  import opened Projectiles

  /** The default origin the no-argument constructor takes from Value.java. */
  const LauncherXDefault: real := 200.0

  /** intercepts succeeds when the two bodies are closer than this. */
  const InterceptRadius: real := 20.0

  /** Where update(time, angle) puts a launcher with origin (x, y) and the given speed. */
  function LauncherPosition(x: real, y: real, speed: real, time: real, angle: real): (p: Point)
    ensures time == 0.0 ==> p == Point(x, y)
  {
    Point(x + speed * time * Cos(angle), y + speed * time * Sin(angle))
  }

  /** With cos² + sin² = 1, after a time t the launcher is speed·t from its origin. */
  lemma LauncherTravel(x: real, y: real, speed: real, time: real, angle: real)
    requires PythagorasLaw()
    ensures SqDist(LauncherPosition(x, y, speed, time, angle), Point(x, y)) == (speed * time) * (speed * time)
  {
    assert CosSinAt(angle);
    var k := speed * time;
    calc {
      SqDist(LauncherPosition(x, y, speed, time, angle), Point(x, y));
      SumSq(k * Cos(angle), k * Sin(angle));
      (k * k) * (Cos(angle) * Cos(angle) + Sin(angle) * Sin(angle));
      k * k;
    }
  }

  /**
   * The hit test of intercepts: the Math.hypot distance between the two
   * positions is below the intercept radius. With a true square root this is
   * the squared distance being below the squared radius.
   */
  function WithinReach(l: Point, p: Point): (r: bool)
    ensures SqrtLaw() ==> (r <==> SqDist(l, p) < InterceptRadius * InterceptRadius)
  {
    HypotBelowRadius(l.x - p.x, l.y - p.y);
    Hypot(l.x - p.x, l.y - p.y) < InterceptRadius
  }

  lemma HypotBelowRadius(dx: real, dy: real)
    ensures SqrtLaw() ==> (Hypot(dx, dy) < InterceptRadius <==> SumSq(dx, dy) < InterceptRadius * InterceptRadius)
  {
    if SqrtLaw() {
      SumSqPositive(dx, dy);
      SqrtBelow(SumSq(dx, dy), InterceptRadius);
    }
  }

  /** The hit test does not depend on which body is asked. */
  lemma WithinReachSymmetric(l: Point, p: Point)
    ensures WithinReach(l, p) == WithinReach(p, l)
  {
    assert SumSq(l.x - p.x, l.y - p.y) == SumSq(p.x - l.x, p.y - l.y);
  }

  /** Launcher.java: the launcher's origin, speed and current position. */
  class Launcher {
    var x: real
    var y: real
    var currentX: real
    var currentY: real
    var speed: real

    /** Launcher(x, speed): on the ground at (x, 0), resting at its origin. */
    constructor(x0: real, speed0: real)
      ensures x == x0 && y == GroundY && speed == speed0
      ensures currentX == x0 && currentY == GroundY
    {
      x := x0;
      y := GroundY;
      speed := speed0;
      currentX := x0;
      currentY := GroundY;
    }

    /** Launcher(): the same, with the default origin and speed. */
    constructor Default()
      ensures x == LauncherXDefault && y == GroundY && speed == SpeedDefault
      ensures currentX == LauncherXDefault && currentY == GroundY
    {
      x := LauncherXDefault;
      y := GroundY;
      speed := SpeedDefault;
      currentX := LauncherXDefault;
      currentY := GroundY;
    }

    /** The current position is the one update(time, angle) sets. */
    predicate FlownFor(time: real, angle: real)
      reads this
    {
      Point(currentX, currentY) == LauncherPosition(x, y, speed, time, angle)
    }

    /**
     * update(time, launchAngle): the current position becomes the position
     * after flying for time along launchAngle from the origin; nothing else
     * changes.
     */
    method Update(time: real, launchAngle: real)
      modifies this`currentX, this`currentY
      ensures FlownFor(time, launchAngle)
    {
      currentX := x + speed * time * Cos(launchAngle);
      currentY := y + speed * time * Sin(launchAngle);
    }

    /** intercepts(projectile): the two current positions are within the intercept radius. */
    predicate Intercepts(projectile: Projectile)
      reads this, projectile
      ensures SqrtLaw() ==>
                (Intercepts(projectile) <==>
                   SqDist(Point(currentX, currentY), Point(projectile.currentX, projectile.currentY))
                     < InterceptRadius * InterceptRadius)
    {
      WithinReach(Point(currentX, currentY), Point(projectile.currentX, projectile.currentY))
    }
  }
}
