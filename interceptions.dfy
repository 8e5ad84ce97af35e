/**
 * The radar estimator and the solve pipeline of Interception.java.
 *
 * From two samples of the projectile (its origin and its position when the
 * radar fires) calcProjectileData estimates the projectile's speed and the
 * point where it will hit the ground. calcInterceptionPoint then builds a
 * velocity of that speed toward the impact point, asks the collision-course
 * solver for a time, extrapolates and truncates the intercept point, and
 * derives the launch angle from the launcher's current position.
 */
module Interceptions {
  import opened RealMath
  import opened Utility
  import opened Projectiles
  import opened Launchers

  /** The four values calcProjectileData returns. */
  datatype ProjectileData = ProjectileData(px: real, py: real, impactPointX: real, projectileSpeed: real)

  /** calcProjectileData divides by the radar time and by the distance flown. */
  predicate CanEstimate(x0: real, y0: real, px: real, py: real, radarTime: real)
  {
    radarTime != 0.0 && CalcDistance(x0, y0, px, py) != 0.0
  }

  /**
   * calcProjectileData, for a projectile with origin (x0, y0) sampled at
   * (px, py): the speed is the distance flown divided by radarTime, and the
   * impact point is found by extending the flight direction (measured with
   * asin from the origin) down to the ground.
   */
  function CalcProjectileData(x0: real, y0: real, px: real, py: real, radarTime: real): (r: ProjectileData)
    requires CanEstimate(x0, y0, px, py, radarTime)
    ensures r.px == px && r.py == py
    ensures r.projectileSpeed * radarTime == CalcDistance(x0, y0, px, py)
  {
    var distanceFromFirstToSecond := CalcDistance(x0, y0, px, py);
    var projectileSpeed := distanceFromFirstToSecond / radarTime;
    var projectileAngle := Asin((px - x0) / distanceFromFirstToSecond);
    var impactPointX := px + py * Tan(projectileAngle);
    ProjectileData(px, py, impactPointX, projectileSpeed)
  }

  /**
   * When the sample is strictly below the origin, the estimated impact point
   * (impactPointX, 0) lies on the line from the origin through the sample.
   */
  lemma ImpactPointOnTrajectory(x0: real, y0: real, px: real, py: real, radarTime: real)
    requires SqrtLaw() && AsinTanLaw()
    requires CanEstimate(x0, y0, px, py, radarTime)
    requires py < y0
    ensures (CalcProjectileData(x0, y0, px, py, radarTime).impactPointX - px) * (y0 - py) == py * (px - x0)
  {
    var d := CalcDistance(x0, y0, px, py);
    SumSqPositive(px - x0, py - y0);
    SqrtAt(SumSq(px - x0, py - y0));
    assert SumSq(px - x0, py - y0) == SumSq(px - x0, y0 - py);
    TangentOfRatio(px - x0, y0 - py, d);
    var tangent := Tan(Asin((px - x0) / d));
    var impactPointX := CalcProjectileData(x0, y0, px, py, radarTime).impactPointX;
    calc {
      (impactPointX - px) * (y0 - py);
      py * (tangent * (y0 - py));
      py * (px - x0);
    }
  }

  /** In a right triangle with legs a, w and hypotenuse d: tan(asin(a/d))·w = a. */
  lemma TangentOfRatio(a: real, w: real, d: real)
    requires SqrtLaw() && AsinTanLaw()
    requires 0.0 < d && 0.0 < w && d * d == SumSq(a, w)
    ensures Tan(Asin(a / d)) * w == a
  {
    RatioBelowOne(a, w, d);
    assert TanAsinAt(a / d);
    CosOfAsinRatio(a, w, d);
    TanTimesRise(a / d, w / d, d, w, a);
  }

  /** A leg a of a right triangle with hypotenuse d and a nonzero other leg is shorter than d. */
  lemma RatioBelowOne(a: real, w: real, d: real)
    requires 0.0 < d && d * d == SumSq(a, w) && w != 0.0
    ensures -1.0 < a / d < 1.0
  {
    calc {
      d * d;
      a * a + w * w;
    >
      a * a;
    }
    var u := a / d;
    assert u * d == a;
    if a >= d {
      SquareAtMost(d, a);
    }
    if -a >= d {
      SquareAtMost(d, -a);
    }
    if u >= 1.0 {
      MulNonNegative(u - 1.0, d);
    }
    if u <= -1.0 {
      MulNonNegative(-1.0 - u, d);
    }
  }

  /** √(1 − (a/d)²) = w/d when a² + w² = d² and w, d are positive. */
  lemma CosOfAsinRatio(a: real, w: real, d: real)
    requires SqrtLaw()
    requires 0.0 < d && 0.0 < w && d * d == SumSq(a, w)
    ensures Sqrt(OneMinusSquare(a / d)) == w / d
  {
    var u, s := a / d, w / d;
    assert u * d == a && s * d == w;
    if s <= 0.0 {
      MulNonNegative(-s, d);
    }
    calc {
      ((u * u + s * s) * d) * d;
      (u * d) * (u * d) + (s * d) * (s * d);
      a * a + w * w;
      d * d;
      (1.0 * d) * d;
    }
    CancelFactor((u * u + s * s) * d, 1.0 * d, d);
    CancelFactor(u * u + s * s, 1.0, d);
    SqrtUnique(OneMinusSquare(a / d), w / d);
  }

  /** From tan·s = u with s = w/d and u = a/d: tan·w = a. */
  lemma TanTimesRise(u: real, s: real, d: real, w: real, a: real)
    requires TanAsinAt(u) && Sqrt(OneMinusSquare(u)) == s
    requires s * d == w && u * d == a
    ensures Tan(Asin(u)) * w == a
  {
    var tangent := Tan(Asin(u));
    assert tangent * s == u;
    calc {
      tangent * w;
      tangent * (s * d);
      (tangent * s) * d;
      u * d;
      a;
    }
  }

  /**
   * If the sample really is the projectile's position at some time T (the
   * first tick with time ≥ radarTime), the speed estimate is speed·T/radarTime:
   * it is the true speed exactly when T = radarTime.
   */
  lemma RadarSpeedEstimate(x0: real, y0: real, targetX: real, speed: real,
                                              sampleTime: real, radarTime: real)
    requires SqrtLaw()
    requires AimDistance(x0, y0, targetX, GroundY) != 0.0
    requires 0.0 <= speed && 0.0 <= sampleTime
    requires var p := ProjectilePosition(x0, y0, targetX, GroundY, speed, sampleTime);
             CanEstimate(x0, y0, p.x, p.y, radarTime)
    ensures var p := ProjectilePosition(x0, y0, targetX, GroundY, speed, sampleTime);
            var data := CalcProjectileData(x0, y0, p.x, p.y, radarTime);
            && data.projectileSpeed * radarTime == speed * sampleTime
            && (sampleTime == radarTime ==> data.projectileSpeed == speed)
  {
    var p := ProjectilePosition(x0, y0, targetX, GroundY, speed, sampleTime);
    ProjectileTravel(x0, y0, targetX, GroundY, speed, sampleTime);
    assert SqDist(p, Point(x0, y0)) == SumSq(p.x - x0, p.y - y0);
    MulNonNegative(speed, sampleTime);
    SqrtUnique(SumSq(p.x - x0, p.y - y0), speed * sampleTime);
    var data := CalcProjectileData(x0, y0, p.x, p.y, radarTime);
    if sampleTime == radarTime {
      CancelFactor(data.projectileSpeed, speed, radarTime);
    }
  }

  /**
   * For a projectile flying from above the ground toward (targetX, 0), the
   * radar's impact-point estimate from any later sample is exactly targetX.
   */
  lemma RadarFindsImpactPoint(x0: real, y0: real, targetX: real, speed: real,
                                                 sampleTime: real, radarTime: real)
    requires SqrtLaw() && AsinTanLaw()
    requires AimDistance(x0, y0, targetX, GroundY) != 0.0
    requires 0.0 < y0 && 0.0 < speed && 0.0 < sampleTime
    requires var p := ProjectilePosition(x0, y0, targetX, GroundY, speed, sampleTime);
             CanEstimate(x0, y0, p.x, p.y, radarTime)
    ensures var p := ProjectilePosition(x0, y0, targetX, GroundY, speed, sampleTime);
            CalcProjectileData(x0, y0, p.x, p.y, radarTime).impactPointX == targetX
  {
    var p := ProjectilePosition(x0, y0, targetX, GroundY, speed, sampleTime);
    SampleBelowOrigin(x0, y0, targetX, speed, sampleTime);
    ImpactPointOnTrajectory(x0, y0, p.x, p.y, radarTime);
    ProjectileOnAimLine(x0, y0, targetX, GroundY, speed, sampleTime);
    TargetOnSampleLine(x0, y0, p.x, p.y, targetX);
    var impactPointX := CalcProjectileData(x0, y0, p.x, p.y, radarTime).impactPointX;
    CancelFactor(impactPointX - p.x, targetX - p.x, y0 - p.y);
  }

  /** A projectile above the ground moving toward it has descended after any positive time. */
  lemma SampleBelowOrigin(x0: real, y0: real, targetX: real, speed: real, sampleTime: real)
    requires SqrtLaw()
    requires AimDistance(x0, y0, targetX, GroundY) != 0.0
    requires 0.0 < y0 && 0.0 < speed && 0.0 < sampleTime
    ensures ProjectilePosition(x0, y0, targetX, GroundY, speed, sampleTime).y < y0
  {
    var d := AimDistance(x0, y0, targetX, GroundY);
    SumSqPositive(targetX - x0, GroundY - y0);
    SqrtAt(SumSq(targetX - x0, GroundY - y0));
    var vy := CalcVelocity(y0, GroundY, d, speed);
    assert vy * d == speed * (GroundY - y0);
    MulPositive(speed, y0);
    if vy >= 0.0 {
      MulNonNegative(vy, d);
    }
    MulPositive(-vy, sampleTime);
  }

  /**
   * If the sample (px, py) is on the line from (x0, y0) to (targetX, 0),
   * then (targetX, 0) is where that line, followed from the sample, meets the
   * ground.
   */
  lemma TargetOnSampleLine(x0: real, y0: real, px: real, py: real, targetX: real)
    requires (px - x0) * (GroundY - y0) == (py - y0) * (targetX - x0)
    ensures (targetX - px) * (y0 - py) == py * (px - x0)
  {
    calc {
      (targetX - px) * (y0 - py);
      (targetX - x0) * (y0 - py) - (px - x0) * (y0 - py);
      (px - x0) * y0 - (px - x0) * (y0 - py);
      py * (px - x0);
    }
  }

  /** The projectile's course as calcInterceptionPoint estimates it: the
      distance from the sample to the impact point and the velocity. */
  datatype Course = Course(distance: real, vX: real, vY: real)

  /**
   * The course built from the sample (px, py) toward the impact point
   * (impactPointX, targetY) with the estimated speed: a velocity of that
   * magnitude, parallel to the segment and, for a positive speed, pointing
   * toward the impact point.
   */
  function EstimateCourse(px: real, py: real, impactPointX: real, targetY: real, projectileSpeed: real): (c: Course)
    requires CalcDistance(px, py, impactPointX, targetY) != 0.0
    ensures c.distance == CalcDistance(px, py, impactPointX, targetY)
    ensures SqrtLaw() ==>
              && c.distance * c.distance == SqDist(Point(impactPointX, targetY), Point(px, py))
              && c.vX * c.vX + c.vY * c.vY == projectileSpeed * projectileSpeed
              && c.vX * (targetY - py) == c.vY * (impactPointX - px)
              && (projectileSpeed > 0.0 ==> c.vX * (impactPointX - px) + c.vY * (targetY - py) > 0.0)
  {
    var distance := CalcDistance(px, py, impactPointX, targetY);
    var c := Course(distance, CalcVelocity(px, impactPointX, distance, projectileSpeed),
                    CalcVelocity(py, targetY, distance, projectileSpeed));
    assert SqrtLaw() ==>
             && c.vX * c.vX + c.vY * c.vY == projectileSpeed * projectileSpeed
             && c.vX * (targetY - py) == c.vY * (impactPointX - px)
             && (projectileSpeed > 0.0 ==> c.vX * (impactPointX - px) + c.vY * (targetY - py) > 0.0)
    by {
      if SqrtLaw() {
        VelocityTowardPoint(px, py, impactPointX, targetY, projectileSpeed);
      }
    }
    c
  }

  /** The launcher's side of the solve: the time, the truncated intercept point and the launch angle. */
  datatype Aim = Aim(t: real, iX: real, iY: real, launchAngle: real)

  /** The solver is never asked to solve a constant equation. */
  predicate CanAim(px: real, py: real, vX: real, vY: real, launcherX: real, launcherY: real, launcherSpeed: real)
  {
    var q := Coefficients(px, py, launcherX, launcherY, vX, vY, launcherSpeed);
    Solvable(q.a, q.b)
  }

  /**
   * The second half of calcInterceptionPoint: calcT on the sample, the
   * launcher's origin and its speed; the extrapolated point truncated toward
   * zero; the angle from the launcher's current position to that point. The
   * intercept point is in whole numbers, no farther from zero than the exact
   * point and, within the range of int, less than one away from it.
   */
  function AimLauncher(px: real, py: real, vX: real, vY: real,
                       launcherX: real, launcherY: real, launcherSpeed: real, launcherCurrentX: real): (a: Aim)
    requires CanAim(px, py, vX, vY, launcherX, launcherY, launcherSpeed)
    ensures var exact := FindCorrectPoint(px, py, vX, vY, a.t);
            && a.iX.Floor as real == a.iX && a.iY.Floor as real == a.iY
            && Abs(a.iX) <= Abs(exact.x) && Abs(a.iY) <= Abs(exact.y)
            && (IntMin as real <= exact.x <= IntMax as real ==> Abs(a.iX - exact.x) < 1.0)
            && (IntMin as real <= exact.y <= IntMax as real ==> Abs(a.iY - exact.y) < 1.0)
  {
    var t := CalcT(px, py, launcherX, launcherY, vX, vY, launcherSpeed);
    var interceptionPoint := FindCorrectPoint(px, py, vX, vY, t);
    var iX := IntCast(interceptionPoint.x) as real;
    var iY := IntCast(interceptionPoint.y) as real;
    Aim(t, iX, iY, Atan2(iY, iX - launcherCurrentX))
  }

  /**
   * The time of the aim is calcT's: whenever the collision quadratic has a
   * real root, the extrapolated point is exactly launcherSpeed·t from the
   * launcher's origin, and no earlier positive time would do.
   */
  lemma AimTimeIsEarliestCollision(px: real, py: real, vX: real, vY: real,
                                                      launcherX: real, launcherY: real, launcherSpeed: real,
                                                      launcherCurrentX: real)
    requires SqrtLaw()
    requires CanAim(px, py, vX, vY, launcherX, launcherY, launcherSpeed)
    ensures var a := AimLauncher(px, py, vX, vY, launcherX, launcherY, launcherSpeed, launcherCurrentX);
            var q := Coefficients(px, py, launcherX, launcherY, vX, vY, launcherSpeed);
            (q.a == 0.0 && q.b != 0.0) || (q.a != 0.0 && Discriminant(q) >= 0.0) ==>
              && MeetsAt(px, py, launcherX, launcherY, vX, vY, launcherSpeed, a.t)
              && (a.t > 0.0 ==> forall t' :: 0.0 < t' < a.t ==>
                    !MeetsAt(px, py, launcherX, launcherY, vX, vY, launcherSpeed, t'))
  {
    var q := Coefficients(px, py, launcherX, launcherY, vX, vY, launcherSpeed);
    if (q.a == 0.0 && q.b != 0.0) || (q.a != 0.0 && Discriminant(q) >= 0.0) {
      CalcTIsEarliestCollision(px, py, launcherX, launcherY, vX, vY, launcherSpeed);
    }
  }

  /**
   * The launch angle heads for the intercept point: a launcher at
   * (launcherCurrentX, 0) flying along it at launcherSpeed reaches (iX, iY)
   * after the time its distance to that point takes.
   */
  lemma LaunchAngleHeadsToIntercept(px: real, py: real, vX: real, vY: real,
                                                       launcherX: real, launcherY: real, launcherSpeed: real,
                                                       launcherCurrentX: real)
    requires Atan2Law()
    requires launcherSpeed != 0.0
    requires CanAim(px, py, vX, vY, launcherX, launcherY, launcherSpeed)
    ensures var a := AimLauncher(px, py, vX, vY, launcherX, launcherY, launcherSpeed, launcherCurrentX);
            var flight := Hypot(a.iX - launcherCurrentX, a.iY) / launcherSpeed;
            LauncherPosition(launcherCurrentX, GroundY, launcherSpeed, flight, a.launchAngle) == Point(a.iX, a.iY)
  {
    var a := AimLauncher(px, py, vX, vY, launcherX, launcherY, launcherSpeed, launcherCurrentX);
    HeadingReachesPoint(launcherCurrentX, a.iX, a.iY, launcherSpeed);
  }

  /** Under the atan2 law, flying from (x, 0) along atan2(iY, iX − x) for the
      distance to (iX, iY) ends at (iX, iY). */
  lemma HeadingReachesPoint(x: real, iX: real, iY: real, speed: real)
    requires Atan2Law() && speed != 0.0
    ensures LauncherPosition(x, GroundY, speed, Hypot(iX - x, iY) / speed, Atan2(iY, iX - x)) == Point(iX, iY)
  {
    assert Atan2At(iY, iX - x);
    var h := Hypot(iX - x, iY);
    FlyAlong(speed, h, Cos(Atan2(iY, iX - x)), iX - x);
    FlyAlong(speed, h, Sin(Atan2(iY, iX - x)), iY);
  }

  /** Flying h / speed at speed along a unit component c covers c·h. */
  lemma FlyAlong(speed: real, h: real, c: real, delta: real)
    requires speed != 0.0 && c * h == delta
    ensures speed * (h / speed) * c == delta
  {
    assert speed * (h / speed) == h;
  }

  /** The values calcInterceptionPoint assigns, in the order of its fields. */
  datatype Solution = Solution(distanceFromIdentificationToImpact: real, vX: real, vY: real, t: real,
                               iX: real, iY: real, launchAngle: real)

  /**
   * Every division of calcInterceptionPoint has a nonzero divisor, and the
   * solver is never asked to solve a constant equation.
   */
  predicate CanSolve(x0: real, y0: real, px: real, py: real, targetY: real,
                     launcherX: real, launcherY: real, launcherSpeed: real, radarTime: real)
  {
    && CanEstimate(x0, y0, px, py, radarTime)
    && var data := CalcProjectileData(x0, y0, px, py, radarTime);
       && CalcDistance(px, py, data.impactPointX, targetY) != 0.0
       && var c := EstimateCourse(px, py, data.impactPointX, targetY, data.projectileSpeed);
          CanAim(px, py, c.vX, c.vY, launcherX, launcherY, launcherSpeed)
  }

  /**
   * calcInterceptionPoint as a function of what it reads: the projectile's
   * origin, its sampled position and its target's y, the launcher's origin,
   * speed and current x, and the radar time. It is the estimated course
   * followed by the aim.
   */
  function Solve(x0: real, y0: real, px: real, py: real, targetY: real,
                 launcherX: real, launcherY: real, launcherSpeed: real, launcherCurrentX: real,
                 radarTime: real): Solution
    requires CanSolve(x0, y0, px, py, targetY, launcherX, launcherY, launcherSpeed, radarTime)
  {
    var data := CalcProjectileData(x0, y0, px, py, radarTime);
    var c := EstimateCourse(px, py, data.impactPointX, targetY, data.projectileSpeed);
    var a := AimLauncher(px, py, c.vX, c.vY, launcherX, launcherY, launcherSpeed, launcherCurrentX);
    Solution(c.distance, c.vX, c.vY, a.t, a.iX, a.iY, a.launchAngle)
  }

  /**
   * What the solve's results mean: the distance runs from the sample to the
   * estimated impact point; under the square-root law the velocity has the
   * estimated speed as its magnitude; the intercept point is in whole numbers
   * and no farther from zero than the extrapolated point at the chosen time.
   */
  lemma SolveResults(x0: real, y0: real, px: real, py: real, targetY: real,
                     launcherX: real, launcherY: real, launcherSpeed: real, launcherCurrentX: real,
                     radarTime: real)
    requires CanSolve(x0, y0, px, py, targetY, launcherX, launcherY, launcherSpeed, radarTime)
    ensures var data := CalcProjectileData(x0, y0, px, py, radarTime);
            var s := Solve(x0, y0, px, py, targetY, launcherX, launcherY, launcherSpeed, launcherCurrentX, radarTime);
            var exact := FindCorrectPoint(px, py, s.vX, s.vY, s.t);
            && s.distanceFromIdentificationToImpact == CalcDistance(px, py, data.impactPointX, targetY)
            && (SqrtLaw() ==> s.vX * s.vX + s.vY * s.vY == data.projectileSpeed * data.projectileSpeed)
            && s.iX.Floor as real == s.iX && s.iY.Floor as real == s.iY
            && Abs(s.iX) <= Abs(exact.x) && Abs(s.iY) <= Abs(exact.y)
  {
  }

  /** Interception.java: the solve's inputs (by reference) and its results. */
  class Interception {
    const projectile: Projectile
    const launcher: Launcher
    var launchAngle: real
    var iX: real
    var iY: real
    var distanceFromIdentificationToImpact: real
    var vX: real
    var vY: real
    var t: real
    var hasInterceptionCalculated: bool

    /** Interception(projectile, launcher): stores the two references; nothing is solved yet. */
    constructor(projectile: Projectile, launcher: Launcher)
      ensures this.projectile == projectile && this.launcher == launcher
      ensures Snapshot() == Solution(0.0, 0.0, 0.0, 0.0, 0.0, 0.0, 0.0)
      ensures !hasInterceptionCalculated
    {
      this.projectile := projectile;
      this.launcher := launcher;
      launchAngle := 0.0;
      iX := 0.0;
      iY := 0.0;
      distanceFromIdentificationToImpact := 0.0;
      vX := 0.0;
      vY := 0.0;
      t := 0.0;
      hasInterceptionCalculated := false;
    }

    /** The results of the last solve, as one value. */
    function Snapshot(): Solution
      reads this
    {
      Solution(distanceFromIdentificationToImpact, vX, vY, t, iX, iY, launchAngle)
    }

    /** The solve is well defined on the current state of the two bodies. */
    predicate Ready(radarTime: real)
      reads this, projectile, launcher
    {
      CanSolve(projectile.x, projectile.y, projectile.currentX, projectile.currentY, projectile.targetY,
               launcher.x, launcher.y, launcher.speed, radarTime)
    }

    /**
     * calcInterceptionPoint(radarTime): the results become Solve on the
     * current state of the two bodies. Only this object's result fields are
     * written; the projectile, the launcher and the flag are left alone.
     */
    method CalcInterceptionPoint(radarTime: real)
      requires Ready(radarTime)
      modifies this`launchAngle, this`iX, this`iY, this`distanceFromIdentificationToImpact,
               this`vX, this`vY, this`t
      ensures Snapshot() == Solve(projectile.x, projectile.y, projectile.currentX, projectile.currentY,
                                  projectile.targetY, launcher.x, launcher.y, launcher.speed,
                                  launcher.currentX, radarTime)
    {
      var pData := CalcProjectileData(projectile.x, projectile.y, projectile.currentX, projectile.currentY, radarTime);
      var px, py := pData.px, pData.py;
      distanceFromIdentificationToImpact := CalcDistance(px, py, pData.impactPointX, projectile.targetY);
      vX := CalcVelocity(px, pData.impactPointX, distanceFromIdentificationToImpact, pData.projectileSpeed);
      vY := CalcVelocity(py, projectile.targetY, distanceFromIdentificationToImpact, pData.projectileSpeed);
      ghost var course := EstimateCourse(px, py, pData.impactPointX, projectile.targetY, pData.projectileSpeed);
      assert course == Course(distanceFromIdentificationToImpact, vX, vY);
      t := CalcT(px, py, launcher.x, launcher.y, vX, vY, launcher.speed);
      var interceptionPoint := FindCorrectPoint(px, py, vX, vY, t);
      iX := IntCast(interceptionPoint.x) as real;
      iY := IntCast(interceptionPoint.y) as real;
      launchAngle := Atan2(iY, iX - launcher.currentX);
      assert AimLauncher(px, py, vX, vY, launcher.x, launcher.y, launcher.speed, launcher.currentX)
          == Aim(t, iX, iY, launchAngle);
    }
  }
}
