/**
 * The vector arithmetic and the collision-course solver of Utility.java.
 *
 * The solver looks for a time t at which a launcher leaving (launcherX,
 * launcherY) at a fixed speed can be where the projectile, moving in a
 * straight line from (projectileX, projectileY) with velocity (vX, vY), is at
 * that same time. Squaring "the launcher has covered launcherSpeed·t" gives the
 * quadratic a·t² + b·t + c = 0 that Coefficients builds.
 */
module Utility {
  import opened RealMath

  datatype Point = Point(x: real, y: real)

  /** Squared Euclidean distance between two points. */
  function SqDist(p: Point, q: Point): real
  {
    SumSq(p.x - q.x, p.y - q.y)
  }

  /** The position reached from (x1, y1) after moving with velocity (vX, vY)
      for a time t. */
  function FindCorrectPoint(x1: real, y1: real, vX: real, vY: real, t: real): (p: Point)
    ensures t == 0.0 ==> p == Point(x1, y1)
    ensures (p.x - x1) * vY == (p.y - y1) * vX
  {
    Point(x1 + vX * t, y1 + vY * t)
  }

  /** Moving for t1 and then for t2 with the same velocity is moving for t1 + t2. */
  lemma FindCorrectPointAdditive(x1: real, y1: real, vX: real, vY: real, t1: real, t2: real)
    ensures var p := FindCorrectPoint(x1, y1, vX, vY, t1);
            FindCorrectPoint(p.x, p.y, vX, vY, t2) == FindCorrectPoint(x1, y1, vX, vY, t1 + t2)
  {
    assert vX * t1 + vX * t2 == vX * (t1 + t2);
    assert vY * t1 + vY * t2 == vY * (t1 + t2);
  }

  datatype Quadratic = Quadratic(a: real, b: real, c: real)

  function Eval(q: Quadratic, t: real): real
  {
    q.a * t * t + q.b * t + q.c
  }

  function Discriminant(q: Quadratic): real
  {
    q.b * q.b - 4.0 * q.a * q.c
  }

  /**
   * The coefficients calcT builds for the intercept-time quadratic: the
   * constant term is the squared distance between the projectile and the
   * launcher at time 0, and the leading term is the projectile's squared
   * speed less the launcher's. CollisionEncoding gives the whole quadratic's
   * meaning.
   */
  function Coefficients(projectileX: real, projectileY: real, launcherX: real, launcherY: real,
                        vX: real, vY: real, launcherSpeed: real): (q: Quadratic)
    ensures q.c == SqDist(Point(projectileX, projectileY), Point(launcherX, launcherY))
    ensures q.a == SumSq(vX, vY) - launcherSpeed * launcherSpeed
  {
    var dx := projectileX - launcherX;
    var dy := projectileY - launcherY;
    Quadratic(-(launcherSpeed * launcherSpeed) + vX * vX + vY * vY,
              2.0 * (dx * vX + dy * vY),
              dx * dx + dy * dy)
  }

  /**
   * The quadratic encodes the collision course: at every time t it is the
   * squared distance from the launcher's start to the projectile's position
   * at t, minus the squared distance the launcher covers in t. Its roots are
   * exactly the times at which the two can meet.
   */
  lemma CollisionEncoding(projectileX: real, projectileY: real, launcherX: real, launcherY: real,
                          vX: real, vY: real, launcherSpeed: real, t: real)
    ensures var q := Coefficients(projectileX, projectileY, launcherX, launcherY, vX, vY, launcherSpeed);
            var p := FindCorrectPoint(projectileX, projectileY, vX, vY, t);
            Eval(q, t) == SqDist(p, Point(launcherX, launcherY)) - (launcherSpeed * t) * (launcherSpeed * t)
  {
    var dx := projectileX - launcherX;
    var dy := projectileY - launcherY;
    var p := FindCorrectPoint(projectileX, projectileY, vX, vY, t);
    assert Coefficients(projectileX, projectileY, launcherX, launcherY, vX, vY, launcherSpeed)
        == Quadratic(-(launcherSpeed * launcherSpeed) + vX * vX + vY * vY, 2.0 * (dx * vX + dy * vY), dx * dx + dy * dy);
    assert p.x - launcherX == dx + vX * t && p.y - launcherY == dy + vY * t;
    assert SqDist(p, Point(launcherX, launcherY)) == SumSq(dx + vX * t, dy + vY * t);
    CollisionAlgebra(dx, dy, vX, vY, launcherSpeed, t);
  }

  /** The polynomial identity behind CollisionEncoding, on plain variables. */
  lemma CollisionAlgebra(dx: real, dy: real, vX: real, vY: real, speed: real, t: real)
    ensures Eval(Quadratic(-(speed * speed) + vX * vX + vY * vY, 2.0 * (dx * vX + dy * vY), dx * dx + dy * dy), t)
              == SumSq(dx + vX * t, dy + vY * t) - (speed * t) * (speed * t)
  {
    ExpandSquare(dx, vX, t);
    ExpandSquare(dy, vY, t);
  }

  lemma ExpandSquare(d: real, v: real, t: real)
    ensures (d + v * t) * (d + v * t) == d * d + 2.0 * (d * v) * t + (v * v) * (t * t)
  {
  }

  /** A quadratic the solver may be given: when it is linear, it is not constant. */
  predicate Solvable(a: real, b: real)
  {
    a == 0.0 ==> b != 0.0
  }

  /** solveQuadraticPlus: the root with +√disc, the linear root when a = 0,
      and 0 when there is no real root. */
  function SolveQuadraticPlus(a: real, b: real, c: real): (t: real)
    requires Solvable(a, b)
    ensures a == 0.0 ==> b * t + c == 0.0
    ensures a != 0.0 && Discriminant(Quadratic(a, b, c)) < 0.0 ==> t == 0.0
    ensures a != 0.0 && Discriminant(Quadratic(a, b, c)) >= 0.0 ==>
              t * (2.0 * a) == -b + Sqrt(Discriminant(Quadratic(a, b, c)))
  {
    var discriminant := Discriminant(Quadratic(a, b, c));
    if a == 0.0 then -(c / b)
    else if discriminant < 0.0 then 0.0
    else DivideBack(-b + Sqrt(discriminant), 2.0 * a); (-b + Sqrt(discriminant)) / (2.0 * a)
  }

  /** solveQuadraticMinus: the root with −√disc, the linear root when a = 0,
      and 0 when there is no real root. */
  function SolveQuadraticMinus(a: real, b: real, c: real): (t: real)
    requires Solvable(a, b)
    ensures a == 0.0 ==> b * t + c == 0.0
    ensures a != 0.0 && Discriminant(Quadratic(a, b, c)) < 0.0 ==> t == 0.0
    ensures a != 0.0 && Discriminant(Quadratic(a, b, c)) >= 0.0 ==>
              t * (2.0 * a) == -b - Sqrt(Discriminant(Quadratic(a, b, c)))
  {
    var discriminant := Discriminant(Quadratic(a, b, c));
    if a == 0.0 then -(c / b)
    else if discriminant < 0.0 then 0.0
    else DivideBack(-b - Sqrt(discriminant), 2.0 * a); (-b - Sqrt(discriminant)) / (2.0 * a)
  }

  lemma DivideBack(x: real, y: real)
    requires y != 0.0
    ensures (x / y) * y == x
  {
  }

  /** In the linear case both solvers give the same, single root −c/b. */
  lemma LinearCaseAgrees(a: real, b: real, c: real)
    requires a == 0.0 && b != 0.0
    ensures SolveQuadraticPlus(a, b, c) == SolveQuadraticMinus(a, b, c) == -(c / b)
  {
  }

  /** 4a·(a·t² + b·t + c) = (2a·t + b)² − disc, the completed square. */
  lemma CompletedSquare(q: Quadratic, t: real)
    ensures 4.0 * q.a * Eval(q, t) == (2.0 * q.a * t + q.b) * (2.0 * q.a * t + q.b) - Discriminant(q)
  {
  }

  /** When a ≠ 0 and the discriminant is non-negative, both solvers return
      roots of the quadratic. */
  lemma SolversReturnRoots(a: real, b: real, c: real)
    requires SqrtLaw()
    requires a != 0.0 && Discriminant(Quadratic(a, b, c)) >= 0.0
    ensures Eval(Quadratic(a, b, c), SolveQuadraticPlus(a, b, c)) == 0.0
    ensures Eval(Quadratic(a, b, c), SolveQuadraticMinus(a, b, c)) == 0.0
  {
    var q := Quadratic(a, b, c);
    var disc := Discriminant(q);
    SqrtAt(disc);
    var s := Sqrt(disc);
    var tP, tM := SolveQuadraticPlus(a, b, c), SolveQuadraticMinus(a, b, c);
    RootFromSquare(q, tP, s);
    RootFromSquare(q, tM, -s);
  }

  lemma RootFromSquare(q: Quadratic, t: real, s: real)
    requires q.a != 0.0 && s * s == Discriminant(q)
    requires t * (2.0 * q.a) == -q.b + s
    ensures Eval(q, t) == 0.0
  {
    CompletedSquare(q, t);
    assert 2.0 * q.a * t + q.b == s;
    assert 4.0 * q.a * Eval(q, t) == 0.0;
    ZeroProduct(4.0 * q.a, Eval(q, t));
  }

  /** Every root of a proper quadratic is one of the two the solvers return. */
  lemma RootsAreSolverResults(a: real, b: real, c: real, t: real)
    requires SqrtLaw()
    requires a != 0.0
    ensures Eval(Quadratic(a, b, c), t) == 0.0 ==>
              Discriminant(Quadratic(a, b, c)) >= 0.0 &&
              (t == SolveQuadraticPlus(a, b, c) || t == SolveQuadraticMinus(a, b, c))
  {
    if Eval(Quadratic(a, b, c), t) != 0.0 {
      return;
    }
    var q := Quadratic(a, b, c);
    var u := 2.0 * a * t + b;
    CompletedSquare(q, t);
    SquareNonNegative(u);
    var disc := Discriminant(q);
    assert u * u == disc;
    if u >= 0.0 {
      SqrtUnique(disc, u);
      SolverMatches(a, b, t, u, SolveQuadraticPlus(a, b, c));
    } else {
      SqrtUnique(disc, -u);
      SolverMatches(a, b, t, u, SolveQuadraticMinus(a, b, c));
    }
  }

  /** A solver result tS with tS·2a = −b + u, where u = 2a·t + b, is t. */
  lemma SolverMatches(a: real, b: real, t: real, u: real, tS: real)
    requires a != 0.0 && u == 2.0 * a * t + b && tS * (2.0 * a) == -b + u
    ensures t == tS
  {
    CancelFactor(t, tS, 2.0 * a);
  }

  /** With a negative discriminant no time solves the quadratic: the launcher
      can never meet the projectile, and the solvers' 0 is a sentinel. */
  lemma NegativeDiscriminantHasNoRoot(q: Quadratic, t: real)
    requires Discriminant(q) < 0.0
    ensures Eval(q, t) != 0.0
  {
    CompletedSquare(q, t);
    SquareNonNegative(2.0 * q.a * t + q.b);
  }

  function Min(x: real, y: real): real
  {
    if x <= y then x else y
  }

  /** The root-selection rule of calcT, on the two solver results. */
  function SelectTime(tP: real, tM: real): (t: real)
    ensures t == tP || t == tM
    ensures (tP < 0.0 < tM) || (tM < 0.0 < tP) ==> t > 0.0
    ensures !((tP < 0.0 < tM) || (tM < 0.0 < tP)) ==> t <= tP && t <= tM
  {
    if tP < 0.0 && tM > 0.0 then tM
    else if tM < 0.0 && tP > 0.0 then tP
    else Min(tP, tM)
  }

  /**
   * calcT: of the two solver results, the positive one when they straddle
   * zero strictly, and otherwise the smaller one (even when that is 0 or
   * negative).
   */
  function CalcT(projectileX: real, projectileY: real, launcherX: real, launcherY: real,
                 vX: real, vY: real, launcherSpeed: real): (t: real)
    requires var q := Coefficients(projectileX, projectileY, launcherX, launcherY, vX, vY, launcherSpeed);
             Solvable(q.a, q.b)
    ensures var q := Coefficients(projectileX, projectileY, launcherX, launcherY, vX, vY, launcherSpeed);
            var tP := SolveQuadraticPlus(q.a, q.b, q.c);
            var tM := SolveQuadraticMinus(q.a, q.b, q.c);
            && (t == tP || t == tM)
            && ((tP < 0.0 < tM) || (tM < 0.0 < tP) ==> t > 0.0)
            && (!((tP < 0.0 < tM) || (tM < 0.0 < tP)) ==> t <= tP && t <= tM)
  {
    var q := Coefficients(projectileX, projectileY, launcherX, launcherY, vX, vY, launcherSpeed);
    SelectTime(SolveQuadraticPlus(q.a, q.b, q.c), SolveQuadraticMinus(q.a, q.b, q.c))
  }

  /** Whenever the quadratic has a real root, the selected time is a root, and
      when it is positive no smaller positive time is a root. */
  lemma SelectedTimeIsEarliestRoot(a: real, b: real, c: real)
    requires SqrtLaw()
    requires (a == 0.0 && b != 0.0) || (a != 0.0 && Discriminant(Quadratic(a, b, c)) >= 0.0)
    ensures var t := SelectTime(SolveQuadraticPlus(a, b, c), SolveQuadraticMinus(a, b, c));
            && Eval(Quadratic(a, b, c), t) == 0.0
            && (t > 0.0 ==> forall t' :: 0.0 < t' < t ==> Eval(Quadratic(a, b, c), t') != 0.0)
  {
    var q := Quadratic(a, b, c);
    var tP, tM := SolveQuadraticPlus(a, b, c), SolveQuadraticMinus(a, b, c);
    var t := SelectTime(tP, tM);
    if a != 0.0 {
      SolversReturnRoots(a, b, c);
    } else {
      assert tP == tM && b * t + c == 0.0;
    }
    if t > 0.0 {
      forall t' | 0.0 < t' < t
        ensures Eval(q, t') != 0.0
      {
        if a != 0.0 {
          RootsAreSolverResults(a, b, c, t');
        } else {
          assert Eval(q, t') == b * (t' - t) + (b * t + c);
          NonZeroProduct(b, t' - t);
        }
      }
    }
  }

  /** The squared distance from the launcher's start to where the projectile
      is at time t equals the squared distance the launcher covers in t. */
  ghost predicate MeetsAt(projectileX: real, projectileY: real, launcherX: real, launcherY: real,
                          vX: real, vY: real, launcherSpeed: real, t: real)
  {
    SqDist(FindCorrectPoint(projectileX, projectileY, vX, vY, t), Point(launcherX, launcherY))
      == (launcherSpeed * t) * (launcherSpeed * t)
  }

  /**
   * When a real solution exists, calcT's time is a collision time: the point
   * findCorrectPoint extrapolates to is exactly launcherSpeed·t from the
   * launcher. When that time is positive, no earlier positive time is one.
   */
  lemma CalcTIsEarliestCollision(projectileX: real, projectileY: real,
                                                    launcherX: real, launcherY: real,
                                                    vX: real, vY: real, launcherSpeed: real)
    requires SqrtLaw()
    requires var q := Coefficients(projectileX, projectileY, launcherX, launcherY, vX, vY, launcherSpeed);
             (q.a == 0.0 && q.b != 0.0) || (q.a != 0.0 && Discriminant(q) >= 0.0)
    ensures var t := CalcT(projectileX, projectileY, launcherX, launcherY, vX, vY, launcherSpeed);
            && MeetsAt(projectileX, projectileY, launcherX, launcherY, vX, vY, launcherSpeed, t)
            && (t > 0.0 ==> forall t' :: 0.0 < t' < t ==>
                  !MeetsAt(projectileX, projectileY, launcherX, launcherY, vX, vY, launcherSpeed, t'))
  {
    var q := Coefficients(projectileX, projectileY, launcherX, launcherY, vX, vY, launcherSpeed);
    var t := CalcT(projectileX, projectileY, launcherX, launcherY, vX, vY, launcherSpeed);
    SelectedTimeIsEarliestRoot(q.a, q.b, q.c);
    assert Quadratic(q.a, q.b, q.c) == q;
    MeetsIffRoot(projectileX, projectileY, launcherX, launcherY, vX, vY, launcherSpeed, t);
    if t > 0.0 {
      forall t' | 0.0 < t' < t
        ensures !MeetsAt(projectileX, projectileY, launcherX, launcherY, vX, vY, launcherSpeed, t')
      {
        MeetsIffRoot(projectileX, projectileY, launcherX, launcherY, vX, vY, launcherSpeed, t');
      }
    }
  }

  /** The two meet at t exactly when t is a root of the quadratic. */
  lemma MeetsIffRoot(projectileX: real, projectileY: real, launcherX: real, launcherY: real,
                     vX: real, vY: real, launcherSpeed: real, t: real)
    ensures MeetsAt(projectileX, projectileY, launcherX, launcherY, vX, vY, launcherSpeed, t) <==>
            Eval(Coefficients(projectileX, projectileY, launcherX, launcherY, vX, vY, launcherSpeed), t) == 0.0
  {
    CollisionEncoding(projectileX, projectileY, launcherX, launcherY, vX, vY, launcherSpeed, t);
  }

  /** calcDistance: the Euclidean distance between (x1, y1) and (x2, y2). */
  function CalcDistance(x1: real, y1: real, x2: real, y2: real): (d: real)
    ensures SqrtLaw() ==> d >= 0.0 && d * d == SqDist(Point(x2, y2), Point(x1, y1))
  {
    SumSqPositive(x2 - x1, y2 - y1);
    assert SqrtLaw() ==> IsSqrtAt(SumSq(x2 - x1, y2 - y1));
    Sqrt(SumSq(x2 - x1, y2 - y1))
  }

  /** calcDistance is a distance: symmetric, and zero exactly for equal points. */
  lemma CalcDistanceIsMetric(x1: real, y1: real, x2: real, y2: real)
    ensures CalcDistance(x1, y1, x2, y2) == CalcDistance(x2, y2, x1, y1)
    ensures SqrtLaw() ==> (CalcDistance(x1, y1, x2, y2) == 0.0 <==> x1 == x2 && y1 == y2)
  {
    assert SumSq(x2 - x1, y2 - y1) == SumSq(x1 - x2, y1 - y2);
    if SqrtLaw() {
      SumSqPositive(x2 - x1, y2 - y1);
      SqrtZero(SumSq(x2 - x1, y2 - y1));
    }
  }

  /** calcVelocity: the component, along one axis, of a velocity of the given
      speed pointing from x1 toward x2 over a total distance. */
  function CalcVelocity(x1: real, x2: real, distance: real, speed: real): (v: real)
    requires distance != 0.0
    ensures v * distance == speed * (x2 - x1)
  {
    (speed * (x2 - x1)) / distance
  }

  /**
   * With distance the calcDistance between the two endpoints, the two
   * calcVelocity components form a vector of magnitude |speed| that is
   * parallel to the segment and, for a positive speed, points from the first
   * endpoint toward the second.
   */
  lemma VelocityTowardPoint(x1: real, y1: real, x2: real, y2: real, speed: real)
    requires SqrtLaw()
    requires CalcDistance(x1, y1, x2, y2) != 0.0
    ensures var d := CalcDistance(x1, y1, x2, y2);
            var vx := CalcVelocity(x1, x2, d, speed);
            var vy := CalcVelocity(y1, y2, d, speed);
            && vx * vx + vy * vy == speed * speed
            && vx * (y2 - y1) == vy * (x2 - x1)
            && (speed > 0.0 ==> vx * (x2 - x1) + vy * (y2 - y1) > 0.0)
  {
    var d := CalcDistance(x1, y1, x2, y2);
    var dx, dy := x2 - x1, y2 - y1;
    var vx := CalcVelocity(x1, x2, d, speed);
    var vy := CalcVelocity(y1, y2, d, speed);
    assert d * d == dx * dx + dy * dy;
    ScaledMagnitude(vx, vy, d, speed, dx, dy);
    ScaledParallel(vx, vy, d, speed, dx, dy);
    if speed > 0.0 {
      ScaledAlong(vx, vy, d, speed, dx, dy);
    }
  }

  /** A vector (dx, dy) of length d, scaled by speed / d, has length |speed|. */
  lemma ScaledMagnitude(vx: real, vy: real, d: real, speed: real, dx: real, dy: real)
    requires 0.0 < d && d * d == dx * dx + dy * dy
    requires vx * d == speed * dx && vy * d == speed * dy
    ensures vx * vx + vy * vy == speed * speed
  {
    ScaledSquares(vx, vy, d, speed, dx, dy);
    CancelFactor((vx * vx + vy * vy) * d, (speed * speed) * d, d);
    CancelFactor(vx * vx + vy * vy, speed * speed, d);
  }

  lemma ScaledSquares(vx: real, vy: real, d: real, speed: real, dx: real, dy: real)
    requires d * d == dx * dx + dy * dy
    requires vx * d == speed * dx && vy * d == speed * dy
    ensures ((vx * vx + vy * vy) * d) * d == ((speed * speed) * d) * d
  {
    calc {
      ((vx * vx + vy * vy) * d) * d;
      (vx * d) * (vx * d) + (vy * d) * (vy * d);
      (speed * dx) * (speed * dx) + (speed * dy) * (speed * dy);
      (speed * speed) * (dx * dx + dy * dy);
      (speed * speed) * (d * d);
      ((speed * speed) * d) * d;
    }
  }

  lemma ScaledParallel(vx: real, vy: real, d: real, speed: real, dx: real, dy: real)
    requires d != 0.0
    requires vx * d == speed * dx && vy * d == speed * dy
    ensures vx * dy == vy * dx
  {
    calc {
      (vx * dy) * d;
      (vx * d) * dy;
      (speed * dx) * dy;
      (speed * dy) * dx;
      (vy * d) * dx;
      (vy * dx) * d;
    }
    CancelFactor(vx * dy, vy * dx, d);
  }

  lemma ScaledAlong(vx: real, vy: real, d: real, speed: real, dx: real, dy: real)
    requires 0.0 < d && d * d == dx * dx + dy * dy && 0.0 < speed
    requires vx * d == speed * dx && vy * d == speed * dy
    ensures vx * dx + vy * dy > 0.0
  {
    calc {
      (vx * dx + vy * dy) * d;
      (vx * d) * dx + (vy * d) * dy;
      (speed * dx) * dx + (speed * dy) * dy;
      speed * (dx * dx + dy * dy);
      (speed * d) * d;
    }
    CancelFactor(vx * dx + vy * dy, speed * d, d);
    MulPositive(speed, d);
  }
}
