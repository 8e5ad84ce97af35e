# Interception-Simulation, modelled in Dafny

This project models the logic of the Interception-Simulation program. That program is a small Swing toy with two bodies:
- a projectile flies in a straight line from a point in the sky toward an impact point on the ground;
- a launcher on the ground tries to intercept it.

At a fixed radar time, the simulation samples the projectile. From that sample it estimates the projectile's speed and impact point. It then solves a quadratic for the earliest time at which the launcher can meet the projectile, truncates the intercept point to whole numbers, and launches toward it. A timer tick advances the scenario and ends it in one of three ways:
- a hit;
- a ground impact;
- "cannot intercept", when the launch angle is under 20 degrees or the intercept point is degenerate.

All arithmetic is over Dafny's `real`. The square root, sine, cosine, tangent, arcsine, atan2 and degree conversion of `java.lang.Math` are uninterpreted constants. Each property that needs one of them takes the law it uses as a precondition:
- `SqrtLaw`: the square root is the non-negative root;
- `PythagorasLaw`: cos² + sin² = 1;
- `AsinTanLaw`: tan(asin u) = u/√(1−u²);
- `Atan2Law`: atan2 gives the direction of a vector.

Nothing about these functions is assumed anywhere.

The modules follow the source files:

| module | file | source |
|---|---|---|
| `RealMath` | real_math.dfy | the `java.lang.Math` functions used and Java's `(int)` cast |
| `Utility` | utility.dfy | Utility.java: point extrapolation, the collision quadratic, its two solvers, root selection, distance and velocity |
| `Projectiles` | projectiles.dfy | Projectile.java, as class `Projectile` plus the function `ProjectilePosition` that specifies its `update` |
| `Launchers` | launchers.dfy | Launcher.java, as class `Launcher` plus `LauncherPosition` and the hit test `WithinReach` |
| `Interceptions` | interceptions.dfy | Interception.java: the radar estimate `CalcProjectileData`, the pipeline of calcInterceptionPoint as the staged functions `EstimateCourse`, `AimLauncher` and `Solve`, and class `Interception` whose method writes `Solve`'s results into its fields |
| `Simulation` | simulation.dfy | the tick logic, start and reset of InterceptionSimulation.java, as class `InterceptionSimulation` with the ghost outcome of a scenario |

The radar samples the projectile at the first tick whose time is at least the radar time. The speed estimate still divides by the radar time itself. `RadarSpeedEstimate` states the consequence: the estimate equals speed·T/radarTime, where T is the actual sample time, so it is exact only when T equals the radar time. `RadarFindsImpactPoint` shows that the impact-point estimate does not depend on T.

## Model

| member | source | states |
|---|---|---|
| RealMath.IntCast | Interception.java:78-79 | The `(int)` cast lies in the range of int and has the sign of its argument. It is no farther from zero than the argument. Within the range of int it is less than one away from the argument, which is rounding toward zero. |
| Utility.FindCorrectPoint | Utility.java:16-20 | The extrapolated point is the start point at t = 0, and it lies on the line through the start point with direction (vX, vY). |
| Utility.FindCorrectPointAdditive | Utility.java:16-20 | Extrapolating for t1 and then for t2 with the same velocity gives the point for t1 + t2. |
| Utility.CollisionEncoding | Utility.java:36-38 | At every t, the quadratic with calcT's coefficients equals the squared distance from the launcher's start to the projectile's point at t, minus (launcherSpeed·t)². |
| Utility.MeetsIffRoot | Utility.java:36-38 | The launcher can meet the projectile at time t exactly when t is a root of calcT's quadratic. |
| Utility.SolveQuadraticPlus | Utility.java:62-77 | The three cases of the solver: for a = 0, the result solves b·t + c = 0; for a negative discriminant, the result is 0; otherwise t·2a = −b + √disc. |
| Utility.SolveQuadraticMinus | Utility.java:87-102 | The same three cases, with t·2a = −b − √disc. |
| Utility.LinearCaseAgrees | Utility.java:66-93 | When a = 0, both solvers return the same value, −(c/b). |
| Utility.SolversReturnRoots | Utility.java:62-102 | When a ≠ 0 and the discriminant is non-negative, both results are roots of a·t² + b·t + c. |
| Utility.RootsAreSolverResults | Utility.java:62-102 | When a ≠ 0, every root has a non-negative discriminant and equals one of the two solver results. |
| Utility.NegativeDiscriminantHasNoRoot | Utility.java:71-73 | With a negative discriminant no time is a root, so the 0 returned in that case is only a sentinel. |
| Utility.SelectTime | Utility.java:44-51 | The selection rule returns one of the two results. It returns the positive one when they strictly straddle 0, and otherwise the smaller one, even when that is 0 or negative. |
| Utility.Coefficients | Utility.java:36-38 | The constant term is the squared distance between the projectile and the launcher at time 0. The leading term is the projectile's squared speed less the launcher's. CollisionEncoding gives the meaning of the whole quadratic. |
| Utility.CalcT | Utility.java:34-52 | calcT returns one of the two solver results for its coefficients, chosen by the same rule. |
| Utility.SelectedTimeIsEarliestRoot | Utility.java:41-51 | Whenever the quadratic has a real root, the selected time is a root. When that time is positive, no smaller positive time is a root. |
| Utility.CalcTIsEarliestCollision | Utility.java:34-52 | Whenever a real solution exists, calcT's time is a meeting time. When it is positive, no earlier positive time is a meeting time. |
| Utility.CalcDistance | Utility.java:113-115 | The distance is non-negative and its square is the squared Euclidean distance. |
| Utility.CalcDistanceIsMetric | Utility.java:113-115 | The distance is symmetric, and zero exactly for identical points. |
| Utility.CalcVelocity | Utility.java:126-128 | The component times the distance is speed·(x2 − x1). |
| Utility.VelocityTowardPoint | Utility.java:126-128 | The two components over the calcDistance of the endpoints have squared magnitude speed². They are parallel to the segment and, for a positive speed, point toward its end. |
| Projectiles.ProjectilePosition | Projectile.java:59-70 | The position at time 0 is the origin. |
| Projectiles.ProjectileOnAimLine | Projectile.java:64-69 | At every time, the position is on the line through the origin and the target. |
| Projectiles.ProjectileTravel | Projectile.java:61-69 | After a time t, the squared distance from the origin is (speed·t)². |
| Projectiles.ProjectileReachesTarget | Projectile.java:61-69 | At time distance/speed the projectile is exactly on its target. |
| Projectiles.OutOfBoundsPastImpact | Projectile.java:77-79 | For a projectile above the ground with positive speed, isOutOfBounds holds exactly when it has flown farther than its aim distance. |
| Projectiles.Projectile.constructor | Projectile.java:22-30 | Stores origin, speed and target x, sets the target y to 0, and sets the current position to the origin. |
| Projectiles.Projectile.Default | Projectile.java:35-43 | The same, with the default origin (100, 800), speed 100 and impact x 400. |
| Projectiles.Projectile.IsOutOfBounds | Projectile.java:77-79 | Below the ground line y = 0. OutOfBoundsAt gives its meaning for a projectile in flight. |
| Projectiles.Projectile.OutOfBoundsAt | Projectile.java:77-79 | For a projectile above the ground with positive speed, placed where update(time) puts it, isOutOfBounds holds exactly when speed·time exceeds the aim distance. |
| Projectiles.Projectile.Update | Projectile.java:59-70 | The current position becomes ProjectilePosition at the given total time, whatever it was before. Only the two current fields change. |
| Launchers.LauncherPosition | Launcher.java:44-48 | The position after time 0 is the origin. |
| Launchers.LauncherTravel | Launcher.java:46-47 | Given cos² + sin² = 1, after time t the squared distance from the origin is (speed·t)². |
| Launchers.WithinReach | Launcher.java:92-95 | The hit test holds exactly when the squared distance between the two positions is below 20² = 400. |
| Launchers.WithinReachSymmetric | Launcher.java:92-95 | The hit test gives the same answer with the two positions swapped. |
| Launchers.Launcher.constructor | Launcher.java:19-25 | Stores origin x and speed, puts the launcher on the ground (y = 0), and sets the current position to the origin. |
| Launchers.Launcher.Default | Launcher.java:30-36 | The same, with the default x 200 and speed 100. |
| Launchers.Launcher.Intercepts | Launcher.java:92-95 | The hit test on the two current positions. Under the square-root law it holds exactly when their squared distance is below 20² = 400. |
| Launchers.Launcher.Update | Launcher.java:44-48 | The current position becomes LauncherPosition for the given time and angle. Only the two current fields change. |
| Interceptions.CalcProjectileData | Interception.java:91-108 | The sample is returned unchanged, and the speed estimate times radarTime is the distance flown from the origin. |
| Interceptions.ImpactPointOnTrajectory | Interception.java:102-105 | When the sample is strictly below the origin, the estimated impact point is where the line from the origin through the sample meets y = 0. |
| Interceptions.RadarSpeedEstimate | Interception.java:96-99 | For a sample taken at time T on the projectile's path, speed estimate × radarTime = speed × T, so the estimate is the true speed exactly when T = radarTime. |
| Interceptions.RadarFindsImpactPoint | Interception.java:102-105 | For a projectile flying from above the ground, the estimated impact x from any later sample is exactly its target x. |
| Interceptions.EstimateCourse | Interception.java:67-71 | The distance is calcDistance from the sample to the impact point. The velocity has the estimated speed as its magnitude, is parallel to the sample-to-impact segment and, for a positive speed, points toward the impact point. |
| Interceptions.AimLauncher | Interception.java:74-82 | The intercept point consists of whole numbers. Each coordinate is no farther from zero than the exact extrapolated point, and less than one away from it within the range of int. |
| Interceptions.AimTimeIsEarliestCollision | Interception.java:74-77 | Whenever the quadratic has a real root, the aim's time is the earliest positive meeting time. |
| Interceptions.LaunchAngleHeadsToIntercept | Interception.java:82 | Under the atan2 law, a launcher at (currentX, 0) flying along the launch angle reaches the truncated intercept point after the time its distance takes. |
| Interceptions.Solve | Interception.java:58-83 | The seven results of calcInterceptionPoint, in the order of its steps: the radar estimate, the course toward the impact point, then the aim. SolveResults states what they mean. |
| Interceptions.SolveResults | Interception.java:58-83 | The distance is from the sample to the estimated impact point. Under the square-root law, the velocity has the estimated speed as its magnitude. The intercept point is in whole numbers and no farther from zero than the extrapolated point at the chosen time. |
| Interceptions.Interception.constructor | Interception.java:23-26 | Stores the two references. All results, including launchAngle, are 0, and the flag is false. |
| Interceptions.Interception.CalcInterceptionPoint | Interception.java:58-83 | The seven result fields become `Solve` on the projectile's origin and sample and the launcher's origin, speed and current x. Nothing else is written, and the projectile and launcher are untouched. |
| Simulation.InterceptionSimulation.constructor | InterceptionSimulation.java:23-28 | The reset state. The projectile starts at (100, 800), aims at (400, 0) with speed 100 and is at its origin. The launcher starts at (200, 0) with speed 100 and is at its origin. The solve is unsolved with every result 0. Time is 0, the scenario is not running, and the radar time is 0. |
| Simulation.InterceptionSimulation.ResetSimulation | InterceptionSimulation.java:130-138 | Fresh default bodies, each at its origin with the defaults above. A fresh unsolved interception with every result 0. Time 0, not running, the scenario invariant restored, and the radar time left as it was. |
| Simulation.InterceptionSimulation.StartSimulation | InterceptionSimulation.java:117-125 | After a reset: the given radar time, new bodies at their origins aimed as given, a fresh unsolved interception with every result 0, and running from time 0. |
| Simulation.InterceptionSimulation.Tick | InterceptionSimulation.java:67-105 | The full tick. When not running, nothing changes. Otherwise time grows by 0.016 and the projectile is at its position for the new time, including on the tick that ends the scenario. Before the radar time the launcher and the solve are untouched. At or after it, the solve runs at most once, on the current sample and with the launcher still at its origin. The cannot-intercept test stops the scenario before the launcher moves. Otherwise the launcher is at its flown position for the time since the radar time, also on a tick that ends in a hit or a ground impact, so each outcome is judged on the bodies' real positions. A hit stops it with success, even when the projectile is also below the ground. Otherwise a ground impact stops it with failure. The scenario invariant is kept. |
| Simulation.InterceptionSimulation.CannotInterceptTest | InterceptionSimulation.java:82 | The abandon test: a launch angle under 20 degrees, or an intercept point equal to the projectile's origin. Engage and Tick state that when it holds the scenario stops before the launcher moves. |
| Simulation.InterceptionSimulation.Engage | InterceptionSimulation.java:74-89 | The radar branch. The solve runs only if the flag is clear, and the flag is then set. It returns whether the cannot-intercept test holds, and in that case stops without moving the launcher. Otherwise the launcher flies for time − radarTime along the launch angle. |
| Simulation.InterceptionSimulation.Judge | InterceptionSimulation.java:92-102 | A hit ends the scenario in success. Otherwise a projectile below the ground ends it in failure. Otherwise the scenario keeps running. |

## Left out

- Rendering is not modelled: `paintComponent`, `Projectile.draw` and `Launcher.draw` are graphics calls only.
- Swing plumbing is not modelled: the `Timer`, `repaint`, the panel's size and colour, and ControlPanel.java, Parameter.java and InterceptionSimulationApp.java. The message dialogs survive only as the ghost `outcome` of a scenario.
- `Interception.print` writes to the console and is not modelled.
- Value.java contributes only the defaults of the no-argument constructors.
- The getters of Projectile, Launcher and Interception are plain field reads, so the model reads the fields directly.
- IEEE-754 doubles are not modelled, and neither is their behaviour:
  - rounding;
  - the drift of repeatedly adding 0.016;
  - NaN and Infinity from zero divisors.
  The exact `double` equality of the cannot-intercept test is compared over the reals.
- `Math.pow(x, 2)` is modelled as `x * x`.
- The transcendental functions are uninterpreted. Properties that need them take the law as a precondition, so nothing is claimed about any particular implementation.
- RealMath.IntCast: the cast of NaN to 0 is not modelled, because reals have no NaN.
- Utility.CalcVelocity: requires a nonzero distance; Java would produce NaN or Infinity.
- Utility.SolveQuadraticPlus: requires that a = 0 implies b ≠ 0; Java would divide by zero.
- Utility.SolveQuadraticMinus: requires that a = 0 implies b ≠ 0; Java would divide by zero.
- Utility.CalcT: requires the same of its coefficients.
- Interceptions.CalcProjectileData: requires a nonzero radar time and a nonzero distance flown (`CanEstimate`).
- Interceptions.EstimateCourse: requires a nonzero distance from the sample to the impact point.
- Interceptions.AimLauncher: requires the solvers' precondition on its coefficients (`CanAim`).
- Interceptions.Solve: requires every divisor of the solve to be nonzero and the solvers' precondition (`CanSolve`).
- Interceptions.Interception.CalcInterceptionPoint: requires all of the above on the current state of the two bodies (`Ready`).
- Projectiles.Projectile.Update: requires that the origin and the target differ (`Aimed`).
- Simulation.InterceptionSimulation.Tick: requires that a solve the tick may run has nonzero divisors (`SolveDefinedNext`). Where Java would compute NaN or Infinity and carry on, this model has no behaviour.
- Simulation.InterceptionSimulation.StartSimulation: requires the projectile's origin and impact point to differ.
- Simulation.InterceptionSimulation.Tick: the body is split into the helpers `Engage` (the radar branch) and `Judge` (the hit and ground tests), following the blocks of actionPerformed.
