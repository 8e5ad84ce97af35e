/**
 * The tick state machine of InterceptionSimulation.java.
 *
 * Every tick of a running scenario adds a fixed time step and moves the
 * projectile. From the first tick at or after the radar time on, the solve
 * runs (once), the scenario is abandoned if the launch angle is too flat or
 * the intercept point is degenerate, and otherwise the launcher flies along
 * the launch angle. A scenario ends on a hit or when the projectile falls
 * below the ground. The message dialog that ends a scenario is kept as the
 * ghost outcome.
 */
module Simulation {
  import opened RealMath
  import opened Projectiles
  import opened Launchers
  import opened Interceptions

  /** The time one timer tick adds. */
  const Dt: real := 0.016

  /** Launch angles flatter than this many degrees are given up. */
  const MinLaunchDegrees: real := 20.0

  /** Where the scenario stands: not started, running, or the message it ended with. */
  datatype Outcome = Idle | Running | Succeeded | Failed | CannotIntercept

  /** InterceptionSimulation.java, without the Swing panel, timer and dialogs. */
  class InterceptionSimulation {
    var projectile: Projectile
    var launcher: Launcher
    var time: real
    var running: bool
    var interception: Interception
    var radarTime: real
    /** How the scenario stands; the dialog a stop shows. */
    ghost var outcome: Outcome
    /** How many times the current scenario has solved. */
    ghost var solveCount: nat

    /**
     * The invariant of a scenario: the solve shares the two bodies, both aim
     * at or start from the ground, a running projectile is where update put it
     * for the elapsed time, the solve has run once exactly when the flag is
     * set and never before the radar time, the launcher stays at its origin
     * until then and afterwards flies along the launch angle for the time
     * since the radar time.
     */
    ghost predicate Valid()
      reads this, projectile, launcher, interception
    {
      && interception.projectile == projectile
      && interception.launcher == launcher
      && projectile.targetY == GroundY
      && launcher.y == GroundY
      && (running <==> outcome == Running)
      && (running ==> projectile.Aimed())
      && (running ==> projectile.At(time))
      && solveCount == (if interception.hasInterceptionCalculated then 1 else 0)
      && (interception.hasInterceptionCalculated ==> radarTime <= time)
      && (!interception.hasInterceptionCalculated ==>
            launcher.currentX == launcher.x && launcher.currentY == launcher.y)
      && (running && interception.hasInterceptionCalculated ==>
            launcher.FlownFor(time - radarTime, interception.launchAngle))
    }

    /** The test that abandons the scenario: too flat a launch angle, or an
        intercept point equal to the projectile's origin. */
    predicate CannotInterceptTest()
      reads this, interception, projectile
    {
      || ToDegrees(interception.launchAngle) < MinLaunchDegrees
      || (interception.iX == projectile.x && interception.iY == projectile.y)
    }

    /**
     * If the next tick solves, the solve is well defined on the position the
     * projectile will then have.
     */
    ghost predicate SolveDefinedNext()
      reads this, projectile, launcher, interception
    {
      running && projectile.Aimed() && radarTime <= time + Dt && !interception.hasInterceptionCalculated ==>
        var p := ProjectilePosition(projectile.x, projectile.y, projectile.targetX, projectile.targetY,
                                    projectile.speed, time + Dt);
        CanSolve(projectile.x, projectile.y, p.x, p.y, projectile.targetY,
                 launcher.x, launcher.y, launcher.speed, radarTime)
    }

    /** InterceptionSimulation(): the reset state, with radar time 0. */
    constructor()
      ensures Valid()
      ensures time == 0.0 && !running && outcome == Idle && radarTime == 0.0
      ensures fresh(projectile) && fresh(launcher) && fresh(interception)
      ensures projectile.x == ProjectileXDefault && projectile.y == ProjectileYDefault
      ensures projectile.targetX == ImpactXDefault && projectile.speed == SpeedDefault
      ensures projectile.currentX == ProjectileXDefault && projectile.currentY == ProjectileYDefault
      ensures launcher.x == LauncherXDefault && launcher.speed == SpeedDefault
      ensures launcher.currentX == LauncherXDefault && launcher.currentY == GroundY
      ensures !interception.hasInterceptionCalculated && solveCount == 0
      ensures interception.Snapshot() == Solution(0.0, 0.0, 0.0, 0.0, 0.0, 0.0, 0.0)
    {
      var p := new Projectile.Default();
      var l := new Launcher.Default();
      projectile := p;
      launcher := l;
      interception := new Interception(p, l);
      time := 0.0;
      running := false;
      radarTime := 0.0;
      outcome := Idle;
      solveCount := 0;
    }

    /**
     * resetSimulation: fresh default bodies and a fresh solve, time 0, not
     * running. The radar time is left as it was.
     */
    method ResetSimulation()
      modifies this
      ensures Valid()
      ensures fresh(projectile) && fresh(launcher) && fresh(interception)
      ensures projectile.x == ProjectileXDefault && projectile.y == ProjectileYDefault
      ensures projectile.targetX == ImpactXDefault && projectile.speed == SpeedDefault
      ensures projectile.currentX == ProjectileXDefault && projectile.currentY == ProjectileYDefault
      ensures launcher.x == LauncherXDefault && launcher.speed == SpeedDefault
      ensures launcher.currentX == LauncherXDefault && launcher.currentY == GroundY
      ensures !interception.hasInterceptionCalculated && solveCount == 0
      ensures interception.Snapshot() == Solution(0.0, 0.0, 0.0, 0.0, 0.0, 0.0, 0.0)
      ensures time == 0.0 && !running && outcome == Idle
      ensures radarTime == old(radarTime)
    {
      projectile := new Projectile.Default();
      launcher := new Launcher.Default();
      interception := new Interception(projectile, launcher);
      time := 0.0;
      running := false;
      outcome := Idle;
      solveCount := 0;
    }

    /**
     * startSimulation: after a reset, the given scenario with its radar time,
     * new bodies and a new solve, running from time 0 with both bodies at
     * their origins.
     */
    method StartSimulation(projectileX: real, projectileY: real, impactX: real, launcherX: real,
                           projectileSpeed: real, launcherSpeed: real, radar: real)
      requires AimDistance(projectileX, projectileY, impactX, GroundY) != 0.0
      modifies this
      ensures Valid()
      ensures fresh(projectile) && fresh(launcher) && fresh(interception)
      ensures projectile.x == projectileX && projectile.y == projectileY
      ensures projectile.targetX == impactX && projectile.speed == projectileSpeed
      ensures projectile.currentX == projectileX && projectile.currentY == projectileY
      ensures launcher.x == launcherX && launcher.speed == launcherSpeed
      ensures launcher.currentX == launcherX && launcher.currentY == GroundY
      ensures !interception.hasInterceptionCalculated && solveCount == 0
      ensures interception.Snapshot() == Solution(0.0, 0.0, 0.0, 0.0, 0.0, 0.0, 0.0)
      ensures time == 0.0 && radarTime == radar && running && outcome == Running
    {
      ResetSimulation();
      radarTime := radar;
      projectile := new Projectile(projectileX, projectileY, projectileSpeed, impactX);
      launcher := new Launcher(launcherX, launcherSpeed);
      interception := new Interception(projectile, launcher);
      running := true;
      outcome := Running;
    }

    /**
     * actionPerformed: one timer tick. Nothing happens unless the scenario is
     * running. Otherwise time advances by Dt and the projectile is moved to its
     * position at the new time. From the radar time on, Engage solves, tests
     * and flies the launcher; unless it abandoned the scenario, Judge then
     * ends it on a hit or a ground impact.
     */
    method Tick()
      requires Valid() && SolveDefinedNext()
      modifies this`time, this`running, this`outcome, this`solveCount
      modifies projectile`currentX, projectile`currentY, launcher`currentX, launcher`currentY, interception
      ensures Valid()
      ensures solveCount <= 1
      ensures !old(running) ==>
                && time == old(time) && !running && outcome == old(outcome)
                && projectile.currentX == old(projectile.currentX) && projectile.currentY == old(projectile.currentY)
                && launcher.currentX == old(launcher.currentX) && launcher.currentY == old(launcher.currentY)
                && unchanged(interception)
      ensures old(running) ==> time == old(time) + Dt && projectile.At(time)
      ensures old(running) && time < radarTime ==>
                && unchanged(interception)
                && launcher.currentX == old(launcher.currentX) && launcher.currentY == old(launcher.currentY)
      ensures old(running) && radarTime <= time ==> interception.hasInterceptionCalculated
      ensures old(interception.hasInterceptionCalculated) ==> interception.Snapshot() == old(interception.Snapshot())
      ensures old(running) && radarTime <= time && !old(interception.hasInterceptionCalculated) ==>
                && solveCount == old(solveCount) + 1
                && interception.Ready(radarTime)
                && interception.Snapshot()
                     == Solve(projectile.x, projectile.y, projectile.currentX, projectile.currentY, projectile.targetY,
                              launcher.x, launcher.y, launcher.speed, launcher.x, radarTime)
      ensures old(running) && radarTime <= time && CannotInterceptTest() ==>
                && !running && outcome == CannotIntercept
                && launcher.currentX == old(launcher.currentX) && launcher.currentY == old(launcher.currentY)
      ensures old(running) && radarTime <= time && !CannotInterceptTest() ==>
                launcher.FlownFor(time - radarTime, interception.launchAngle)
      ensures old(running) && !(radarTime <= time && CannotInterceptTest()) ==>
                && (launcher.Intercepts(projectile) ==> !running && outcome == Succeeded)
                && (!launcher.Intercepts(projectile) && projectile.IsOutOfBounds() ==> !running && outcome == Failed)
                && (!launcher.Intercepts(projectile) && !projectile.IsOutOfBounds() ==> running)
    {
      if !running {
        return;
      }
      time := time + Dt;
      projectile.Update(time);
      if time >= radarTime {
        var abandoned := Engage();
        if abandoned {
          return;
        }
      }
      Judge();
    }

    /**
     * The radar branch of actionPerformed, once the projectile has moved: the
     * solve runs if it has not yet, with the launcher still at its origin, and
     * the flag is set; the scenario is abandoned on the cannot-intercept test,
     * before the launcher moves; otherwise the launcher flies for the time
     * since the radar time along the launch angle.
     */
    method Engage() returns (abandoned: bool)
      requires running && radarTime <= time
      requires interception.projectile == projectile && interception.launcher == launcher
      requires solveCount == (if interception.hasInterceptionCalculated then 1 else 0)
      requires !interception.hasInterceptionCalculated ==>
                 interception.Ready(radarTime) && launcher.currentX == launcher.x
      modifies this`running, this`outcome, this`solveCount, launcher`currentX, launcher`currentY, interception
      ensures interception.hasInterceptionCalculated && solveCount == 1
      ensures abandoned == CannotInterceptTest()
      ensures old(interception.hasInterceptionCalculated) ==> interception.Snapshot() == old(interception.Snapshot())
      ensures !old(interception.hasInterceptionCalculated) ==>
                && interception.Ready(radarTime)
                && interception.Snapshot()
                     == Solve(projectile.x, projectile.y, projectile.currentX, projectile.currentY, projectile.targetY,
                              launcher.x, launcher.y, launcher.speed, launcher.x, radarTime)
      ensures abandoned ==>
                && !running && outcome == CannotIntercept
                && launcher.currentX == old(launcher.currentX) && launcher.currentY == old(launcher.currentY)
      ensures !abandoned ==>
                && running && outcome == old(outcome)
                && launcher.FlownFor(time - radarTime, interception.launchAngle)
    {
      if !interception.hasInterceptionCalculated {
        interception.CalcInterceptionPoint(radarTime);
        solveCount := solveCount + 1;
      }
      interception.hasInterceptionCalculated := true;
      if CannotInterceptTest() {
        running := false;
        outcome := CannotIntercept;
        return true;
      }
      launcher.Update(time - radarTime, interception.launchAngle);
      return false;
    }

    /**
     * The closing tests of actionPerformed: a hit ends the scenario in
     * success, and otherwise a projectile below the ground ends it in failure.
     */
    method Judge()
      requires running
      modifies this`running, this`outcome
      ensures launcher.Intercepts(projectile) ==> !running && outcome == Succeeded
      ensures !launcher.Intercepts(projectile) && projectile.IsOutOfBounds() ==> !running && outcome == Failed
      ensures !launcher.Intercepts(projectile) && !projectile.IsOutOfBounds() ==> running && outcome == old(outcome)
    {
      if launcher.Intercepts(projectile) {
        running := false;
        outcome := Succeeded;
      } else if projectile.IsOutOfBounds() {
        running := false;
        outcome := Failed;
      }
    }
  }
}
