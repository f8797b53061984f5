/** The arbitration between a detected tennis ball and a detected obstacle. */
module Reachability {
  import opened SearchTypes

  function Abs(x: real): (r: real)
    ensures r >= 0.0 && (r == x || r == -x)
  {
    if x < 0.0 then -x else x
  }

  /** The heuristic that judges whether the ball can be reached before the obstacle:
      the obstacle is farther than the ball less a margin, or the two lie on strictly
      opposite sides of the heading, or the obstacle is more centred than the ball by more
      than a bearing margin. The margins are not clamped. Each criterion suffices on its own;
      `UnreachableExactly` gives the converse. */
  function IsTennisBallReachable(ball: TennisBall, obstacle: Obstacle, cfg: Config): (r: bool)
    ensures obstacle.distance > ball.distance - cfg.tennisBallDistance ==> r
    ensures ball.bearing * obstacle.bearing < 0.0 ==> r
    ensures Abs(obstacle.bearing) < Abs(ball.bearing) - cfg.bearingThreshold ==> r
  {
    || obstacle.distance > ball.distance - cfg.tennisBallDistance
    || (ball.bearing < 0.0 && obstacle.bearing > 0.0)
    || (ball.bearing > 0.0 && obstacle.bearing < 0.0)
    || Abs(obstacle.bearing) < Abs(ball.bearing) - cfg.bearingThreshold
  }

  /** Mirrors both readings about the heading. */
  function MirrorBall(b: TennisBall): (m: TennisBall)
    ensures m.bearing == -b.bearing && m.found == b.found && m.distance == b.distance
  {
    b.(bearing := -b.bearing)
  }

  function MirrorObstacle(o: Obstacle): (m: Obstacle)
    ensures m.bearing == -o.bearing && m.detected == o.detected && m.distance == o.distance
  {
    o.(bearing := -o.bearing)
  }

  /** The heuristic never looks at the detection flags. */
  lemma ReachableIgnoresFlags(ball: TennisBall, obstacle: Obstacle, cfg: Config, f: bool, g: bool)
    ensures IsTennisBallReachable(ball, obstacle, cfg)
        == IsTennisBallReachable(ball.(found := f), obstacle.(detected := g), cfg)
  {
  }

  /** Negating both bearings does not change the verdict. */
  lemma ReachableMirrorSymmetric(ball: TennisBall, obstacle: Obstacle, cfg: Config)
    ensures IsTennisBallReachable(MirrorBall(ball), MirrorObstacle(obstacle), cfg)
        == IsTennisBallReachable(ball, obstacle, cfg)
  {
  }

  /** Moving the obstacle farther away can only turn "unreachable" into "reachable". */
  lemma ReachableMonotoneInObstacleDistance(ball: TennisBall, obstacle: Obstacle, cfg: Config, farther: real)
    requires farther >= obstacle.distance
    requires IsTennisBallReachable(ball, obstacle, cfg)
    ensures IsTennisBallReachable(ball, obstacle.(distance := farther), cfg)
  {
  }

  /** A bearing of exactly zero never counts as lying on the opposite side: only the
      distance clause and the centring clause remain. */
  lemma ReachableWithZeroBearing(ball: TennisBall, obstacle: Obstacle, cfg: Config)
    requires ball.bearing == 0.0 || obstacle.bearing == 0.0
    ensures IsTennisBallReachable(ball, obstacle, cfg) <==>
      (|| obstacle.distance > ball.distance - cfg.tennisBallDistance
       || Abs(obstacle.bearing) < Abs(ball.bearing) - cfg.bearingThreshold)
  {
  }

  /** The verdict is "unreachable" exactly when the obstacle is no farther than the ball
      less the margin, the two bearings are not of strictly opposite signs, and the obstacle
      is not centred by more than the bearing margin. */
  lemma UnreachableExactly(ball: TennisBall, obstacle: Obstacle, cfg: Config)
    ensures !IsTennisBallReachable(ball, obstacle, cfg) <==>
      (&& obstacle.distance <= ball.distance - cfg.tennisBallDistance
       && (ball.bearing * obstacle.bearing >= 0.0)
       && Abs(obstacle.bearing) >= Abs(ball.bearing) - cfg.bearingThreshold)
  {
    if ball.bearing < 0.0 && obstacle.bearing > 0.0 {
      assert ball.bearing * obstacle.bearing < 0.0;
    } else if ball.bearing > 0.0 && obstacle.bearing < 0.0 {
      assert ball.bearing * obstacle.bearing < 0.0;
    }
  }
}
