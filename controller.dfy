/** The search-phase controller as an object: it owns the waypoint list and the ball memory,
    and it shares the spin and wait episode state with every other controller that was
    given the same `EpisodeStatics` (that state lives for the whole program, not per
    controller). Each transition method is proved to follow its tick function. */
module Controller {
  import opened SearchTypes
  import opened Reachability
  import opened Transitions
  import opened Refinement
  import opened Factory

  /** The persistent spin and wait state, zero-initialised at program start. */
  class EpisodeStatics {
    var nextStop: real
    var origSpin: real
    var started: bool
    var startTime: int

    constructor ()
      ensures Value() == InitialEpisode
    {
      nextStop, origSpin, started, startTime := 0.0, 0.0, false, 0;
    }

    function Value(): Episode
      reads this
    {
      Episode(nextStop, origSpin, started, startTime)
    }
  }

  class SearchStateMachine {
    const statics: EpisodeStatics
    const variant: Variant
    var searchPoints: seq<Odom>
    var ballAngle: real
    var roverAngle: real

    /** A new controller starts with an empty list; its ball memory is left unset. */
    constructor (statics: EpisodeStatics, variant: Variant)
      ensures this.statics == statics && this.variant == variant
      ensures searchPoints == []
    {
      this.statics := statics;
      this.variant := variant;
      searchPoints := [];
    }

    function Mem(): Memory
      reads this
    {
      Memory(searchPoints, ballAngle, roverAngle)
    }

    method UpdateTennisBallDetectionElements(ballBearing: real, roverBearing: real)
      modifies this
      ensures Mem() == UpdateDetection(old(Mem()), ballBearing, roverBearing)
    {
      ballAngle := ballBearing;
      roverAngle := roverBearing;
    }

    /** Pushes the current pose to the front of the list and records the detection. */
    method RememberBallAt(st: RoverStatus)
      modifies this
      ensures Mem() == RememberBall(old(Mem()), st)
    {
      searchPoints := [st.odometry] + searchPoints;
      UpdateTennisBallDetectionElements(st.tennisBall.bearing, st.odometry.bearingDeg);
    }

    method ExecuteSearchSpin(st: RoverStatus, turnDone: bool, waitStepSize: real)
      returns (next: NavState, effects: seq<Effect>)
      modifies this, statics
      ensures Outcome(next, Mem(), statics.Value(), effects)
           == SpinStep(old(Mem()), old(statics.Value()), st, turnDone, waitStepSize)
    {
      if st.tennisBall.found {
        RememberBallAt(st);
        return TurnToBall, [];
      }
      if statics.nextStop == 0.0 {
        statics.origSpin := st.odometry.bearingDeg;
        statics.nextStop := statics.origSpin;
      }
      effects := [TurnToBearing(statics.nextStop)];
      if turnDone {
        if statics.nextStop - statics.origSpin >= 360.0 {
          statics.nextStop := 0.0;
          return SearchTurn, effects;
        }
        statics.nextStop := statics.nextStop + waitStepSize;
        return SearchSpinWait, effects;
      }
      return SearchSpin, effects;
    }

    method ExecuteRoverWait(st: RoverStatus, now: int, waitTime: real)
      returns (next: NavState, effects: seq<Effect>)
      modifies this, statics
      ensures Outcome(next, Mem(), statics.Value(), effects)
           == WaitStep(old(Mem()), old(statics.Value()), st, now, waitTime)
    {
      if st.tennisBall.found {
        if st.currentState == SearchSpinWait {
          RememberBallAt(st);
          return TurnToBall, [];
        }
        return DriveToBall, [];
      }
      effects := [];
      if !statics.started {
        effects := [Stop];
        statics.startTime := now;
        statics.started := true;
      }
      if (now - statics.startTime) as real > waitTime {
        statics.started := false;
        if st.currentState == SearchSpinWait {
          return SearchSpin, effects;
        }
        return DriveToBall, effects;
      } else {
        if st.currentState == SearchSpinWait {
          return SearchSpinWait, effects;
        }
        return TurnedToBallWait, effects;
      }
    }

    method ExecuteSearchTurn(st: RoverStatus, turnDone: bool)
      returns (next: NavState, effects: seq<Effect>)
      modifies this
      ensures Outcome(next, Mem(), statics.Value(), effects)
           == SearchTurnStep(old(Mem()), statics.Value(), st, turnDone)
    {
      if |searchPoints| == 0 {
        return ChangeSearchAlg, [];
      }
      if st.tennisBall.found {
        RememberBallAt(st);
        return TurnToBall, [];
      }
      var nextSearchPoint := searchPoints[0];
      effects := [TurnToPoint(nextSearchPoint)];
      if turnDone {
        return SearchDrive, effects;
      }
      return SearchTurn, effects;
    }

    method ExecuteSearchDrive(st: RoverStatus, driveStatus: DriveStatus)
      returns (next: NavState, effects: seq<Effect>)
      requires SearchDriveReady(Mem(), st)
      modifies this
      ensures Outcome(next, Mem(), statics.Value(), effects)
           == SearchDriveStep(old(Mem()), statics.Value(), st, driveStatus)
    {
      if st.tennisBall.found {
        RememberBallAt(st);
        return TurnToBall, [];
      }
      if IsObstacleDetected(st) {
        return SearchTurnAroundObs, [ReportObstacle(st.obstacle.bearing, st.obstacle.distance)];
      }
      var nextSearchPoint := searchPoints[0];
      effects := [DriveToPoint(nextSearchPoint)];
      if driveStatus == Arrived {
        searchPoints := searchPoints[1..];
        return SearchSpin, effects;
      }
      if driveStatus == OnCourse {
        return SearchDrive, effects;
      }
      return SearchTurn, effects;
    }

    method ExecuteTurnToBall(st: RoverStatus, turnDone: bool)
      returns (next: NavState, effects: seq<Effect>)
      modifies this
      ensures Outcome(next, Mem(), statics.Value(), effects)
           == TurnToBallStep(old(Mem()), statics.Value(), st, turnDone)
    {
      if !st.tennisBall.found {
        effects := [TurnToBearing(ballAngle + roverAngle)];
        if turnDone {
          return TurnedToBallWait, effects;
        }
        return TurnToBall, effects;
      }
      effects := [TurnToBearing(st.tennisBall.bearing + st.odometry.bearingDeg)];
      if turnDone {
        return TurnedToBallWait, effects;
      }
      UpdateTennisBallDetectionElements(st.tennisBall.bearing, st.odometry.bearingDeg);
      return TurnToBall, effects;
    }

    method ExecuteDriveToBall(st: RoverStatus, driveStatus: DriveStatus, cfg: Config)
      returns (next: NavState, effects: seq<Effect>)
      ensures Outcome(next, Mem(), statics.Value(), effects)
           == DriveToBallStep(Mem(), statics.Value(), st, driveStatus, cfg)
    {
      if !st.tennisBall.found {
        return SearchTurn, [];
      }
      if IsObstacleDetected(st) && IsTennisBallReachable(st.tennisBall, st.obstacle, cfg) {
        return SearchTurnAroundObs, [ReportObstacle(st.obstacle.bearing, st.obstacle.distance)];
      }
      effects := [DriveFinalApproach(st.tennisBall.distance, st.tennisBall.bearing + st.odometry.bearingDeg)];
      if driveStatus == Arrived {
        return Turn, effects + [PopPath, CompletedPoint, FoundBall];
      }
      if driveStatus == OnCourse {
        return DriveToBall, effects;
      }
      return TurnToBall, effects;
    }

    /** One control tick: the transition function of the current phase, or `Unknown` for a
        phase the search controller does not handle. */
    method Run(st: RoverStatus, act: Actuation, cfg: Config)
      returns (next: NavState, effects: seq<Effect>)
      requires TickReady(Mem(), st)
      modifies this, statics
      ensures Outcome(next, Mem(), statics.Value(), effects)
           == Transitions.Run(old(Mem()), old(statics.Value()), st, act, cfg)
    {
      match st.currentState
      case SearchSpin =>
        next, effects := ExecuteSearchSpin(st, act.turnDone, cfg.searchWaitStepSize);
      case SearchSpinWait =>
        next, effects := ExecuteRoverWait(st, act.now, cfg.searchWaitTime);
      case TurnedToBallWait =>
        next, effects := ExecuteRoverWait(st, act.now, cfg.searchWaitTime);
      case SearchTurn =>
        next, effects := ExecuteSearchTurn(st, act.turnDone);
      case SearchDrive =>
        next, effects := ExecuteSearchDrive(st, act.driveStatus);
      case TurnToBall =>
        next, effects := ExecuteTurnToBall(st, act.turnDone);
      case DriveToBall =>
        next, effects := ExecuteDriveToBall(st, act.driveStatus, cfg);
      case _ =>
        next, effects := Unknown, [];
    }

    /** Subdivides every gap between consecutive waypoints that is longer than twice the
        vision distance, in place, walking the list once from the front. */
    method InsertIntermediatePoints(g: Geometry, cfg: Config)
      requires cfg.visionDistance != 0.0
      modifies this`searchPoints
      ensures searchPoints == Refine(g, old(searchPoints), 2.0 * cfg.visionDistance)
    {
      var maxDifference := 2.0 * cfg.visionDistance;
      ghost var target := Refine(g, searchPoints, maxDifference);
      ghost var done: seq<Odom> := [];
      ghost var rest := searchPoints;
      var i := 0;
      while i < |searchPoints| - 1
        invariant searchPoints == done + rest
        invariant i == |done|
        invariant done + Refine(g, rest, maxDifference) == target
        decreases |rest|
      {
        ghost var gap := Gap(g, rest[0], rest[1], maxDifference);
        RefineStep(g, rest, done, maxDifference);
        var inserted := SubdivideGap(g, i, maxDifference, done + [rest[0]], rest[1..]);
        done := done + [rest[0]] + gap;
        rest := rest[1..];
        i := i + inserted + 1;
      }
    }

    /** The body of the outer loop: inserts, right after the `i`-th pose, the poses that
        subdivide its gap to the next one, and returns how many it inserted. */
    method SubdivideGap(g: Geometry, i: nat, maxDifference: real, ghost front: seq<Odom>, ghost back: seq<Odom>)
      returns (inserted: nat)
      requires maxDifference != 0.0
      requires searchPoints == front + back && |front| == i + 1 && |back| > 0
      modifies this`searchPoints
      ensures searchPoints == front + Gap(g, front[i], back[0], maxDifference) + back
      ensures inserted == |Gap(g, front[i], back[0], maxDifference)|
    {
      inserted := 0;
      var point1 := searchPoints[i];
      var point2 := searchPoints[i + 1];
      var distance := g.distance(point1, point2);
      if distance > maxDifference {
        var numPoints := Ceil(distance / maxDifference) - 1;
        var bearing := g.bearing(point1, point2);
        if numPoints > 0 {
          var newDifference := distance / (numPoints + 1) as real;
          var j := 0;
          while j < numPoints
            invariant 0 <= j <= numPoints
            invariant searchPoints == front + Chain(g.project, point1, bearing, newDifference, j) + back
            invariant searchPoints[i + j] == Iterate(g.project, point1, bearing, newDifference, j)
          {
            var startPoint := searchPoints[i + j];
            var newOdom := g.project(startPoint, bearing, newDifference);
            InsertAfter(front, Chain(g.project, point1, bearing, newDifference, j), back, newOdom);
            searchPoints := searchPoints[..i + j + 1] + [newOdom] + searchPoints[i + j + 1..];
            j := j + 1;
          }
          inserted := numPoints;
        }
      }
    }
  }

  /** The outer loop's invariant survives moving past the next original waypoint and the
      poses inserted after it. */
  lemma RefineStep(g: Geometry, rest: seq<Odom>, done: seq<Odom>, maxDiff: real)
    requires maxDiff != 0.0 && 1 < |rest|
    ensures done + Refine(g, rest, maxDiff)
         == (done + [rest[0]] + Gap(g, rest[0], rest[1], maxDiff)) + Refine(g, rest[1..], maxDiff)
  {
  }

  /** Inserting `y` right after `front + chain` extends the chain; the pose it is projected
      from is the last of `front + chain`. */
  lemma InsertAfter(front: seq<Odom>, chain: seq<Odom>, back: seq<Odom>, y: Odom)
    requires |front| > 0
    ensures var s := front + chain + back;
      var i := |front| - 1 + |chain|;
      && i < |s|
      && s[i] == (if chain == [] then front[|front| - 1] else chain[|chain| - 1])
      && s[..i + 1] + [y] + s[i + 1..] == front + (chain + [y]) + back
  {
    var s := front + chain + back;
    var i := |front| - 1 + |chain|;
    assert s[..i + 1] == front + chain;
    assert s[i + 1..] == back;
  }

  /** Creates a controller for a requested search mode; an unknown mode gets the outward
      spiral. */
  method SearchFactory(statics: EpisodeStatics, t: SearchType) returns (search: SearchStateMachine)
    ensures fresh(search)
    ensures search.variant == VariantFor(t) && search.statics == statics
    ensures search.searchPoints == []
  {
    match t
    case SpiralOutType => search := new SearchStateMachine(statics, SpiralOut);
    case LawnMowerType => search := new SearchStateMachine(statics, LawnMower);
    case SpiralInType => search := new SearchStateMachine(statics, SpiralIn);
    case OtherType(_) => search := new SearchStateMachine(statics, SpiralOut);
  }
}
