/** One control tick of the search controller as a function of its state and inputs.
    Each function below specifies one transition function of the controller; the class in
    the controller module is proved to follow them. */
module Transitions {
  import opened SearchTypes
  import opened Reachability

  /** Records the last ball detection: the ball's bearing and the rover's heading. */
  function UpdateDetection(m: Memory, ballBearing: real, roverBearing: real): (r: Memory)
    ensures r.searchPoints == m.searchPoints
    ensures r.ballAngle == ballBearing && r.roverAngle == roverBearing
  {
    m.(ballAngle := ballBearing, roverAngle := roverBearing)
  }

  /** What every search phase does when the ball shows up: the current pose goes to the
      front of the waypoint list, and the detection is recorded. */
  function RememberBall(m: Memory, st: RoverStatus): (r: Memory)
    ensures r.searchPoints == [st.odometry] + m.searchPoints
    ensures r.ballAngle == st.tennisBall.bearing && r.roverAngle == st.odometry.bearingDeg
  {
    UpdateDetection(m.(searchPoints := [st.odometry] + m.searchPoints),
                    st.tennisBall.bearing, st.odometry.bearingDeg)
  }

  /** Whether perception reports an obstacle; only the obstacle flag is read. */
  function IsObstacleDetected(st: RoverStatus): (r: bool)
    ensures r == st.obstacle.detected
  {
    st.obstacle.detected
  }

  /** The search spin: turn in steps of `waitStep` from the heading latched at the start of
      the spin, and give up after a full revolution. A zero `nextStop` means "not latched". */
  function SpinStep(m: Memory, e: Episode, st: RoverStatus, turnDone: bool, waitStep: real): (r: Outcome)
    ensures r.mem == (if st.tennisBall.found then RememberBall(m, st) else m)
    ensures r.episode.started == e.started && r.episode.startTime == e.startTime
    ensures st.tennisBall.found ==> r.next == TurnToBall && r.episode == e && r.effects == []
    ensures !st.tennisBall.found ==> |r.effects| == 1 && r.effects[0].TurnToBearing?
    ensures r.next in {TurnToBall, SearchSpin, SearchSpinWait, SearchTurn}
    ensures r.next == SearchTurn ==> r.episode.nextStop == 0.0
    ensures r.next == SearchSpinWait ==>
      r.episode.nextStop == (if e.nextStop == 0.0 then st.odometry.bearingDeg else e.nextStop) + waitStep
  {
    if st.tennisBall.found then
      Outcome(TurnToBall, RememberBall(m, st), e, [])
    else
      var latched :=
        if e.nextStop == 0.0
        then e.(origSpin := st.odometry.bearingDeg, nextStop := st.odometry.bearingDeg)
        else e;
      var fx := [TurnToBearing(latched.nextStop)];
      if !turnDone then
        Outcome(SearchSpin, m, latched, fx)
      else if latched.nextStop - latched.origSpin >= 360.0 then
        Outcome(SearchTurn, m, latched.(nextStop := 0.0), fx)
      else
        Outcome(SearchSpinWait, m, latched.(nextStop := latched.nextStop + waitStep), fx)
  }

  /** The wait shared by the spin wait and the wait after turning to the ball. Any phase other
      than the spin wait is treated as the wait after turning to the ball. */
  function WaitStep(m: Memory, e: Episode, st: RoverStatus, now: int, waitTime: real): (r: Outcome)
    ensures r.episode.nextStop == e.nextStop && r.episode.origSpin == e.origSpin
    ensures r.effects == [] || r.effects == [Stop]
    ensures r.effects == [Stop] <==> !st.tennisBall.found && !e.started
    ensures r.mem == (if st.tennisBall.found && st.currentState == SearchSpinWait then RememberBall(m, st) else m)
    ensures st.currentState == SearchSpinWait ==> r.next in {TurnToBall, SearchSpin, SearchSpinWait}
    ensures st.currentState != SearchSpinWait ==> r.next in {DriveToBall, TurnedToBallWait}
  {
    var spinWait := st.currentState == SearchSpinWait;
    if st.tennisBall.found then
      if spinWait then Outcome(TurnToBall, RememberBall(m, st), e, [])
      else Outcome(DriveToBall, m, e, [])
    else
      var timed := if e.started then e else e.(startTime := now, started := true);
      var fx := if e.started then [] else [Stop];
      if (now - timed.startTime) as real > waitTime then
        Outcome(if spinWait then SearchSpin else DriveToBall, m, timed.(started := false), fx)
      else
        Outcome(if spinWait then SearchSpinWait else TurnedToBallWait, m, timed, fx)
  }

  /** Turning towards the next waypoint. An empty list ends this search pattern. */
  function SearchTurnStep(m: Memory, e: Episode, st: RoverStatus, turnDone: bool): (r: Outcome)
    ensures r.episode == e
    ensures r.mem == (if |m.searchPoints| > 0 && st.tennisBall.found then RememberBall(m, st) else m)
    ensures r.next == ChangeSearchAlg <==> |m.searchPoints| == 0
    ensures r.next in {ChangeSearchAlg, TurnToBall, SearchDrive, SearchTurn}
    ensures r.next == SearchDrive ==> turnDone
  {
    if |m.searchPoints| == 0 then
      Outcome(ChangeSearchAlg, m, e, [])
    else if st.tennisBall.found then
      Outcome(TurnToBall, RememberBall(m, st), e, [])
    else
      Outcome(if turnDone then SearchDrive else SearchTurn, m, e, [TurnToPoint(m.searchPoints[0])])
  }

  /** The list is read at its front only when neither the ball nor an obstacle is seen. */
  predicate SearchDriveReady(m: Memory, st: RoverStatus)
  {
    st.tennisBall.found || IsObstacleDetected(st) || |m.searchPoints| > 0
  }

  /** Driving towards the next waypoint; on arrival the waypoint is dropped. */
  function SearchDriveStep(m: Memory, e: Episode, st: RoverStatus, drive: DriveStatus): (r: Outcome)
    requires SearchDriveReady(m, st)
    ensures r.episode == e
    ensures || r.mem == m
            || (st.tennisBall.found && r.mem == RememberBall(m, st))
            || (r.next == SearchSpin && |m.searchPoints| > 0 && r.mem == m.(searchPoints := m.searchPoints[1..]))
    ensures r.next in {TurnToBall, SearchTurnAroundObs, SearchSpin, SearchDrive, SearchTurn}
    ensures |r.effects| <= 1
  {
    if st.tennisBall.found then
      Outcome(TurnToBall, RememberBall(m, st), e, [])
    else if IsObstacleDetected(st) then
      Outcome(SearchTurnAroundObs, m, e, [ReportObstacle(st.obstacle.bearing, st.obstacle.distance)])
    else
      var fx := [DriveToPoint(m.searchPoints[0])];
      match drive
      case Arrived => Outcome(SearchSpin, m.(searchPoints := m.searchPoints[1..]), e, fx)
      case OnCourse => Outcome(SearchDrive, m, e, fx)
      case OffCourse => Outcome(SearchTurn, m, e, fx)
  }

  /** Turning to the ball; while the ball is out of sight the rover keeps turning to the
      remembered absolute bearing. */
  function TurnToBallStep(m: Memory, e: Episode, st: RoverStatus, turnDone: bool): (r: Outcome)
    ensures r.episode == e && r.mem.searchPoints == m.searchPoints
    ensures |r.effects| == 1 && r.effects[0].TurnToBearing?
    ensures r.next == (if turnDone then TurnedToBallWait else TurnToBall)
  {
    if !st.tennisBall.found then
      Outcome(if turnDone then TurnedToBallWait else TurnToBall, m, e,
              [TurnToBearing(m.ballAngle + m.roverAngle)])
    else
      var fx := [TurnToBearing(st.tennisBall.bearing + st.odometry.bearingDeg)];
      if turnDone then Outcome(TurnedToBallWait, m, e, fx)
      else Outcome(TurnToBall, UpdateDetection(m, st.tennisBall.bearing, st.odometry.bearingDeg), e, fx)
  }

  /** The final approach to the ball. The detour is taken when an obstacle is detected and
      the ball is judged reachable. */
  function DriveToBallStep(m: Memory, e: Episode, st: RoverStatus, drive: DriveStatus, cfg: Config): (r: Outcome)
    ensures r.mem == m && r.episode == e
    ensures r.next in {SearchTurn, SearchTurnAroundObs, Turn, DriveToBall, TurnToBall}
    ensures r.next == Turn ==> |r.effects| == 4 && r.effects[1..] == [PopPath, CompletedPoint, FoundBall]
    ensures r.next == SearchTurnAroundObs ==> r.effects == [ReportObstacle(st.obstacle.bearing, st.obstacle.distance)]
  {
    if !st.tennisBall.found then
      Outcome(SearchTurn, m, e, [])
    else if IsObstacleDetected(st) && IsTennisBallReachable(st.tennisBall, st.obstacle, cfg) then
      Outcome(SearchTurnAroundObs, m, e, [ReportObstacle(st.obstacle.bearing, st.obstacle.distance)])
    else
      var fx := [DriveFinalApproach(st.tennisBall.distance, st.tennisBall.bearing + st.odometry.bearingDeg)];
      match drive
      case Arrived => Outcome(Turn, m, e, fx + [PopPath, CompletedPoint, FoundBall])
      case OnCourse => Outcome(DriveToBall, m, e, fx)
      case OffCourse => Outcome(TurnToBall, m, e, fx)
  }

  /** The transition function `run` dispatches to for a phase. */
  datatype Handler = Spin | Wait | Turning | Driving | BallTurn | BallDrive | NoHandler

  function Dispatch(s: NavState): (h: Handler)
    ensures h == NoHandler <==>
      s !in {SearchSpin, SearchSpinWait, TurnedToBallWait, SearchTurn, SearchDrive, TurnToBall, DriveToBall}
    ensures h == Wait <==> s == SearchSpinWait || s == TurnedToBallWait
  {
    match s
    case SearchSpin => Spin
    case SearchSpinWait => Wait
    case TurnedToBallWait => Wait
    case SearchTurn => Turning
    case SearchDrive => Driving
    case TurnToBall => BallTurn
    case DriveToBall => BallDrive
    case _ => NoHandler
  }

  /** A tick's inputs are usable when a search drive that reaches the list's front has one. */
  predicate TickReady(m: Memory, st: RoverStatus)
  {
    st.currentState == SearchDrive ==> SearchDriveReady(m, st)
  }

  /** One tick of `run`. A phase without a handler gives `Unknown` and changes nothing. */
  function Run(m: Memory, e: Episode, st: RoverStatus, act: Actuation, cfg: Config): (r: Outcome)
    requires TickReady(m, st)
    ensures r.next == Unknown <==> Dispatch(st.currentState) == NoHandler
    ensures Dispatch(st.currentState) == NoHandler ==> r == Outcome(Unknown, m, e, [])
  {
    match Dispatch(st.currentState)
    case Spin => SpinStep(m, e, st, act.turnDone, cfg.searchWaitStepSize)
    case Wait => WaitStep(m, e, st, act.now, cfg.searchWaitTime)
    case Turning => SearchTurnStep(m, e, st, act.turnDone)
    case Driving => SearchDriveStep(m, e, st, act.driveStatus)
    case BallTurn => TurnToBallStep(m, e, st, act.turnDone)
    case BallDrive => DriveToBallStep(m, e, st, act.driveStatus, cfg)
    case NoHandler => Outcome(Unknown, m, e, [])
  }
}
