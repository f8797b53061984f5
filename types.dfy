/** Values the search-phase controller reads, records and emits on each control tick. */
module SearchTypes {

  /** A recorded rover pose: position in degrees and minutes, and heading in degrees. */
  datatype Odom = Odom(latDeg: int, latMin: real, lonDeg: int, lonMin: real, bearingDeg: real)

  /** The navigation phases. The search controller handles the first seven; the others
      belong to the rover-wide state machine. `Outer` stands for every phase of that
      machine which this file does not name. */
  datatype NavState =
    | SearchSpin | SearchSpinWait | TurnedToBallWait | SearchTurn | SearchDrive
    | TurnToBall | DriveToBall
    | ChangeSearchAlg | SearchTurnAroundObs | Turn | Unknown
    | Outer(id: nat)

  /** What the actuation layer reports for a drive command. */
  datatype DriveStatus = Arrived | OnCourse | OffCourse

  /** The perception layer's tennis-ball and obstacle readings for one tick. */
  datatype TennisBall = TennisBall(found: bool, bearing: real, distance: real)
  datatype Obstacle = Obstacle(detected: bool, bearing: real, distance: real)

  /** The part of the rover status the controller reads on a tick. */
  datatype RoverStatus = RoverStatus(
    currentState: NavState,
    odometry: Odom,
    tennisBall: TennisBall,
    obstacle: Obstacle)

  /** The results the actuation layer would return for the command issued this tick,
      and the wall clock in whole seconds. */
  datatype Actuation = Actuation(turnDone: bool, driveStatus: DriveStatus, now: int)

  /** Configuration values read from the rover configuration document. */
  datatype Config = Config(
    searchWaitStepSize: real,
    searchWaitTime: real,
    visionDistance: real,
    tennisBallDistance: real,
    bearingThreshold: real)

  /** Commands sent to the actuation layer and reports sent to the rover-wide state
      machine, in the order they are issued. */
  datatype Effect =
    | TurnToBearing(bearing: real)
    | TurnToPoint(target: Odom)
    | DriveToPoint(target: Odom)
    | DriveFinalApproach(distance: real, bearing: real)
    | Stop
    | ReportObstacle(bearing: real, distance: real)
    | PopPath
    | CompletedPoint
    | FoundBall

  /** The geometry helpers of the navigation utilities, supplied by the caller:
      the distance between two poses, the bearing from one pose to another, and the
      pose reached from a start pose along a bearing for a distance. */
  datatype Geometry = Geometry(
    distance: (Odom, Odom) -> real,
    bearing: (Odom, Odom) -> real,
    project: (Odom, real, real) -> Odom)

  /** The controller's own state: the waypoint list (front first) and the memory of the
      last ball detection. */
  datatype Memory = Memory(searchPoints: seq<Odom>, ballAngle: real, roverAngle: real)

  /** The persistent episode state of the spin and the waits. */
  datatype Episode = Episode(nextStop: real, origSpin: real, started: bool, startTime: int)

  /** The episode state as the program starts: every value zero-initialised. */
  const InitialEpisode := Episode(0.0, 0.0, false, 0)

  /** The result of one tick: the next phase, the new controller and episode state, and the
      commands and reports issued. */
  datatype Outcome = Outcome(next: NavState, mem: Memory, episode: Episode, effects: seq<Effect>)
}
