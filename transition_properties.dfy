/** What one tick, and a run of ticks, of the search controller guarantees. */
module TransitionProperties {
  import opened SearchTypes
  import opened Reachability
  import opened Transitions
  import Refinement

  // ----- the ball interrupts the search pattern -----

  /** A ball seen in the spin, the spin wait, a turn towards an existing waypoint or a search
      drive starts the pursuit: exactly the current pose is pushed to the front of the list,
      the detection is remembered, and nothing else changes. */
  lemma BallFoundStartsPursuit(m: Memory, e: Episode, st: RoverStatus, act: Actuation, cfg: Config)
    requires st.tennisBall.found
    requires || st.currentState == SearchSpin
             || st.currentState == SearchSpinWait
             || (st.currentState == SearchTurn && |m.searchPoints| > 0)
             || st.currentState == SearchDrive
    ensures var o := Run(m, e, st, act, cfg);
      && o.next == TurnToBall
      && o.mem.searchPoints == [st.odometry] + m.searchPoints
      && o.mem.ballAngle == st.tennisBall.bearing
      && o.mem.roverAngle == st.odometry.bearingDeg
      && o.episode == e
      && o.effects == []
  {
  }

  /** A ball seen while waiting after the turn to the ball starts the final approach and
      leaves the list and the memory alone. */
  lemma BallFoundAfterTurnDrives(m: Memory, e: Episode, st: RoverStatus, act: Actuation, cfg: Config)
    requires st.tennisBall.found && st.currentState == TurnedToBallWait
    ensures Run(m, e, st, act, cfg) == Outcome(DriveToBall, m, e, [])
  {
  }

  // ----- search turn and search drive -----

  /** With no waypoint left the search turn asks for another pattern, whatever the sensors
      and the actuators report. */
  lemma EmptyListChangesAlgorithm(m: Memory, e: Episode, st: RoverStatus, act: Actuation, cfg: Config)
    requires st.currentState == SearchTurn && m.searchPoints == []
    ensures Run(m, e, st, act, cfg) == Outcome(ChangeSearchAlg, m, e, [])
  {
  }

  /** Without a ball, the search turn turns to the front waypoint and drives once the turn
      is complete. */
  lemma SearchTurnTowardsFront(m: Memory, e: Episode, st: RoverStatus, act: Actuation, cfg: Config)
    requires st.currentState == SearchTurn && |m.searchPoints| > 0 && !st.tennisBall.found
    ensures Run(m, e, st, act, cfg)
         == Outcome(if act.turnDone then SearchDrive else SearchTurn, m, e, [TurnToPoint(m.searchPoints[0])])
  {
  }

  /** An obstacle met on a search drive without a ball is reported and handed to obstacle
      avoidance; the list is left alone. */
  lemma SearchDriveObstacle(m: Memory, e: Episode, st: RoverStatus, act: Actuation, cfg: Config)
    requires st.currentState == SearchDrive && !st.tennisBall.found && IsObstacleDetected(st)
    ensures Run(m, e, st, act, cfg)
         == Outcome(SearchTurnAroundObs, m, e, [ReportObstacle(st.obstacle.bearing, st.obstacle.distance)])
  {
  }

  /** A clear search drive drives to the front waypoint; arriving drops exactly that
      waypoint and spins, staying on course keeps driving, anything else turns again. */
  lemma SearchDriveProgress(m: Memory, e: Episode, st: RoverStatus, act: Actuation, cfg: Config)
    requires st.currentState == SearchDrive && !st.tennisBall.found && !IsObstacleDetected(st)
    requires |m.searchPoints| > 0
    ensures var o := Run(m, e, st, act, cfg);
      && o.effects == [DriveToPoint(m.searchPoints[0])]
      && o.episode == e
      && o.mem.ballAngle == m.ballAngle && o.mem.roverAngle == m.roverAngle
      && (act.driveStatus == Arrived ==> o.next == SearchSpin && [m.searchPoints[0]] + o.mem.searchPoints == m.searchPoints)
      && (act.driveStatus == OnCourse ==> o.next == SearchDrive && o.mem == m)
      && (act.driveStatus == OffCourse ==> o.next == SearchTurn && o.mem == m)
  {
  }

  // ----- the spin -----

  /** The first spin tick latches both the spin origin and the next stop to the current
      heading, then turns there. */
  lemma SpinLatchesOrigin(m: Memory, e: Episode, st: RoverStatus, turnDone: bool, waitStep: real)
    requires !st.tennisBall.found && e.nextStop == 0.0
    ensures var o := SpinStep(m, e, st, turnDone, waitStep);
      var b := st.odometry.bearingDeg;
      && o.effects == [TurnToBearing(b)]
      && o.mem == m
      && (turnDone ==> o.next == SearchSpinWait && o.episode == e.(origSpin := b, nextStop := b + waitStep))
      && (!turnDone ==> o.next == SearchSpin && o.episode == e.(origSpin := b, nextStop := b))
  {
  }

  /** Once latched, a completed turn either ends the spin after a full revolution, clearing
      the next stop, or advances the next stop by exactly one step and waits; an incomplete
      turn changes nothing. */
  lemma SpinAdvances(m: Memory, e: Episode, st: RoverStatus, turnDone: bool, waitStep: real)
    requires !st.tennisBall.found && e.nextStop != 0.0
    ensures var o := SpinStep(m, e, st, turnDone, waitStep);
      && o.effects == [TurnToBearing(e.nextStop)]
      && o.mem == m
      && (!turnDone ==> o.next == SearchSpin && o.episode == e)
      && (turnDone && e.nextStop - e.origSpin >= 360.0 ==>
            o.next == SearchTurn && o.episode == e.(nextStop := 0.0))
      && (turnDone && e.nextStop - e.origSpin < 360.0 ==>
            o.next == SearchSpinWait && o.episode == e.(nextStop := e.nextStop + waitStep))
  {
  }

  /** A spin latched at heading zero leaves the zero sentinel in place only while its first
      turn is incomplete, so the next tick latches again from the heading it then reads;
      a completed first turn moves the stop off zero and the origin stays. */
  lemma SpinLatchedAtZeroHeading(m: Memory, e: Episode, st1: RoverStatus, st2: RoverStatus,
                                 turnDone: bool, waitStep: real)
    requires !st1.tennisBall.found && !st2.tennisBall.found
    requires e.nextStop == 0.0 && st1.odometry.bearingDeg == 0.0
    ensures var o1 := SpinStep(m, e, st1, false, waitStep);
      SpinStep(m, o1.episode, st2, turnDone, waitStep).episode.origSpin == st2.odometry.bearingDeg
    ensures var o1 := SpinStep(m, e, st1, true, waitStep);
      waitStep != 0.0 ==>
        o1.episode.nextStop == waitStep
        && SpinStep(m, o1.episode, st2, turnDone, waitStep).episode.origSpin == 0.0
  {
  }

  /** A stop that lands exactly on zero, from a negative heading or a negative step, is
      taken for "not latched": the next spin tick restarts the spin from the current
      heading. */
  lemma SpinStopAtZeroRestarts(m: Memory, e: Episode, st1: RoverStatus, st2: RoverStatus,
                               turnDone: bool, waitStep: real)
    requires !st1.tennisBall.found && !st2.tennisBall.found
    requires e.nextStop != 0.0 && e.nextStop - e.origSpin < 360.0 && e.nextStop + waitStep == 0.0
    ensures var o1 := SpinStep(m, e, st1, true, waitStep);
      && o1.next == SearchSpinWait && o1.episode.nextStop == 0.0
      && SpinStep(m, o1.episode, st2, turnDone, waitStep).episode.origSpin == st2.odometry.bearingDeg
  {
  }

  /** The spin and the waits use separate parts of the episode state. */
  lemma SpinAndWaitFrames(m: Memory, e: Episode, st: RoverStatus, turnDone: bool, now: int, cfg: Config)
    ensures var o := SpinStep(m, e, st, turnDone, cfg.searchWaitStepSize);
      o.episode.started == e.started && o.episode.startTime == e.startTime
    ensures var o := WaitStep(m, e, st, now, cfg.searchWaitTime);
      o.episode.nextStop == e.nextStop && o.episode.origSpin == e.origSpin
  {
  }

  /** A run of spin ticks in which every turn completes at once and no ball is seen. */
  function SpinRun(m: Memory, e: Episode, sts: seq<RoverStatus>, waitStep: real): (r: (Episode, seq<NavState>))
    ensures |r.1| == |sts|
    decreases |sts|
  {
    if sts == [] then (e, [])
    else
      var o := SpinStep(m, e, sts[0], true, waitStep);
      var rest := SpinRun(m, o.episode, sts[1..], waitStep);
      (rest.0, [o.next] + rest.1)
  }

  function Repeat(s: NavState, n: nat): (r: seq<NavState>)
    ensures |r| == n && forall i :: 0 <= i < n ==> r[i] == s
  {
    if n == 0 then [] else [s] + Repeat(s, n - 1)
  }

  lemma RepeatThen(s: NavState, n: nat, last: NavState)
    ensures [s] + (Repeat(s, n) + [last]) == Repeat(s, n + 1) + [last]
  {
    assert Repeat(s, n + 1) == [s] + Repeat(s, n);
  }

  predicate NoBall(sts: seq<RoverStatus>)
  {
    forall i :: 0 <= i < |sts| ==> !sts[i].tennisBall.found
  }

  /** How far the `k`-th stop of a spin lies past its origin: `k` steps. */
  function Offset(k: nat, step: real): real
  {
    if k == 0 then 0.0 else Offset(k - 1, step) + step
  }

  lemma {:induction false} OffsetIsProduct(k: nat, step: real)
    ensures Offset(k, step) == (k as real) * step
  {
    if k > 0 {
      OffsetIsProduct(k - 1, step);
      assert (k as real) * step == ((k - 1) as real) * step + step;
    }
  }

  /** Before the `ceil(360 / step)`-th stop the spin has not yet covered a revolution. */
  lemma OffsetBelowRevolution(k: nat, n: nat, step: real)
    requires step > 0.0 && n == Refinement.Ceil(360.0 / step) && k < n
    ensures Offset(k, step) < 360.0
  {
    OffsetIsProduct(k, step);
    var q := 360.0 / step;
    assert q * step == 360.0;
    ScaleStrict(k as real, q, step);
  }

  lemma ScaleStrict(x: real, y: real, step: real)
    requires step > 0.0 && x < y
    ensures x * step < y * step
  {
    assert y * step - x * step == (y - x) * step;
  }

  /** At the `ceil(360 / step)`-th stop the spin has covered a revolution. */
  lemma OffsetReachesRevolution(n: nat, step: real)
    requires step > 0.0 && n == Refinement.Ceil(360.0 / step)
    ensures Offset(n, step) >= 360.0
  {
    OffsetIsProduct(n, step);
    assert 360.0 / step * step == 360.0;
  }

  lemma {:induction false} OffsetPositive(k: nat, step: real)
    requires k >= 1 && step > 0.0
    ensures Offset(k, step) > 0.0
  {
    if k > 1 {
      OffsetPositive(k - 1, step);
    }
  }

  /** `ceil(360 / step)` is the number of the first stop that completes a revolution. */
  lemma RevolutionStops(step: real)
    requires step > 0.0
    ensures var n := Refinement.Ceil(360.0 / step);
      n >= 1 && Offset(n - 1, step) < 360.0 <= Offset(n, step)
  {
    var n := Refinement.Ceil(360.0 / step);
    assert 360.0 / step > 0.0;
    OffsetBelowRevolution(n - 1, n, step);
    OffsetReachesRevolution(n, step);
  }

  lemma {:induction false} OffsetMonotone(i: nat, j: nat, step: real)
    requires i <= j && step > 0.0
    ensures Offset(i, step) <= Offset(j, step)
    decreases j - i
  {
    if i < j {
      OffsetMonotone(i, j - 1, step);
    }
  }

  lemma NoBallTail(sts: seq<RoverStatus>)
    requires |sts| > 0 && NoBall(sts)
    ensures NoBall(sts[1..])
  {
    forall i | 0 <= i < |sts[1..]| ensures !sts[1..][i].tennisBall.found {
      assert sts[1..][i] == sts[i + 1];
    }
  }

  lemma SpinRunCons(m: Memory, e: Episode, sts: seq<RoverStatus>, step: real)
    requires |sts| > 0
    ensures var o := SpinStep(m, e, sts[0], true, step);
      var rest := SpinRun(m, o.episode, sts[1..], step);
      SpinRun(m, e, sts, step) == (rest.0, [o.next] + rest.1)
  {
  }

  /** The spin after its `k`-th stop: the remaining stops are waited at, and the tick after
      the last one ends the spin. */
  lemma {:induction false} SpinRunFrom(m: Memory, e: Episode, sts: seq<RoverStatus>, step: real, k: nat, n: nat)
    requires step > 0.0 && e.origSpin >= 0.0
    requires 1 <= k <= n && Offset(n - 1, step) < 360.0 <= Offset(n, step)
    requires |sts| == n - k + 1 && NoBall(sts)
    requires e.nextStop == e.origSpin + Offset(k, step)
    ensures SpinRun(m, e, sts, step) == (e.(nextStop := 0.0), Repeat(SearchSpinWait, n - k) + [SearchTurn])
    decreases n - k
  {
    OffsetPositive(k, step);
    SpinAdvances(m, e, sts[0], true, step);
    SpinRunCons(m, e, sts, step);
    var o := SpinStep(m, e, sts[0], true, step);
    if k == n {
      assert o.next == SearchTurn && o.episode == e.(nextStop := 0.0);
      assert sts[1..] == [];
      assert SpinRun(m, o.episode, sts[1..], step) == (o.episode, []);
      assert [o.next] + [] == [SearchTurn];
      assert n - k == 0;
      assert Repeat(SearchSpinWait, n - k) + [SearchTurn] == [SearchTurn];
    } else {
      OffsetMonotone(k, n - 1, step);
      var e1 := e.(nextStop := e.origSpin + Offset(k + 1, step));
      assert o.next == SearchSpinWait && o.episode == e1;
      NoBallTail(sts);
      SpinRunFrom(m, e1, sts[1..], step, k + 1, n);
      RepeatThen(SearchSpinWait, n - (k + 1), SearchTurn);
      assert e1.(nextStop := 0.0) == e.(nextStop := 0.0);
    }
  }

  /** A spin started at a non-negative heading with a positive step, with every turn
      completing and no ball in sight, waits at exactly `ceil(360 / step)` stops and then
      moves on to the search turn, clearing the next stop. The run chains spin ticks
      directly; in the program pause ticks come between two of them, and a pause never
      touches the stop or the origin (`SpinAndWaitFrames`), so the stops traced here are
      those of the program's spin. */
  lemma SpinCompletesFullRevolution(m: Memory, e: Episode, sts: seq<RoverStatus>, step: real)
    requires step > 0.0 && e.nextStop == 0.0 && NoBall(sts)
    requires |sts| == Refinement.Ceil(360.0 / step) + 1
    requires sts[0].odometry.bearingDeg >= 0.0
    ensures var n := Refinement.Ceil(360.0 / step);
      var b := sts[0].odometry.bearingDeg;
      SpinRun(m, e, sts, step) == (e.(nextStop := 0.0, origSpin := b), Repeat(SearchSpinWait, n) + [SearchTurn])
  {
    RevolutionStops(step);
    var n := Refinement.Ceil(360.0 / step);
    SpinFromLatch(m, e, sts, step, n);
  }

  /** The same, with the number of stops given by its bounds instead of by `ceil`. */
  lemma SpinFromLatch(m: Memory, e: Episode, sts: seq<RoverStatus>, step: real, n: nat)
    requires step > 0.0 && e.nextStop == 0.0 && NoBall(sts)
    requires n >= 1 && Offset(n - 1, step) < 360.0 <= Offset(n, step)
    requires |sts| == n + 1 && sts[0].odometry.bearingDeg >= 0.0
    ensures var b := sts[0].odometry.bearingDeg;
      SpinRun(m, e, sts, step) == (e.(nextStop := 0.0, origSpin := b), Repeat(SearchSpinWait, n) + [SearchTurn])
  {
    var b := sts[0].odometry.bearingDeg;
    SpinLatchesOrigin(m, e, sts[0], true, step);
    SpinRunCons(m, e, sts, step);
    var e1 := e.(origSpin := b, nextStop := b + Offset(1, step));
    assert Offset(1, step) == step;
    assert SpinStep(m, e, sts[0], true, step).next == SearchSpinWait;
    assert SpinStep(m, e, sts[0], true, step).episode == e1;
    NoBallTail(sts);
    SpinRunFrom(m, e1, sts[1..], step, 1, n);
    RepeatThen(SearchSpinWait, n - 1, SearchTurn);
    assert e1.(nextStop := 0.0) == e.(nextStop := 0.0, origSpin := b);
  }

  // ----- the waits -----

  function StayIn(st: RoverStatus): NavState
  {
    if st.currentState == SearchSpinWait then SearchSpinWait else TurnedToBallWait
  }

  /** The first tick of a wait stops the rover and starts the timer; later ticks leave the
      timer alone. */
  lemma WaitStartsTimerOnce(m: Memory, e: Episode, st: RoverStatus, now: int, waitTime: real)
    requires !st.tennisBall.found
    ensures var o := WaitStep(m, e, st, now, waitTime);
      && o.mem == m
      && (o.effects == [Stop] <==> !e.started)
      && (e.started ==> o.effects == [] && o.episode.startTime == e.startTime)
      && (!e.started ==> o.episode.startTime == now)
  {
  }

  /** The wait ends only once strictly more than the wait time has passed: it then clears the
      timer and resumes the spin or starts the final approach. */
  lemma WaitTimesOut(m: Memory, e: Episode, st: RoverStatus, now: int, waitTime: real)
    requires !st.tennisBall.found
    ensures var o := WaitStep(m, e, st, now, waitTime);
      var start := if e.started then e.startTime else now;
      && ((now - start) as real > waitTime ==>
            && o.episode == e.(startTime := start, started := false)
            && o.next == (if st.currentState == SearchSpinWait then SearchSpin else DriveToBall))
      && ((now - start) as real <= waitTime ==>
            o.episode == e.(startTime := start, started := true) && o.next == StayIn(st))
  {
  }

  /** A run of wait ticks without a ball, one clock reading per tick. */
  function WaitRun(m: Memory, e: Episode, st: RoverStatus, times: seq<int>, waitTime: real): (r: (Episode, seq<NavState>, seq<Effect>))
    ensures |r.1| == |times|
    decreases |times|
  {
    if times == [] then (e, [], [])
    else
      var o := WaitStep(m, e, st, times[0], waitTime);
      var rest := WaitRun(m, o.episode, st, times[1..], waitTime);
      (rest.0, [o.next] + rest.1, o.effects + rest.2)
  }

  /** While the timer runs and the wait time has not been exceeded, every tick stays in the
      same wait, issues nothing and keeps the timer. */
  lemma {:induction false} WaitHolds(m: Memory, e: Episode, st: RoverStatus, times: seq<int>, waitTime: real)
    requires !st.tennisBall.found && e.started
    requires forall i :: 0 <= i < |times| ==> (times[i] - e.startTime) as real <= waitTime
    ensures WaitRun(m, e, st, times, waitTime) == (e, Repeat(StayIn(st), |times|), [])
  {
    if times != [] {
      var o := WaitStep(m, e, st, times[0], waitTime);
      assert o == Outcome(StayIn(st), m, e, []);
      assert forall i :: 0 <= i < |times[1..]| ==> (times[1..][i] - e.startTime) as real <= waitTime by {
        forall i | 0 <= i < |times[1..]| ensures (times[1..][i] - e.startTime) as real <= waitTime {
          assert times[1..][i] == times[i + 1];
        }
      }
      WaitHolds(m, e, st, times[1..], waitTime);
      var rest := WaitRun(m, o.episode, st, times[1..], waitTime);
      assert o.effects + rest.2 == [];
      assert Repeat(StayIn(st), |times|) == [o.next] + rest.1;
    }
  }

  /** A wait episode that has not run out: the rover is stopped once, at the first tick, the
      timer keeps the first tick's time, and every tick returns the same wait phase. */
  lemma WaitIsIdempotent(m: Memory, e: Episode, st: RoverStatus, times: seq<int>, waitTime: real)
    requires !st.tennisBall.found && !e.started && |times| > 0
    requires forall i :: 0 <= i < |times| ==> (times[i] - times[0]) as real <= waitTime
    ensures WaitRun(m, e, st, times, waitTime)
         == (e.(startTime := times[0], started := true), Repeat(StayIn(st), |times|), [Stop])
  {
    var e1 := e.(startTime := times[0], started := true);
    var o := WaitStep(m, e, st, times[0], waitTime);
    assert o == Outcome(StayIn(st), m, e1, [Stop]);
    assert forall i :: 0 <= i < |times[1..]| ==> (times[1..][i] - e1.startTime) as real <= waitTime by {
      forall i | 0 <= i < |times[1..]| ensures (times[1..][i] - e1.startTime) as real <= waitTime {
        assert times[1..][i] == times[i + 1];
      }
    }
    WaitHolds(m, e1, st, times[1..], waitTime);
    var rest := WaitRun(m, e1, st, times[1..], waitTime);
    assert o.effects + rest.2 == [Stop];
    assert Repeat(StayIn(st), |times|) == [o.next] + rest.1;
  }

  // ----- the pursuit -----

  /** Turning to the ball: towards the remembered absolute bearing when it is out of sight,
      towards the seen bearing otherwise; a finished turn waits without touching the memory,
      an unfinished one with the ball in sight refreshes the memory. */
  lemma TurnToBallTargets(m: Memory, e: Episode, st: RoverStatus, act: Actuation, cfg: Config)
    requires st.currentState == TurnToBall
    ensures var o := Run(m, e, st, act, cfg);
      && o.episode == e
      && o.mem.searchPoints == m.searchPoints
      && (!st.tennisBall.found ==> o.effects == [TurnToBearing(m.ballAngle + m.roverAngle)] && o.mem == m)
      && (st.tennisBall.found ==>
            o.effects == [TurnToBearing(st.tennisBall.bearing + st.odometry.bearingDeg)])
      && (act.turnDone ==> o.next == TurnedToBallWait && o.mem == m)
      && (!act.turnDone ==> o.next == TurnToBall)
      && (!act.turnDone && st.tennisBall.found ==>
            o.mem == UpdateDetection(m, st.tennisBall.bearing, st.odometry.bearingDeg))
  {
  }

  /** The final approach: a lost ball resumes the search turn; an obstacle with the ball
      judged reachable is reported and detoured; otherwise the rover drives the final
      approach, and arriving pops the outer path and bumps both counters. The controller's
      own state never changes here. */
  lemma DriveToBallOutcomes(m: Memory, e: Episode, st: RoverStatus, act: Actuation, cfg: Config)
    requires st.currentState == DriveToBall
    ensures var o := Run(m, e, st, act, cfg);
      var detour := IsObstacleDetected(st) && IsTennisBallReachable(st.tennisBall, st.obstacle, cfg);
      var approach := DriveFinalApproach(st.tennisBall.distance, st.tennisBall.bearing + st.odometry.bearingDeg);
      && o.mem == m && o.episode == e
      && (!st.tennisBall.found ==> o.next == SearchTurn && o.effects == [])
      && (st.tennisBall.found && detour ==>
            o.next == SearchTurnAroundObs
            && o.effects == [ReportObstacle(st.obstacle.bearing, st.obstacle.distance)])
      && (st.tennisBall.found && !detour ==>
            && (act.driveStatus == Arrived ==>
                  o.next == Turn && o.effects == [approach, PopPath, CompletedPoint, FoundBall])
            && (act.driveStatus == OnCourse ==> o.next == DriveToBall && o.effects == [approach])
            && (act.driveStatus == OffCourse ==> o.next == TurnToBall && o.effects == [approach]))
  {
  }

  /** An obstacle 5.0 away with the ball 4.0 away and a margin of 0.5 makes the ball
      "reachable", and so the final approach is abandoned for obstacle avoidance. */
  lemma DriveToBallDetoursWhenReachable(m: Memory, e: Episode, o: Odom, act: Actuation, cfg: Config)
    requires cfg.tennisBallDistance == 0.5
    ensures var st := RoverStatus(DriveToBall, o, TennisBall(true, 10.0, 4.0), Obstacle(true, 10.0, 5.0));
      Run(m, e, st, act, cfg).next == SearchTurnAroundObs
  {
    var st := RoverStatus(DriveToBall, o, TennisBall(true, 10.0, 4.0), Obstacle(true, 10.0, 5.0));
    assert IsTennisBallReachable(st.tennisBall, st.obstacle, cfg);
  }

  // ----- dispatch and whole-tick invariants -----

  /** A phase without a transition function, including the algorithm change and the
      obstacle detour, gives `Unknown` and changes nothing. */
  lemma UnhandledPhaseIsUnknown(m: Memory, e: Episode, st: RoverStatus, act: Actuation, cfg: Config)
    requires Dispatch(st.currentState) == NoHandler
    ensures Run(m, e, st, act, cfg) == Outcome(Unknown, m, e, [])
  {
  }

  /** A handled phase never gives `Unknown`. */
  lemma HandledPhaseIsKnown(m: Memory, e: Episode, st: RoverStatus, act: Actuation, cfg: Config)
    requires TickReady(m, st) && Dispatch(st.currentState) != NoHandler
    ensures Run(m, e, st, act, cfg).next != Unknown
  {
  }

  /** The waypoint list changes in only two ways on a tick: the current pose is pushed to its
      front when the ball is seen, or the front is dropped when a search drive arrives. */
  lemma ListChangesOnlyByPushOrPop(m: Memory, e: Episode, st: RoverStatus, act: Actuation, cfg: Config)
    requires TickReady(m, st)
    ensures var o := Run(m, e, st, act, cfg);
      || o.mem.searchPoints == m.searchPoints
      || (st.tennisBall.found && o.mem.searchPoints == [st.odometry] + m.searchPoints)
      || (st.currentState == SearchDrive && act.driveStatus == Arrived && o.next == SearchSpin
          && |m.searchPoints| > 0 && o.mem.searchPoints == m.searchPoints[1..])
  {
  }

  /** The ball memory is written only on a tick that sees the ball, and then holds that
      tick's ball bearing and heading. */
  lemma MemoryWrittenOnlyOnDetection(m: Memory, e: Episode, st: RoverStatus, act: Actuation, cfg: Config)
    requires TickReady(m, st)
    ensures var o := Run(m, e, st, act, cfg);
      || (o.mem.ballAngle == m.ballAngle && o.mem.roverAngle == m.roverAngle)
      || (st.tennisBall.found && o.mem.ballAngle == st.tennisBall.bearing
          && o.mem.roverAngle == st.odometry.bearingDeg)
  {
  }

  predicate IsMotion(f: Effect)
  {
    f.TurnToBearing? || f.TurnToPoint? || f.DriveToPoint? || f.DriveFinalApproach? || f.Stop?
  }

  /** A tick issues at most one motion command, and it is the first effect. */
  lemma AtMostOneMotionCommand(m: Memory, e: Episode, st: RoverStatus, act: Actuation, cfg: Config)
    requires TickReady(m, st)
    ensures var fx := Run(m, e, st, act, cfg).effects;
      forall i :: 0 < i < |fx| ==> !IsMotion(fx[i])
  {
  }
}
