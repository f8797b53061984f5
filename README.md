# Search-phase controller of the rover navigation

This project models `SearchStateMachine`, the controller that runs the rover while it
searches for a tennis ball. Each control tick, `run` looks at the current navigation phase and
calls that phase's transition function:
- the search spin, with a pause at every step of the spin;
- the wait, shared by the spin pause and the pause after turning to the ball;
- the turn to the next waypoint and the drive to it;
- the turn to the ball and the final approach to it.

Each transition function reads the perception readings, issues at most one motion command and
returns the next phase. Along the way it may change three kinds of state:
- the controller's waypoint list;
- its memory of the last ball detection;
- four pieces of state that live for the whole program (`nextStop`, `mOriginalSpinAngle`,
  `started` and `startTime`). They are function-local statics, so every controller shares them.

Two more operations are modelled:
- a pass that refines a generated waypoint list by inserting interpolated poses into long gaps;
- a factory that chooses the waypoint generator for a requested search mode.

Layout:
- `types.dfy` (module `SearchTypes`): rover status, navigation phases, configuration values, the
  commands and reports a tick emits (`Effect`), and the caller-supplied geometry helpers.
- `reachability.dfy` (module `Reachability`): the reachability heuristic and its properties.
- `refinement.dfy` (module `Refinement`): the refined waypoint list as a function
  (`Refine`), and what it keeps and inserts.
- `transitions.dfy` (module `Transitions`): every transition function, and `run`, as pure
  functions of the old state and the tick's inputs.
- `transition_properties.dfy` (module `TransitionProperties`): what one tick guarantees.
  It also covers what a whole spin and a whole wait do over many ticks.
- `factory.dfy` (module `Factory`): the mode-to-generator choice.
- `controller.dfy` (module `Controller`): the imperative controller.
  - `EpisodeStatics` holds the shared statics. Every controller built on the same
    `EpisodeStatics` object shares them, as the function statics are shared in the program.
    The program has exactly one copy of them, so a caller stands for the program only when
    it gives every controller the same `EpisodeStatics` object.
  - `SearchStateMachine` owns the waypoint list and the ball memory. Each of its methods is
    proved to take the state to exactly what the matching function in `Transitions` gives.
  - `InsertIntermediatePoints` is proved to leave the list equal to `Refine` of the old list.
    It has the program's two loops. The outer loop's body, which subdivides one gap, is the
    method `SubdivideGap`, and that method holds the inner loop.

How the model treats particular behaviours of the code:
- A `nextStop` of zero means "not latched yet". A spin latched at heading zero latches again
  on its next tick only if its first turn has not completed; a completed turn moves the stop
  off zero. Any stop that reaches exactly zero, from a negative heading or a negative step,
  restarts the spin from the heading read on the next spin tick.
- The wait ends only when strictly more than the wait time has passed.
- The final approach switches to obstacle avoidance when an obstacle is detected and the ball
  is judged *reachable*. The code's own comment on the heuristic suggests the opposite. The
  model follows the code.
- Refinement computes each gap from the original pair of waypoints. Poses it has inserted are
  never examined again.
- The search drive reads the front of the list without checking that the list is non-empty.

## Model

| member | source | states |
|---|---|---|
| Reachability.ReachableIgnoresFlags | onboard/nav/search/searchStateMachine.cpp:284-296 | The verdict depends only on the two distances, the two bearings and the two thresholds, not on the detection flags. |
| Reachability.ReachableMirrorSymmetric | onboard/nav/search/searchStateMachine.cpp:292-295 | Negating both the ball's and the obstacle's bearing leaves the verdict unchanged. |
| Reachability.ReachableMonotoneInObstacleDistance | onboard/nav/search/searchStateMachine.cpp:292 | Moving the obstacle farther away never turns "reachable" into "unreachable". |
| Reachability.ReachableWithZeroBearing | onboard/nav/search/searchStateMachine.cpp:293-294 | When either bearing is zero, the two opposite-side clauses never hold, so the verdict rests on the distance and the angular-margin clauses alone. |
| Reachability.UnreachableExactly | onboard/nav/search/searchStateMachine.cpp:292-295 | "Unreachable" holds exactly when three conditions all hold: the obstacle is no farther than the ball minus its margin, the bearings do not lie strictly on opposite sides, and the obstacle's absolute bearing is no smaller than the ball's minus the bearing margin. Both directions are proved. |
| Refinement.Ceil | onboard/nav/search/searchStateMachine.cpp:335 | The result is the least integer not below its argument. |
| Refinement.Chain | onboard/nav/search/searchStateMachine.cpp:338-345 | The `n` inserted poses: the `j`-th is the start pose projected `j + 1` times along the bearing. Each projection starts from the pose inserted just before it. |
| Refinement.Gap | onboard/nav/search/searchStateMachine.cpp:332-346 | The number of poses inserted between two waypoints is `ceil(d / maxDifference) - 1` when the distance `d` exceeds the limit and that count is positive, and zero otherwise. |
| Refinement.Refine | onboard/nav/search/searchStateMachine.cpp:328 | A list with fewer than two waypoints is left unchanged. |
| Refinement.RefineKeepsEnds | onboard/nav/search/searchStateMachine.cpp:328-347 | Refinement never shortens the list, and it keeps the first and the last waypoint. |
| Refinement.RefineKeepsOriginals | onboard/nav/search/searchStateMachine.cpp:328-347 | Every original waypoint appears in the refined list, at its computed position. |
| Refinement.RefinePositionsIncrease | onboard/nav/search/searchStateMachine.cpp:328-347 | The positions of the original waypoints strictly increase, so the originals survive in order as a subsequence. |
| Refinement.PosNext | onboard/nav/search/searchStateMachine.cpp:338-346 | Consecutive original waypoints end up one place plus the number of inserted poses apart. |
| Refinement.PosNextInRange | onboard/nav/search/searchStateMachine.cpp:328-347 | The position after each gap lies within the refined list. |
| Refinement.RefineGapBetween | onboard/nav/search/searchStateMachine.cpp:330-346 | Between the `k`-th and `k + 1`-th original waypoints the refined list holds exactly the poses computed for that original pair, and nothing else. |
| Refinement.RefineLength | onboard/nav/search/searchStateMachine.cpp:328-347 | The refined list ends at the last original waypoint: its length is one past that waypoint's position. |
| Refinement.GapShape | onboard/nav/search/searchStateMachine.cpp:333-345 | With a positive limit: a gap no longer than the limit gets no insertion. A longer gap gets `ceil(d / maxDifference) - 1 >= 1` poses. The first is projected from the earlier waypoint, each later one from the pose before it, all along the pair's bearing and by `d / (numPoints + 1)`. |
| Refinement.RefineNegativeLimitIsIdentity | onboard/nav/search/searchStateMachine.cpp:333-338 | With a negative vision distance the computed count is never positive, so the list is left unchanged. |
| Reachability.IsTennisBallReachable | onboard/nav/search/searchStateMachine.cpp:284-296 | Each criterion alone makes the ball reachable: the obstacle farther than the ball less the distance margin, the two bearings of strictly opposite sign (a negative product), or the obstacle more centred than the ball by more than the bearing margin. |
| Transitions.IsObstacleDetected | onboard/nav/search/searchStateMachine.cpp:277-280 | The verdict is the perception layer's obstacle flag and reads nothing else. |
| Transitions.SpinStep | onboard/nav/search/searchStateMachine.cpp:68-99 | A seen ball remembers the pose and gives the turn to the ball with nothing issued; otherwise exactly one turn-to-bearing command is issued. The wait's timer is never touched. The search turn follows only with the stop cleared; a pause follows only with the stop one step past the latched (or kept) stop. |
| Transitions.WaitStep | onboard/nav/search/searchStateMachine.cpp:106-146 | The spin's stop and origin are never touched. The only command is a stop, issued exactly when no ball is seen and the timer is not running. Only a ball seen in the spin pause changes the controller's state. A spin pause leads to the ball, the spin or the same pause, the other wait to the final approach or the same wait. |
| Transitions.SearchTurnStep | onboard/nav/search/searchStateMachine.cpp:153-172 | The statics are untouched; the algorithm change is returned exactly when the list is empty; only a ball seen with waypoints left changes the state; the drive follows only a completed turn. |
| Transitions.SearchDriveStep | onboard/nav/search/searchStateMachine.cpp:180-208 | The statics are untouched; the state stays the same, remembers the ball, or loses exactly its front on the way to the spin; at most one command is issued. |
| Transitions.TurnToBallStep | onboard/nav/search/searchStateMachine.cpp:215-234 | The statics and the list are untouched; exactly one turn-to-bearing command is issued; the wait follows exactly when the turn completes. |
| Transitions.DriveToBallStep | onboard/nav/search/searchStateMachine.cpp:243-274 | The controller's state and the statics never change; `Turn` comes with the approach followed by the path pop and both counters; obstacle avoidance comes with exactly the obstacle report. |
| Transitions.Run | onboard/nav/search/searchStateMachine.cpp:20-61 | `Unknown` is returned exactly for a phase without a transition function, and then nothing changes and nothing is issued. |
| Controller.SearchStateMachine.RememberBallAt | onboard/nav/search/searchStateMachine.cpp:77-79 | The new state is the old one with the current pose pushed to the front and the detection remembered. |
| TransitionProperties.SpinLatchedAtZeroHeading | onboard/nav/search/searchStateMachine.cpp:82-96 | A spin latched at heading zero latches again on the next tick if its first turn is incomplete; a completed first turn (non-zero step) moves the stop to the step and keeps the origin. |
| TransitionProperties.SpinStopAtZeroRestarts | onboard/nav/search/searchStateMachine.cpp:82-96 | A stop that lands exactly on zero is taken for "not latched", and the next spin tick restarts at the current heading. |
| Transitions.UpdateDetection | onboard/nav/search/searchStateMachine.cpp:300-319 | Sets the remembered ball bearing and rover heading and leaves the list alone. |
| Transitions.RememberBall | onboard/nav/search/searchStateMachine.cpp:77-79 | The current pose is pushed to the front of the list, and the ball bearing and heading are remembered. |
| Transitions.Dispatch | onboard/nav/search/searchStateMachine.cpp:20-60 | Exactly the seven search phases have a transition function, and the two wait phases share one. |
| TransitionProperties.BallFoundStartsPursuit | onboard/nav/search/searchStateMachine.cpp:75-81 | A ball seen in the spin, the spin wait, a search turn with waypoints left or a search drive gives the turn to the ball. Exactly the current pose is pushed to the front, the memory becomes (ball bearing, heading), nothing is issued and the statics are untouched. |
| TransitionProperties.BallFoundAfterTurnDrives | onboard/nav/search/searchStateMachine.cpp:111-121 | A ball seen in the wait after turning to the ball gives the final approach, with the list, the memory and the statics untouched. |
| TransitionProperties.EmptyListChangesAlgorithm | onboard/nav/search/searchStateMachine.cpp:155-158 | A search turn with an empty list asks for another algorithm whatever the sensors and actuators report, even when a ball is seen. Nothing changes and nothing is issued. |
| TransitionProperties.SearchTurnTowardsFront | onboard/nav/search/searchStateMachine.cpp:166-171 | Without a ball, the search turn turns to the front waypoint and moves to the search drive exactly when the turn is complete. |
| TransitionProperties.SearchDriveObstacle | onboard/nav/search/searchStateMachine.cpp:189-194 | On a search drive, an obstacle without a ball reports the obstacle's bearing and distance and gives obstacle avoidance, with the list unchanged. |
| TransitionProperties.SearchDriveProgress | onboard/nav/search/searchStateMachine.cpp:195-207 | A clear search drive drives to the front waypoint. On arrival exactly the front is dropped and the spin follows. On course the drive continues with the list unchanged. Otherwise the rover turns again. |
| TransitionProperties.SpinLatchesOrigin | onboard/nav/search/searchStateMachine.cpp:82-98 | With `nextStop == 0`, the spin origin and the next stop are both latched to the current heading and the rover turns there. A completed turn then moves the next stop one step on. |
| TransitionProperties.SpinAdvances | onboard/nav/search/searchStateMachine.cpp:88-98 | Once latched, a completed turn either clears the next stop and gives the search turn, when at least 360 degrees are covered, or moves the next stop by exactly one step and waits. An incomplete turn changes nothing. |
| TransitionProperties.SpinAndWaitFrames | onboard/nav/search/searchStateMachine.cpp:72-73 | The spin never touches the wait statics, and the wait never touches the spin statics. |
| TransitionProperties.SpinCompletesFullRevolution | onboard/nav/search/searchStateMachine.cpp:82-98 | A spin from a non-negative heading with a positive step, every turn completing and no ball in sight, pauses at exactly `ceil(360 / step)` stops. It then gives the search turn, with the next stop cleared and the origin latched. |
| TransitionProperties.SpinRunFrom | onboard/nav/search/searchStateMachine.cpp:88-96 | Started from its `k`-th stop, the spin pauses at every remaining stop and ends on the tick after the last one. |
| TransitionProperties.RevolutionStops | onboard/nav/search/searchStateMachine.cpp:90 | `ceil(360 / step)` is the first stop at which 360 degrees are covered. |
| TransitionProperties.WaitStartsTimerOnce | onboard/nav/search/searchStateMachine.cpp:122-127 | The rover is stopped, and the timer started at the current time, exactly when the timer is not running. A running timer is never restarted. |
| TransitionProperties.WaitTimesOut | onboard/nav/search/searchStateMachine.cpp:128-145 | Once strictly more than the wait time has passed, the timer is cleared and the spin resumes or the final approach starts. Otherwise the same wait phase is returned and the timer keeps running. |
| TransitionProperties.WaitHolds | onboard/nav/search/searchStateMachine.cpp:128-145 | Over any number of ticks within the wait time, a running wait stays in its phase, issues nothing and keeps its timer. |
| TransitionProperties.WaitIsIdempotent | onboard/nav/search/searchStateMachine.cpp:122-145 | A wait episode that does not run out stops the rover once, on its first tick, and keeps the first tick's time as its start. Every tick returns the same wait phase. |
| TransitionProperties.TurnToBallTargets | onboard/nav/search/searchStateMachine.cpp:217-233 | With the ball lost, the turn goes to the remembered absolute bearing and the memory is unchanged. With the ball seen, it goes to bearing plus heading. A finished turn waits without updating the memory. An unfinished turn with the ball seen refreshes the memory. |
| TransitionProperties.DriveToBallOutcomes | onboard/nav/search/searchStateMachine.cpp:245-273 | A lost ball gives the search turn. Obstacle plus reachable gives a reported detour. Otherwise the final approach is driven: arrival pops the outer path, bumps both counters and gives `Turn`; on course continues; off course turns to the ball. The list and memory never change. |
| TransitionProperties.DriveToBallDetoursWhenReachable | onboard/nav/search/searchStateMachine.cpp:250-255 | An obstacle 5.0 away, with the ball 4.0 away and a 0.5 margin, makes the ball "reachable", so the final approach is abandoned for obstacle avoidance. |
| TransitionProperties.UnhandledPhaseIsUnknown | onboard/nav/search/searchStateMachine.cpp:55-59 | Every phase other than the seven search phases gives `Unknown` and changes nothing. This includes the algorithm change and obstacle avoidance. |
| TransitionProperties.HandledPhaseIsKnown | onboard/nav/search/searchStateMachine.cpp:22-53 | A handled phase never gives `Unknown`. |
| TransitionProperties.ListChangesOnlyByPushOrPop | onboard/nav/search/searchStateMachine.cpp:77-200 | A tick changes the list in only two ways: the current pose is pushed when the ball is seen, or the front is popped when a search drive arrives. |
| TransitionProperties.MemoryWrittenOnlyOnDetection | onboard/nav/search/searchStateMachine.cpp:315-319 | The ball memory changes only on a tick that sees the ball, and then holds that tick's ball bearing and heading. |
| TransitionProperties.AtMostOneMotionCommand | onboard/nav/search/searchStateMachine.cpp:20-274 | A tick issues at most one motion command, and it comes before any report. |
| Factory.VariantFor | onboard/nav/search/searchStateMachine.cpp:369-372 | An unknown search mode falls back to the outward spiral. |
| Factory.VariantForModeOf | onboard/nav/search/searchStateMachine.cpp:355-368 | Each known mode yields its own generator. |
| Factory.VariantForInjectiveOnKnownModes | onboard/nav/search/searchStateMachine.cpp:355-368 | Distinct known modes yield distinct generators. |
| Controller.EpisodeStatics.constructor | onboard/nav/search/searchStateMachine.cpp:72-109 | The shared statics start zero-initialised: no stop latched, no timer running. |
| Controller.SearchStateMachine.constructor | onboard/nav/search/searchStateMachine.cpp:14-15 | A new controller has an empty waypoint list and uses the statics it is given. |
| Controller.SearchStateMachine.UpdateTennisBallDetectionElements | onboard/nav/search/searchStateMachine.cpp:315-319 | The new state is the old state with the two remembered angles set. |
| Controller.SearchStateMachine.ExecuteSearchSpin | onboard/nav/search/searchStateMachine.cpp:68-99 | The next phase, the commands issued, and the new list, memory and statics are exactly those of the spin's transition function. |
| Controller.SearchStateMachine.ExecuteRoverWait | onboard/nav/search/searchStateMachine.cpp:106-146 | The same, for the wait's transition function. |
| Controller.SearchStateMachine.ExecuteSearchTurn | onboard/nav/search/searchStateMachine.cpp:153-172 | The same, for the search turn; the statics are untouched. |
| Controller.SearchStateMachine.ExecuteSearchDrive | onboard/nav/search/searchStateMachine.cpp:180-208 | The same, for the search drive; the statics are untouched. |
| Controller.SearchStateMachine.ExecuteTurnToBall | onboard/nav/search/searchStateMachine.cpp:215-234 | The same, for the turn to the ball; the statics are untouched. |
| Controller.SearchStateMachine.ExecuteDriveToBall | onboard/nav/search/searchStateMachine.cpp:243-274 | The same, for the final approach; it modifies nothing. |
| Controller.SearchStateMachine.Run | onboard/nav/search/searchStateMachine.cpp:20-61 | One tick: the new state and outputs are exactly those of the dispatched transition function, or `Unknown` with nothing changed. |
| Controller.SearchStateMachine.InsertIntermediatePoints | onboard/nav/search/searchStateMachine.cpp:323-348 | The in-place nested loop leaves the list equal to the refined list of the old one, and it terminates. |
| Controller.SearchStateMachine.SubdivideGap | onboard/nav/search/searchStateMachine.cpp:330-345 | One outer iteration inserts the gap's poses right after the `i`-th pose, leaves everything before and after it in place, and reports how many it inserted. |
| Controller.SearchFactory | onboard/nav/search/searchStateMachine.cpp:352-375 | A fresh controller on the given statics, with an empty list and the generator chosen for the mode. |

## Left out

- Logging to the error stream is not modelled.
- Configuration values from the configuration document are parameters (`Config`), read once per tick.
- The clock is one integer reading per tick (`now`). The wait reads the clock twice in one tick, when it starts the timer and when it compares; the model uses the same reading for both. `difftime` is the real-valued difference of the two readings.
- The actuation layer's calls (`turn`, `drive`, `stop`) are not modelled. Their results are per-tick inputs (`Actuation`), and their arguments are recorded as `Effect` values.
- The callbacks into the rover-wide state machine and the pop of the rover's path are recorded as `Effect` values only. These are the obstacle angle and distance, the completed-points counter and the found-balls counter.
- The geometry helpers `estimateNoneuclid`, `calcBearing` and `createOdom` are not part of this model. They are supplied by the caller as the `Geometry` functions. Because they are arbitrary, this model does not prove that refined waypoints end up within twice the vision distance of each other.
- The waypoint generators `SpiralOut`, `SpiralIn` and `LawnMower` are not part of this model. The factory's result records which one was chosen (`Variant`), and no waypoints are generated.
- Floating point is modelled by exact reals and `ceil` by exact ceiling. The overflow of the `int` conversion of `ceil` for very long gaps is not modelled.
- The ball memory of a newly built controller is left unspecified, as the program leaves those fields uninitialised.
- Controller.SearchStateMachine.InsertIntermediatePoints: requires a non-zero vision distance. With a zero one, any gap of positive length divides by zero and converts an infinity to `int`, which has no defined result; the model also excludes the lists on which the program stays defined (fewer than two poses, or no gap of positive length).
- Controller.SearchStateMachine.ExecuteSearchDrive: requires a non-empty list whenever the drive reaches the front of the list. The program reads `front()` of an empty deque there, which has no defined result.
- Controller.SearchStateMachine.Run: requires the same of a search-drive tick, for the same reason.
- Concurrency and aliasing of the waypoint list through other references are not modelled. The list is a sequence owned by the controller.
