# radiation-interaction, modelled in Dafny

This project models the bookkeeping core of the radiation-interaction
simulators and analyzers. The repository has two halves.

- **Java simulators:**
  - an event-driven Brownian-motion simulation of discs in a square box (`BrownianMotion`, `Particle`, `Event`);
  - one-dimensional Beeman and Verlet integrators over fixed arrays (`algos/`);
  - a two-dimensional Beeman integrator over three stacks, for a charge crossing a grid of fixed charges (`algos2D/`, `CustomStack`, `Vector2D`, `AlgorithmType`).
- **Python analyzers:**
  - `analyzerFun.py` reads the simulators' trajectory logs back line by line;
  - `objects.py` holds the particle helpers, the ending classification, `FullValue` and the cross-run averaging of `Summary`;
  - `utils.py` holds configuration lookup, colour escapes and the tick formatter.

How the source maps onto Dafny:

- Every `double` and Python float is a Dafny `real`, and every update is exact.
- `sqrt`, `log10`, `round`, the force law and `exact_solution` are function parameters. A lemma assumes only the law it needs, for example `IsSqrt(sqrt)`. `exact_solution` returns its value or the exception it raises, so its error path is part of `analyze_osc`.
- Objects whose fields the source updates in place are classes, with `modifies` and `reads` frames:
  - `Particle`, `Event`, the event queue and the line reader;
  - the two `StepAlgorithm`s, `CustomStack` and `Summary`.
- The loops of the source are methods with loop invariants. Each is proved against a function that specifies it:
  - the line loops of `analyze_osc` and `analyze_rad`;
  - the potential-energy sum and the averaging loops of `Summary`;
  - the file-reading loops and the integrators' `next`;
  - the grid-building loops.
- The event loop of `main` is proved against a per-poll specification instead. The loop returns a ghost record of the run: the events polled, their validity, and the queue, the discs and the clock before and after each poll. The predicate `PollStep` says how one poll relates these on values: an earliest event is removed; a valid one moves the clock and every disc and, unless the run stops, adds exactly the future events of its discs. The predicate `Run` says every poll of the record is such a step. The discs are recorded as value snapshots (`Schedules.Disc`).
- Python and Java exceptions are values of `Result`/`Option` types. They carry the exception the source raises: IndexError, ValueError, ZeroDivisionError, StatisticsError, UnboundLocalError, IOException and the others.

Modules (one file each):

- `Wrappers`, `RealMath`, `PyErrors`, `Steps`: shared types and real-number laws.
- `AlgorithmTypes`, `Stacks`, `Vectors`, `Particles`, `Events`, `EventQueues`, `Schedules`, `Readers`, `Brownian`: the event-driven simulation.
- `Integrator1D`, `Integrator2D`: the integrators.
- `AnalysisObjects`, `Analyzer`, `Utils`: the analyzers.

Two places where the simulator and the analyzer disagree are kept as written:

- **Box size.** `analyze_rad` classifies the ending in a 16 D x 15 D box (analyzerFun.py:77). The 2D integrator stops at d n x d (n - 1) (algos2D/StepAlgorithm.java:46-47).
- **Order of the wall tests.** `get_ending_reason` tests right, top, left, bottom. `hasNext` tests max X, min X, max Y, min Y.

## Model

| member | source | states |
|---|---|---|
| AlgorithmTypes.FirstWithKey | src/main/java/ar/edu/itba/sds/objects/AlgorithmType.java:15-18 | The lookup loop returns a constant of the list carrying exactly the key; it returns none only when no constant carries it |
| AlgorithmTypes.KeysDistinct | src/main/java/ar/edu/itba/sds/objects/AlgorithmType.java:4-6 | The three keys are distinct, so a key names at most one constant |
| AlgorithmTypes.OfKey | src/main/java/ar/edu/itba/sds/objects/AlgorithmType.java:14-19 | `of` finds every constant again from its own key |
| AlgorithmTypes.OfUnknown | src/main/java/ar/edu/itba/sds/objects/AlgorithmType.java:14-19 | `of` returns null exactly for strings other than "Beeman", "Verlet" and "Gear", compared case-sensitively |
| AlgorithmTypes.OfNameIsNone | src/main/java/ar/edu/itba/sds/objects/AlgorithmType.java:4-6 | The upper-case enum names are never keys, so `of(t.name())` is null for every constant |
| Stacks.CustomStack.constructor | src/main/java/ar/edu/itba/sds/objects/CustomStack.java:8-10 | A new stack is empty |
| Stacks.CustomStack.Push | src/main/java/ar/edu/itba/sds/objects/CustomStack.java:6 | The inherited push puts the element on top and keeps the rest |
| Stacks.CustomStack.Peek | src/main/java/ar/edu/itba/sds/objects/CustomStack.java:6 | The inherited peek returns the top; EmptyStackException exactly on an empty stack |
| Stacks.CustomStack.PeekPeek | src/main/java/ar/edu/itba/sds/objects/CustomStack.java:12-18 | Returns the element at index size - 2; EmptyStackException exactly when the size is 0 or 1; changes nothing |
| Stacks.PushTwiceThenPeek | src/main/java/ar/edu/itba/sds/objects/CustomStack.java:12-18 | After push(a) and push(b) on a new stack, `peekPeek` gives a and `peek` gives b |
| Stacks.PushOnceThenPeek | src/main/java/ar/edu/itba/sds/objects/CustomStack.java:15-16 | With one element `peekPeek` throws while `peek` succeeds |
| Vectors.Origin | src/main/java/ar/edu/itba/sds/objects/Vector2D.java:14-17 | The no-argument constructor gives (0, 0) |
| Vectors.DeltaX | src/main/java/ar/edu/itba/sds/objects/Vector2D.java:27-29 | `deltaX` is the x component of `sub` |
| Vectors.DeltaY | src/main/java/ar/edu/itba/sds/objects/Vector2D.java:31-33 | `deltaY` is the y component of `sub` |
| Vectors.Sum | src/main/java/ar/edu/itba/sds/objects/Vector2D.java:35-37 | (0, 0) is the identity of `sum` on both sides |
| Vectors.Sub | src/main/java/ar/edu/itba/sds/objects/Vector2D.java:39-41 | `sum` undoes `sub`, and the result is the only vector it does that for, so `sub` undoes `sum` |
| Vectors.VectorEquals | src/main/java/ar/edu/itba/sds/objects/Vector2D.java:66-72 | `equals` holds exactly when the two vectors are equal |
| Vectors.SquaredDistanceZero | src/main/java/ar/edu/itba/sds/objects/Vector2D.java:48-50 | The sum of squares under `mod`'s root is never negative and is positive exactly for distinct points |
| Vectors.ModIsDistance | src/main/java/ar/edu/itba/sds/objects/Vector2D.java:48-50 | `mod` is a distance: non-negative, symmetric, and 0 exactly on equal points |
| Vectors.ForceShape | src/main/java/ar/edu/itba/sds/objects/Vector2D.java:52-56 | Off the diagonal the force points along v1 - v2, and its squared length is the square of the Coulomb magnitude k q^2 / mod^2 |
| Vectors.ForceDirection | src/main/java/ar/edu/itba/sds/objects/Vector2D.java:52-56 | With k > 0 and q != 0 the force is repulsive when `pos` holds and attractive otherwise |
| Particles.WallTime | src/main/java/ar/edu/itba/sds/objects/Particle.java:61-65 | No time exactly at rest; otherwise a disc moving that long touches the wall it is moving towards |
| Particles.WallTimeNonNegative | src/main/java/ar/edu/itba/sds/objects/Particle.java:61-75 | A disc inside the box reaches its wall at a time >= 0 |
| Particles.ContactTime | src/main/java/ar/edu/itba/sds/objects/Particle.java:82-98 | No contact exactly when the discs are not approaching or the discriminant is negative |
| Particles.ApproachingMeansMoving | src/main/java/ar/edu/itba/sds/objects/Particle.java:88-97 | Approaching discs have a non-zero relative velocity, so the division in `collides` is defined |
| Particles.ContactTimeTouches | src/main/java/ar/edu/itba/sds/objects/Particle.java:82-98 | At the reported time the two centres are exactly r1 + r2 apart |
| Particles.ContactTimeNotInPast | src/main/java/ar/edu/itba/sds/objects/Particle.java:82-98 | Discs that do not overlap are never reported to collide in the past |
| Particles.Particle.constructor | src/main/java/ar/edu/itba/sds/objects/Particle.java:23-32 | The fields are the arguments and the collision count starts at 0 |
| Particles.Particle.AdvanceTime | src/main/java/ar/edu/itba/sds/objects/Particle.java:47-50 | Free flight for deltaT; velocity and collision count unchanged |
| Particles.Particle.CollidesX | src/main/java/ar/edu/itba/sds/objects/Particle.java:61-65 | Null exactly when vx == 0; otherwise x + vx t reaches rightWallX - r (vx > 0) or leftWallX + r (vx < 0) |
| Particles.Particle.CollidesY | src/main/java/ar/edu/itba/sds/objects/Particle.java:71-75 | The same on the y axis |
| Particles.Particle.Collides | src/main/java/ar/edu/itba/sds/objects/Particle.java:82-98 | Null exactly when the approach product is >= 0 or the discriminant < 0; a particle never collides with itself |
| Particles.Particle.BounceX | src/main/java/ar/edu/itba/sds/objects/Particle.java:103-106 | Negates vx, keeps vy and the position, and counts one collision |
| Particles.Particle.BounceY | src/main/java/ar/edu/itba/sds/objects/Particle.java:111-114 | Negates vy, keeps vx and the position, and counts one collision |
| Particles.Particle.Bounce | src/main/java/ar/edu/itba/sds/objects/Particle.java:120-135 | Opposite impulses along the line of centres; momentum on each axis conserved; positions kept; both counts go up by one |
| Particles.ImpulseCancels | src/main/java/ar/edu/itba/sds/objects/Particle.java:127-134 | Applying +J to one disc and -J to the other leaves the total momentum on an axis unchanged |
| Particles.BounceIsElastic | src/main/java/ar/edu/itba/sds/objects/Particle.java:120-135 | For touching discs the impulse of `bounce` conserves kinetic energy |
| Particles.BounceXTwice | src/main/java/ar/edu/itba/sds/objects/Particle.java:103-106 | Two `bounceX` calls restore the velocity and count two collisions |
| Particles.EqualsIsIdEquality | src/main/java/ar/edu/itba/sds/objects/Particle.java:157-168 | `equals` is reflexive and symmetric, holds exactly on equal ids, and agrees with `hashCode` |
| Particles.NotEqualToNull | src/main/java/ar/edu/itba/sds/objects/Particle.java:157-163 | No particle equals null |
| Events.Event.Pair | src/main/java/ar/edu/itba/sds/objects/Event.java:34-36 | A pair event snapshots both current collision counts, so it starts valid |
| Events.Event.Wall | src/main/java/ar/edu/itba/sds/objects/Event.java:44-46 | A wall event has no second disc, snapshot 0 for it, the wall kind from the flag, and starts valid |
| Events.Event.IsWallType | src/main/java/ar/edu/itba/sds/objects/Event.java:60-62 | True exactly for the events of the wall constructor |
| Events.Event.PerformEvent | src/main/java/ar/edu/itba/sds/objects/Event.java:64-76 | Dispatches on the kind to bounce, bounceX or bounceY; every disc of the event counts one more collision, so the event is stale afterwards |
| Events.Event.CompareTo | src/main/java/ar/edu/itba/sds/objects/Event.java:90-93 | Orders events by time alone, with the sign of the time difference |
| Events.CompareToIsTotalPreorder | src/main/java/ar/edu/itba/sds/objects/Event.java:90-93 | `compareTo` is reflexive, antisymmetric and transitive |
| Events.StaleStaysStale | src/main/java/ar/edu/itba/sds/objects/Event.java:82-88 | While counts only grow, an event that is invalid stays invalid |
| Events.PastSnapshotStaysPast | src/main/java/ar/edu/itba/sds/objects/Event.java:82-88 | A count that has moved past its snapshot never comes back to it along a non-decreasing history |
| EventQueues.EarliestExists | src/main/java/ar/edu/itba/sds/BrownianMotion.java:92-93 | A non-empty queue has an earliest event for `poll` to return |
| EventQueues.EventQueue.constructor | src/main/java/ar/edu/itba/sds/BrownianMotion.java:175 | The new priority queue is empty |
| EventQueues.EventQueue.Add | src/main/java/ar/edu/itba/sds/BrownianMotion.java:181 | `add` puts the event into the queue |
| EventQueues.EventQueue.Poll | src/main/java/ar/edu/itba/sds/BrownianMotion.java:93 | `poll` removes one earliest event, and only that one |
| Schedules.WallPlansShape | src/main/java/ar/edu/itba/sds/BrownianMotion.java:145-151 | One wall event per moving axis, of the disc alone, snapshotting its count, timed when it touches that wall |
| Schedules.PairPlansShape | src/main/java/ar/edu/itba/sds/BrownianMotion.java:153-156 | At most one event per other disc, each a pair event with a different disc, snapshotting both counts |
| Schedules.InitialPlansAmongDiscs | src/main/java/ar/edu/itba/sds/BrownianMotion.java:174-195 | Every event of the first queue is well formed and snapshots the current counts of discs of the simulation |
| Schedules.InitialPairsAreOrdered | src/main/java/ar/edu/itba/sds/BrownianMotion.java:187-192 | Every initial pair event joins disc i with a later disc j > i, so no pair is scheduled twice |
| Schedules.FuturePlansAmongDiscs | src/main/java/ar/edu/itba/sds/BrownianMotion.java:142-157 | A null disc schedules nothing; the events of any other disc are well formed and among the discs |
| Schedules.WallPlansNotInPast | src/main/java/ar/edu/itba/sds/BrownianMotion.java:145-151 | A disc inside the box gets no wall event before now |
| Schedules.PairPlansNotInPast | src/main/java/ar/edu/itba/sds/BrownianMotion.java:153-156 | Discs that do not overlap get no pair event before now |
| Schedules.FuturePlansNotInPast | src/main/java/ar/edu/itba/sds/BrownianMotion.java:142-157 | A disc inside the box and clear of the others gets no future event before now |
| Schedules.SnapOf | src/main/java/ar/edu/itba/sds/BrownianMotion.java:94-97 | Looking a disc up in the snapshot of the discs gives its current position, velocity and count |
| Schedules.FuturePlansOfSnap | src/main/java/ar/edu/itba/sds/BrownianMotion.java:142-157 | The future events of a disc computed from the live discs equal those computed from their snapshot, so the per-poll record can state them on values |
| Readers.LineReader.constructor | src/main/java/ar/edu/itba/sds/BrownianMotion.java:66 | The reader starts at the first unread line |
| Readers.LineReader.ReadLine | src/main/java/ar/edu/itba/sds/BrownianMotion.java:204-205 | `readLine` returns the next line and consumes it, or null at the end of the file |
| Readers.Field | src/main/java/ar/edu/itba/sds/BrownianMotion.java:209-210 | ArrayIndexOutOfBounds for a missing piece, NumberFormatException for a piece that is not a number, else its value |
| Readers.Fields | src/main/java/ar/edu/itba/sds/BrownianMotion.java:208-210 | Parsing `width` pieces left to right yields exactly `width` values |
| Readers.FieldsAreTheNumbers | src/main/java/ar/edu/itba/sds/BrownianMotion.java:208-210 | The pieces parse exactly when the first `width` are numbers, and the values are those numbers |
| Readers.FieldsFailAtFirstBadPiece | src/main/java/ar/edu/itba/sds/BrownianMotion.java:209-210 | The exception raised is the one of the first bad piece |
| Readers.Rows | src/main/java/ar/edu/itba/sds/BrownianMotion.java:234-241 | Reading n rows succeeds only when n lines exist, giving n rows of `width` values |
| Readers.RowsShape | src/main/java/ar/edu/itba/sds/BrownianMotion.java:234-241 | Rows succeed exactly when n lines exist and each parses; too few good lines raise IOException |
| Readers.RowsFailureIsFinal | src/main/java/ar/edu/itba/sds/BrownianMotion.java:234-241 | Once a row fails, reading further rows fails with the same exception |
| Brownian.FirstLargestIsFirstMaximum | src/main/java/ar/edu/itba/sds/BrownianMotion.java:232-245 | The scan picks the first index of a largest radius; -1 exactly when no radius exceeds -1 (so with no discs) |
| Brownian.FillProperties | src/main/java/ar/edu/itba/sds/BrownianMotion.java:228-249 | Unequal arrays raise IllegalArgumentException; otherwise the read error, or both arrays filled from n lines and the index of the first largest radius |
| Brownian.ParseMotion | src/main/java/ar/edu/itba/sds/BrownianMotion.java:208-210 | The four `parseDouble` calls of an "x y vx vy" line, with the first failure raised |
| Brownian.CreateParticleList | src/main/java/ar/edu/itba/sds/BrownianMotion.java:197-219 | Unequal arrays, short files, bad lines and leftover lines raise; otherwise disc i has id i, the i-th radius, mass and motion, and count 0 |
| Brownian.BigParticleToWall | src/main/java/ar/edu/itba/sds/BrownianMotion.java:138-140 | True exactly for a wall event whose disc has the big disc's id |
| Brownian.AdvanceAll | src/main/java/ar/edu/itba/sds/BrownianMotion.java:97 | Every disc flies freely for dt; velocities and counts unchanged |
| Brownian.BrownianMotion.constructor | src/main/java/ar/edu/itba/sds/BrownianMotion.java:260-261 | The simulation starts with a positive event budget |
| Brownian.BrownianMotion.ScheduleWalls | src/main/java/ar/edu/itba/sds/BrownianMotion.java:179-185 | Appends exactly the wall events of the disc, vertical first |
| Brownian.BrownianMotion.SchedulePairs | src/main/java/ar/edu/itba/sds/BrownianMotion.java:187-192 | Appends exactly the pair events with the given discs, in their order |
| Brownian.BrownianMotion.CreateQueueFromList | src/main/java/ar/edu/itba/sds/BrownianMotion.java:174-195 | The queue holds each disc's wall events and its pair events with later discs |
| Brownian.BrownianMotion.AddFutureCollisions | src/main/java/ar/edu/itba/sds/BrownianMotion.java:142-157 | Appends the disc's wall events and pair events with every disc; nothing for null |
| Brownian.BrownianMotion.ScheduleDisc | src/main/java/ar/edu/itba/sds/BrownianMotion.java:145-156 | Appends the disc's wall events, then its pair events with the given discs, and keeps every event already queued |
| Brownian.BrownianMotion.ScheduleNext | src/main/java/ar/edu/itba/sds/BrownianMotion.java:178-193 | One pass of the outer loop takes the queue from the events of the first i discs to those of the first i + 1 |
| Brownian.BrownianMotion.Trigger | src/main/java/ar/edu/itba/sds/BrownianMotion.java:94-113 | Moves the clock to the event and every disc along its flight. It stops, changing nothing else, at the big disc's wall event. Otherwise the event's discs bounce at their flown positions (one velocity component reversed at a wall, opposite impulses along the line of centres for two discs), only they count a collision, the other discs keep their velocity, and the future events of both are queued |
| Brownian.BrownianMotion.Perform | src/main/java/ar/edu/itba/sds/BrownianMotion.java:110-113 | The event's discs bounce as `performEvent` says (vx or vy reversed at a wall, opposite impulses for two discs), positions kept, one collision each; others keep their velocity; the future events of both are appended |
| Brownian.BrownianMotion.Simulate | src/main/java/ar/edu/itba/sds/BrownianMotion.java:90-117 | Records the run as a `Run`: the first queue holds exactly the initial plans and the first snapshot and clock are the starting ones; the last snapshot and clock are the discs and clock at the end. Stale events are skipped and not counted; `eventsTriggered` counts the valid polls, less the final big-disc wall event, which stops the run and is the only such valid event polled. At most `maxEvents` are triggered, the budget ending is reported exactly when it is reached, the exhausted ending means the last queue is empty, counts never decrease, and an empty first queue ends at once |
| Brownian.BrownianMotion.PollOnce | src/main/java/ar/edu/itba/sds/BrownianMotion.java:93-116 | One `PollStep` from the queue, discs and clock before to those after: the polled event is an earliest one and is removed (as a multiset); it is valid exactly when its recorded counts match the discs; a stale one changes nothing else and shrinks the queue by one; a valid one moves the clock to its time, flies every disc, counts one collision for each of its discs and adds exactly their future events, unless it is the big disc's wall event, which stops the run |
| Brownian.BrownianMotion.PollLoop | src/main/java/ar/edu/itba/sds/BrownianMotion.java:91-117 | The `while` loop: a recorded `Run` from the queue, discs and clock at entry to those at exit; it stops on the big disc's valid wall event (then the last poll, not counted), or with the queue empty or the budget spent, counting the valid polls |
| Brownian.BrownianMotion.PollRecorded | src/main/java/ar/edu/itba/sds/BrownianMotion.java:93-116 | One pass of the loop extends a recorded `Run` by one poll from the queue, discs and clock where the run left off, keeping its start; the run stops exactly on a valid big-disc wall event |
| Brownian.BrownianMotion.TriggerRecorded | src/main/java/ar/edu/itba/sds/BrownianMotion.java:95-113 | Triggering on values: the discs after are `Triggered` from the discs before, the clock is the event's time, the queue keeps its events and gains events describing exactly what `Scheduled` gives, nothing when the run stops |
| Brownian.BrownianMotion.TriggerKeepingQueue | src/main/java/ar/edu/itba/sds/BrownianMotion.java:95-113 | The same as `TriggerRecorded`, and the queue stays well formed, among the discs and not ahead of their counts |
| Brownian.RunExtends | src/main/java/ar/edu/itba/sds/BrownianMotion.java:92-117 | A recorded run followed by one more poll from its last queue, discs and clock is a recorded run |
| Brownian.QueueOkFromPlans | src/main/java/ar/edu/itba/sds/BrownianMotion.java:174-195 | Events matching well-formed plans are well formed, among the discs, and not ahead of the counts |
| Brownian.EndMessage | src/main/java/ar/edu/itba/sds/BrownianMotion.java:132-135 | The intended closing message: the border message exactly for the big disc's wall, the budget message exactly for the budget |
| Brownian.EndMessageAgreesUnlessExhausted | src/main/java/ar/edu/itba/sds/BrownianMotion.java:132-135 | The message as written is right on every run that does not end with an empty queue |
| Brownian.ExhaustedQueueIsMisreported | src/main/java/ar/edu/itba/sds/BrownianMotion.java:132-135 | A run that ends with an empty queue is reported as the big disc reaching the border |
| Brownian.RestingDiscsMeetNobody | src/main/java/ar/edu/itba/sds/BrownianMotion.java:187-192 | Discs at rest schedule no pair events |
| Brownian.RestingDiscsScheduleNothing | src/main/java/ar/edu/itba/sds/BrownianMotion.java:174-195 | When every disc is at rest the first queue is empty |
| Integrator1D.JavaRound | src/main/java/ar/edu/itba/sds/algos/StepAlgorithm.java:33 | `Math.round` gives the integer within a half of its argument |
| Integrator1D.ArraySize | src/main/java/ar/edu/itba/sds/algos/StepAlgorithm.java:33 | The arrays hold round(tf / dt) + 2 >= 2 slots, covering [-dt, tf] |
| Integrator1D.EulerPrecedingStepIsUndoneByForwardStep | src/main/java/ar/edu/itba/sds/algos/StepAlgorithm.java:56-62 | The intended back-step sits one dt earlier, and a forward step under a returns exactly to (r, v) |
| Integrator1D.EulerPrecedingStepAsWrittenOvershoots | src/main/java/ar/edu/itba/sds/algos/StepAlgorithm.java:57-58 | The back-step as written sits a dt^2 away from the intended one, so a forward step overshoots r by a dt^2 |
| Integrator1D.VerletFromAsWrittenBackStepIsWrong | src/main/java/ar/edu/itba/sds/algos/StepAlgorithm.java:57-58 | From the back-step as written, Verlet's first step at rest under unit acceleration goes to -1/2 instead of 1/2 |
| Integrator1D.ExactBackStep | src/main/java/ar/edu/itba/sds/algos/StepAlgorithm.java:56-62 | The intended back-step position is uniformly accelerated motion at time -dt |
| Integrator1D.PhaseAtNext | src/main/java/ar/edu/itba/sds/algos/StepAlgorithm.java:41-53 | Slot 0 is the back-step, slot 1 the initial conditions, and each later slot comes from the two before it |
| Integrator1D.ClockIsMultiple | src/main/java/ar/edu/itba/sds/algos/Beeman.java:37 | Adding deltaT k times gives k dt |
| Integrator1D.BeemanAdvanceIsExact | src/main/java/ar/edu/itba/sds/algos/Beeman.java:17-34 | Under a constant force one Beeman step reproduces uniformly accelerated motion |
| Integrator1D.BeemanRunIsExact | src/main/java/ar/edu/itba/sds/algos/Beeman.java:13-41 | From the back-step as written, under a constant force every Beeman slot is the exact motion at its time; Beeman reads slot 0 only through its acceleration |
| Integrator1D.VerletRunIsExact | src/main/java/ar/edu/itba/sds/algos/StepAlgorithm.java:56-62 | The corrected back-step does its job: from it, under a constant force, every Verlet position is the exact motion at its time and each stored velocity the exact one a slot earlier. The class does not start from it |
| Integrator1D.VerletRunAsWrittenDrifts | src/main/java/ar/edu/itba/sds/algos/Verlet.java:13-31 | From the back-step as written, under a constant force, Verlet's slot k + 1 lags both the run from the corrected back-step and the exact motion by k a dt^2 |
| Integrator1D.VerletRunsDiffer | src/main/java/ar/edu/itba/sds/algos/Verlet.java:18 | Two Verlet runs under a constant force from the same start whose slot-0 positions differ by c drift apart by c more at each step |
| Integrator1D.LagIsMultiple | src/main/java/ar/edu/itba/sds/algos/Verlet.java:18 | A gap of c gained at each of k steps is k c |
| Integrator1D.VerletPositionIsExact | src/main/java/ar/edu/itba/sds/algos/Verlet.java:18 | The position update 2 x(t) - x(t - dt) + dt^2 a is exact for uniform acceleration |
| Integrator1D.VerletVelocityIsCentral | src/main/java/ar/edu/itba/sds/algos/Verlet.java:21 | The central difference (x(t + dt) - x(t - dt)) / 2 dt is the exact velocity for uniform acceleration |
| Integrator1D.StepAlgorithm.constructor | src/main/java/ar/edu/itba/sds/algos/StepAlgorithm.java:32-54 | Arrays of round(tf/dt) + 2 slots; slot 1 holds (r0, v0, f(r0, v0)/mass), slot 0 the back-step as written; lastIndex 1, lastTime 0 |
| Integrator1D.StepAlgorithm.RemainingSteps | src/main/java/ar/edu/itba/sds/algos/StepAlgorithm.java:68-71 | `hasNext` holds exactly while some step remains |
| Integrator1D.StepAlgorithm.GetLastStep | src/main/java/ar/edu/itba/sds/algos/StepAlgorithm.java:64-66 | Returns the slot under the cursor and its time, changing nothing |
| Integrator1D.StepAlgorithm.Next | src/main/java/ar/edu/itba/sds/algos/Beeman.java:13-41 | Throws exactly when `hasNext` is false. Otherwise it writes slot lastIndex + 1 alone with the scheme's update, advances the cursor and the clock, and returns the new last step |
| Integrator1D.StepAlgorithm.Drain | src/main/java/ar/edu/itba/sds/DampedOscillation.java:81-86 | Calling `next` while `hasNext` yields every remaining slot in order, one dt apart |
| Integrator1D.AlgorithmBuilder | src/main/java/ar/edu/itba/sds/algos/StepAlgorithm.java:19-30 | BEEMAN and VERLET build their integrator; a null type fails |
| Integrator2D.CellOfGridPoint | src/main/java/ar/edu/itba/sds/algos2D/StepAlgorithm.java:111 | The grid cell is read back from the point of a fixed charge |
| Integrator2D.GridPointInjective | src/main/java/ar/edu/itba/sds/algos2D/StepAlgorithm.java:109-111 | Distinct cells give distinct points, so no map entry is overwritten |
| Integrator2D.GridPointsAreOrdered | src/main/java/ar/edu/itba/sds/algos2D/StepAlgorithm.java:109-111 | The points come in the row-major order of their cells |
| Integrator2D.PlacedKeysAreEarlierCells | src/main/java/ar/edu/itba/sds/algos2D/StepAlgorithm.java:107-114 | Every key placed so far is the point of an earlier cell of the grid |
| Integrator2D.PlacedHoldsEarlierCells | src/main/java/ar/edu/itba/sds/algos2D/StepAlgorithm.java:107-114 | Every earlier cell is placed with its sign |
| Integrator2D.PlacedSize | src/main/java/ar/edu/itba/sds/algos2D/StepAlgorithm.java:107-114 | One key per placed cell |
| Integrator2D.InitStaticParticles | src/main/java/ar/edu/itba/sds/algos2D/StepAlgorithm.java:107-114 | The map holds exactly the n n points ((i+1) d, j d), each true exactly when i + j is even |
| Integrator2D.EulerPrecedingStepIsComponentwise | src/main/java/ar/edu/itba/sds/algos2D/StepAlgorithm.java:100-105 | For any one-dimensional force, the planar back-step is the one-dimensional one on each axis, and the position as written is off by dt^2 a |
| Integrator2D.BeemanPositionIsComponentwise | src/main/java/ar/edu/itba/sds/algos2D/Beeman.java:22 | The planar position update is the one-dimensional Beeman position on each axis |
| Integrator2D.BeemanVelocityIsComponentwise | src/main/java/ar/edu/itba/sds/algos2D/Beeman.java:28 | The planar velocity update is the one-dimensional corrected velocity on each axis |
| Integrator2D.BeemanAccelerationIsForceOverMass | src/main/java/ar/edu/itba/sds/algos2D/Beeman.java:25 | The new acceleration is the force at the new position over the mass |
| Integrator2D.StopCheck | src/main/java/ar/edu/itba/sds/algos2D/StepAlgorithm.java:72-96 | Never stops before the first step. Otherwise it reports the first of max X, min X, max Y, min Y and closeness to a fixed charge that holds, each exactly when the earlier tests fail |
| Integrator2D.StopCheckNoneIffInside | src/main/java/ar/edu/itba/sds/algos2D/StepAlgorithm.java:72-96 | Past the first step the run goes on exactly inside the open box and at least dCut from every fixed charge |
| Integrator2D.StopAtFixedCharge | src/main/java/ar/edu/itba/sds/algos2D/StepAlgorithm.java:91 | Sitting on a fixed charge stops the run |
| Integrator2D.StepAlgorithm.constructor | src/main/java/ar/edu/itba/sds/algos2D/StepAlgorithm.java:38-66 | maxX = d n, maxY = d (n - 1), dCut = 0.01 d, the charge grid, and two entries per stack: the back-step as written under (0, r0), (v0, 0), f/mass |
| Integrator2D.StepAlgorithm.GetLastStep | src/main/java/ar/edu/itba/sds/algos2D/StepAlgorithm.java:68-70 | The clock and the three stack tops, nothing popped |
| Integrator2D.StepAlgorithm.HasNext | src/main/java/ar/edu/itba/sds/algos2D/StepAlgorithm.java:72-96 | True exactly when no stop condition holds |
| Integrator2D.StepAlgorithm.Next | src/main/java/ar/edu/itba/sds/algos2D/Beeman.java:17-37 | Throws exactly when `hasNext` is false. Otherwise it pushes one Beeman entry on each stack, keeping them equal and at least two deep, advances the clock, and returns the new tops |
| Integrator2D.AlgorithmBuilder | src/main/java/ar/edu/itba/sds/algos2D/StepAlgorithm.java:29-36 | Only BEEMAN builds an integrator; every other type is refused with IllegalArgumentException |
| AnalysisObjects.Distances1DAreSymmetric | objects.py:29-33 | On the line both distances are symmetric and the centre distance is >= 0 |
| AnalysisObjects.DistancesAreSymmetric | objects.py:118-122 | In the plane both distances are symmetric, and with a true root the centre distance is >= 0 |
| AnalysisObjects.CenterDistanceZeroIffSamePoint | objects.py:118-119 | The centre distance is 0 exactly for particles at the same point |
| AnalysisObjects.ValueEqualityIsIdentity | objects.py:60-82 | Comparing ending reasons by value is comparing the reasons |
| AnalysisObjects.GetEndingReason | objects.py:130-139 | The first wall test that holds, in the order right, top, left, bottom, else Collision; never NotEnded |
| AnalysisObjects.CollidesWithWallIsEndingAtWall | objects.py:141-143 | `collides_with_wall(side)` holds exactly when `get_ending_reason(side, side)` names a wall |
| AnalysisObjects.WallTestOnTheLine | objects.py:41-42 | Clear of top and bottom, the planar wall test is the one-dimensional one |
| AnalysisObjects.KineticEnergy | objects.py:146-147 | Kinetic energy is >= 0 for a non-negative mass |
| AnalysisObjects.PotentialSum | objects.py:150-152 | The sum raises ZeroDivisionError exactly when some fixed charge sits on the particle |
| AnalysisObjects.PotentialEnergy | objects.py:149-153 | k q times the sum; 0 with no fixed charges; ZeroDivisionError exactly at a charge's position |
| AnalysisObjects.GetPotentialEnergy | objects.py:149-153 | The summing loop computes the potential energy, or its error |
| AnalysisObjects.PotentialSumErrorIsFinal | objects.py:151-152 | Once a prefix of the charges raises, the whole sum does |
| AnalysisObjects.DecCount | objects.py:220-225 | 3 for a zero deviation; ValueError for a negative one; never negative |
| AnalysisObjects.NewFullValue | objects.py:219-227 | Defined exactly for a non-negative deviation; the value and the deviation are both rounded to the decimal count |
| AnalysisObjects.DecCountIsFirstSignificantPlace | objects.py:224-225 | A deviation in [10^-k, 10^(1-k)) keeps k decimals |
| AnalysisObjects.DecCountOfLargeDeviation | objects.py:224-225 | A deviation of 1 or more keeps no decimals |
| AnalysisObjects.LeadingLonger | objects.py:337-340 | The inner loop stops at the first series with no element at the index |
| AnalysisObjects.Shortest | objects.py:334-348 | The length of the shortest series, which is at most every length and is some length |
| AnalysisObjects.LeadingLongerIsAll | objects.py:337-340 | Every series has an element at index t exactly when t is below the shortest length |
| AnalysisObjects.SquaredColumnSumNonNegative | objects.py:341 | A sum of squares is >= 0 |
| AnalysisObjects.CoveringTimesAreReadable | objects.py:342 | Time series at least as long as their value series can always be read |
| AnalysisObjects.BigMeansNonNegative | objects.py:341-345 | Averaged squared distances are >= 0 |
| AnalysisObjects.ColumnSums | objects.py:337-342 | One inner loop: IndexError exactly on a missing time, else whether a series ended and the sums over the series before it |
| AnalysisObjects.BuildDcm | objects.py:331-348 | One mean per index every series reaches, so the output has the shortest length. No series is ZeroDivisionError; a missing time is IndexError after the entries already made |
| AnalysisObjects.Summary.constructor | objects.py:323-326 | The four averaged lists start empty |
| AnalysisObjects.Summary.BuildBigDcm | objects.py:331-348 | Appends the mean squared distance and mean time per index every run reaches; the small lists are untouched |
| AnalysisObjects.Summary.BuildSmallDcm | objects.py:350-367 | Appends the mean of the already squared values and mean time per index; the big lists are untouched |
| Analyzer.ParseTime | analyzerFun.py:23 | Only a line that is one number is a time; `*` and anything else raise ValueError |
| Analyzer.ParseRecord | analyzerFun.py:32-34 | The first `width` pieces as numbers; a missing piece is IndexError, a bad one ValueError |
| Analyzer.OscFailureIsFinal | analyzerFun.py:21-42 | An exception ends the loop: later lines change nothing |
| Analyzer.OscFoldShape | analyzerFun.py:21-42 | `restart` holds exactly at the start and after `*`; `p_id` counts the group's records; the clock is the time of the current group; the four series grow in lockstep, each exact value is what `exact_solution` gives at its time, and each squared error is >= 0 |
| Analyzer.OscFailsIffSomeLineFails | analyzerFun.py:6-37 | The loop raises exactly when a time line is not one number, a record lacks two numbers, or `exact_solution` raises at a record's group time |
| Analyzer.StarAsTimeRaises | analyzerFun.py:22-23 | A `*` where a time is expected raises instead of being skipped |
| Analyzer.OscAnalysisResult | analyzerFun.py:48-49 | Success needs two records, and the error is then the mean of non-negative squared errors |
| Analyzer.AnalyzeOsc | analyzerFun.py:9-70 | The line loop followed by the mean squared error |
| Analyzer.GridRowShape | analyzerFun.py:81-87 | Row i holds j charges at ((i+1) D, j' D), id i N + j', sign by parity |
| Analyzer.GridRowsAt | analyzerFun.py:80-87 | The charge of row a, column b is at index a N + b |
| Analyzer.GridRowsLength | analyzerFun.py:80-87 | i rows hold i N charges |
| Analyzer.GridRowsIds | analyzerFun.py:80-87 | Every charge's id is its index |
| Analyzer.StaticGridLayout | analyzerFun.py:79-87 | N x N charges, none for N <= 0, each with its index as id |
| Analyzer.StaticGridCell | analyzerFun.py:79-87 | The charge at index a N + b is at ((a+1) D, b D), +Q exactly when a + b is even, else -Q |
| Analyzer.BuildStaticParticles | analyzerFun.py:79-87 | The nested loops build exactly that grid |
| Analyzer.RadStepEffect | analyzerFun.py:100-139 | What one line does to the loop state. A record adds one time and position. At time 0 it adds a 0 trajectory entry. At another time it adds the distance and a non-negative energy difference |
| Analyzer.RadFailureIsFinal | analyzerFun.py:100-139 | An exception ends the loop: later lines change nothing |
| Analyzer.SeriesAgreeKept | analyzerFun.py:101-109 | Time and `*` lines keep the series in agreement |
| Analyzer.SeriesAgreeAtZero | analyzerFun.py:135-137 | A time-0 record keeps them in agreement and binds the baseline |
| Analyzer.SeriesAgreeMoving | analyzerFun.py:125-134 | A record at another time keeps them in agreement |
| Analyzer.RadFoldShape | analyzerFun.py:100-139 | Times, positions and trajectory entries grow one per record. There is one energy difference, >= 0, per record at a non-zero time, and the running sum is their sum. `restart` holds exactly at the start and after `*` |
| Analyzer.TrajectoryGrowsAtZero | analyzerFun.py:135-137 | A time-0 record keeps the trajectory growing |
| Analyzer.TrajectoryGrowsMoving | analyzerFun.py:125-129 | A record at another time adds a non-negative distance and keeps it growing |
| Analyzer.RadTrajectory | analyzerFun.py:125-137 | Every entry lies in [0, total]; an entry at a non-zero time is at least every earlier one; the last equals the total when its time is not 0 |
| Analyzer.TrajectoryStep | analyzerFun.py:125-137 | One log line, a record, a time line or `*`, keeps the trajectory growing |
| Analyzer.RadTrajectoryIsCumulative | analyzerFun.py:125-137 | When the time-0 records come first, the cumulative trajectory never decreases and ends at the total length |
| Analyzer.MovingFirstRecordRaises | analyzerFun.py:125-132 | A first record at a non-zero time raises, since the baseline and previous particle are unbound |
| Analyzer.RadAnalysisResult | analyzerFun.py:141-191 | Success exactly when the loop succeeds with a record. The ending comes from the last record in the 16 D x 15 D box and is never NotEnded; the energy sum is the sum of its series |
| Analyzer.AddRecord | analyzerFun.py:111-139 | The loop body for a record line |
| Analyzer.AnalyzeRad | analyzerFun.py:74-191 | The fixed-charge grid, the line loop, then the ending |
| Analyzer.RadLoop | analyzerFun.py:100-139 | The line loop ends in the state the fold over every line gives, or with the first error that fold meets |
| Analyzer.RadLine | analyzerFun.py:101-139 | One pass of the loop is one fold step: the line after a restart is the time, `*` sets restart, and any other line adds one record |
| Utils.ReadConfigParam | utils.py:10-15 | The converted value exactly when the key is present and the validator accepts it. A missing key or a rejected value exits with status 1; a converter exception propagates |
| Utils.ParseHex | utils.py:19 | `int(s, 16)`: the value of a hex numeral, else ValueError |
| Utils.NatToStringReadsBack | utils.py:20 | A component printed in decimal reads back as itself |
| Utils.HexPairs | utils.py:19 | The slices at offsets 1, 3, 5, ... below the length, each one or two characters |
| Utils.ParsePairs | utils.py:19 | Every slice parsed in order, or ValueError when one fails |
| Utils.GetColorEscape | utils.py:18-20 | An escape exactly when the slices parse and there are three components; ValueError for a bad slice, IndexError for too few |
| Utils.HexPairReadsBack | utils.py:19 | Two hex digits written from a byte parse back to it |
| Utils.ColorEscapeRoundTrip | utils.py:18-20 | "#RRGGBB" of three bytes gives the 24-bit SGR escape of exactly those bytes |
| Utils.HexColorComponentsAreBytes | utils.py:19 | Hex digits after the first character give components in 0..255 |
| Utils.Split | utils.py:35 | At least one piece, none containing the separator |
| Utils.SplitJoin | utils.py:35 | Joining the pieces gives the string back |
| Utils.SplitAtFirst | utils.py:35 | The first piece is the text before the first separator |
| Utils.SplitWithout | utils.py:35 | Without the separator there is one piece, the whole string |
| Utils.SplitFirstPieceEmpty | utils.py:35 | The first piece is empty exactly when the string is empty or starts with the separator |
| Utils.RStrip | utils.py:36 | A prefix of the string, not ending in the character, after which only that character follows |
| Utils.LStrip | utils.py:38 | A suffix of the string, not starting with the character, before which only that character comes |
| Utils.LStripZerosKeepsValue | utils.py:38 | Dropping leading zeros keeps a numeral's value |
| Utils.ExponentDigits | utils.py:38-39 | Non-empty and without a leading zero unless it is "0" |
| Utils.ExponentDigitsKeepValue | utils.py:38-39 | The exponent keeps its value |
| Utils.MathText | utils.py:40-45 | The formula is wrapped in '$' |
| Utils.SciFormat | utils.py:31-45 | Wrapped in '$' on success; IndexError otherwise |
| Utils.SciFormatNeedsExponent | utils.py:34-37 | Text without an 'e' raises IndexError |
| Utils.SciFormatOfExponentNotation | utils.py:34-45 | On "m e±dd" the result keeps the significand without trailing '.'. It drops a '+' sign and keeps '-', and writes the exponent without leading zeros, or 0 |

## Left out

- File and console I/O is not modelled:
  - the prints and timing printouts;
  - `writeParticleState`, `appendToFile` and the trailing `*`;
  - plotting, `init_plotter` and `hold_execution`.
- Input is modelled as lines, not raw files:
  - A line of a trajectory log is either `*` or its pieces, each a number or not. A time line is one such line.
  - `rstrip`, `split(' ')` and `float()` are folded into that representation.
- Startup code is not modelled:
  - the header lines of the static and dynamic files (N, L, the initial time);
  - `argumentParsing` and the JSON configuration;
  - `main` outside its event loop;
  - RadiationInteraction.java and DampedOscillation.java, except the `hasNext`/`next` drive of the integrator.
- Floating-point rounding, NaN, infinities and -0.0 are not modelled; every quantity is an exact real.
- Division by zero that Java carries on with (giving infinity or NaN) is not modelled:
  - `bounce` requires non-zero masses and a non-zero sum of radii; the integrators require a positive mass and time step. The source checks none of these: the model requires them of its callers, and the simulation's event loop gets them from `Physical` (see the `Brownian.Physical` line below).
  - `collidesX` and `collidesY` require nothing: at zero velocity they give None, as the source returns null without dividing.
  - `force` at coincident points gives None.
- `sqrt`, `log10`, `round`, the force law and `exact_solution` are parameters. Only the laws a lemma names (for example `IsSqrt`) are assumed. Which times make `exact_solution` raise (a negative root argument when gamma^2 > 4 k mass, or a zero mass) is left to that parameter and is not computed by the model.
- Gear.java is not part of this model.
- Integrator1D.AlgorithmBuilder: returns an error for GEAR, where the source builds a Gear integrator.
- Java's `PriorityQueue` tie order is not modelled. `poll` returns some earliest event.
- Brownian.BrownianMotion.Simulate: the recorded run does not state the velocities of the event's discs after a bounce. `Brownian.BrownianMotion.Trigger`, `Brownian.BrownianMotion.Perform` and `Events.Event.PerformEvent` state them for one event. Stating the impulse in the value-level record would put real division into every proof about the loop, beyond what the verifier handles within its resource limit.
- Brownian.BrownianMotion.PollOnce: the same; `Triggered` fixes positions, counts and the other discs' velocities, not the bounced velocities.
- Brownian.BrownianMotion.PollLoop: the same; its `Run` is built from `Triggered`.
- Brownian.BrownianMotion.PollRecorded: the same; the poll it adds to the `Run` does not state the bounced velocities.
- Brownian.BrownianMotion.TriggerRecorded: the same; it restates `Trigger` through `Triggered`, leaving out the bounced velocities that `Trigger` states.
- Brownian.BrownianMotion.TriggerKeepingQueue: the same, as it is stated through `Triggered`.
- Brownian.Physical: the event-loop members (`Trigger`, `Perform`, `TriggerRecorded`, `TriggerKeepingQueue`, `PollOnce`, `PollRecorded`, `PollLoop`, `Simulate`) require every radius and mass to be positive. `fillProperties` reads them from the static file with `parseDouble` and never checks them; the model trusts the file to hold positive values.
- `Summary` gathers the per-run metrics into `FullValue`s with `sts.mean` and `sts.stdev`. That part is not modelled; `FullValue` and both averaging loops are.
- These are out of scope: animator.py, the analysis scripts, `calculate_regression`, `ParticleNode`, the Python `__eq__`/`__hash__` by position, `get_point`, `get_v_mod`, and old/Event.java.
- Utils.ParseHex: does not model Unicode whitespace beyond ASCII, underscores between digits or a "0x" prefix, which `int(s, 16)` also accepts.
- Utils.SciFormat: takes the already formatted text; `fmt % x` is not modelled.
- Analyzer.RadTrajectoryIsCumulative: requires the time-0 records to come first. A record at time 0 after moving records writes a 0 entry and breaks monotonicity, as the source does.
- Analyzer.RadStepEffect: `p_id` is reset per group but never incremented, as in `analyze_rad`.
- `Step` is a plain record, modelled as a datatype with no properties of its own.

## Findings

| source | as written | input that shows it | evidently intended | confidence | as-written member | corrected member |
|---|---|---|---|---|---|---|
| src/main/java/ar/edu/itba/sds/algos/StepAlgorithm.java:57-58 | rPrev = r - dt vPrev + dt^2 a / 2 with vPrev = v - dt a, i.e. r - dt v + 3/2 dt^2 a | r = 0, v = 0, a = 1, dt = 1: rPrev = 1.5 and Verlet's first step goes to -0.5; under any constant a != 0, slot k + 1 lags the exact motion by k a dt^2 | the Euler back-step r - dt v + dt^2 a / 2, from which Verlet follows the exact motion | not executed | Integrator1D.VerletRunAsWrittenDrifts | Integrator1D.VerletRunIsExact |
| src/main/java/ar/edu/itba/sds/algos2D/StepAlgorithm.java:101-102 | prevPos = r - dt prevVel + dt^2 a / 2, the same dt^2 a offset on each axis | any a != (0, 0): the position is off by dt^2 a | r - dt v + dt^2 a / 2 on each axis | not executed | Integrator2D.EulerPrecedingStepIsComponentwise | Integrator1D.EulerPrecedingStepIsUndoneByForwardStep |
| src/main/java/ar/edu/itba/sds/BrownianMotion.java:132-135 | every run short of `maxEvents` prints "Big particle reached border" | every disc at rest: the first queue is empty and no event happens | a message for a run that ran out of events | not executed | Brownian.ExhaustedQueueIsMisreported | Brownian.EndMessageAgreesUnlessExhausted |
