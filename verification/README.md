# Bouncing ball: the per-frame update step

A model of the state and the update step of a small ggez demo in which one
ball bounces inside an 800 x 600 logical area while an FPS label in the
corner is refreshed once every 60 frames.

The state (`Game.MainState`) is the ball's position and velocity
(`Motion.Ball`, the fields `ball_x`, `ball_dx`, `ball_y`, `ball_dy`), the
`u8` frame counter, and the FPS label, which stands for the `Text` handle
it replaces: either the startup placeholder (`"0 FPS"`) or the reading
installed at the latest refresh. One update (`Game.Update`) does three
things, in this order:

- the Euler move: each coordinate gets its velocity added;
- the reflection: a velocity component is multiplied by -1 whenever the
  moved coordinate is at or below 0 or at or above the far bound (800 for x,
  600 for y); the test runs on every update, not only when an edge is
  crossed;
- the counter tick: `frames += 1` on a `u8`, and when the result is 60 or
  more the counter is reset to 0 and the label is replaced by a fresh
  reading of the host's frame rate.

`Game.Run` applies the update once per reading of a sequence of readings,
as the host's event loop does once per frame.

Modelling choices:

- Coordinates and velocities are `real`, and `+=` is exact addition. The
  single-update properties are stated against the post-step coordinate,
  so they hold whatever the rounding of that coordinate. The multi-update
  results about where the ball can be (containment, no sticking, the
  two-update oscillation) rely on exact addition across updates and are
  not promised for f32 (see "## Left out").
- The frame-rate reading is an opaque value of a type parameter `F`. It is
  an input of each update; a refresh installs it in the label.
- `u8` is the newtype `FpsSampler.U8`. The increment is checked as in a
  Rust debug build: overflow is the error `FrameCounterOverflow` instead
  of a panic. From any state the constructor can produce this error never
  happens (`Game.UpdateKeepsValid`).
- The source refreshes when the incremented counter is `>= 60`, not
  `== 60`. The model keeps `>=`. From counters in `[0, 60)` the two tests
  agree.
- The two `random::<f32>()` samples of the constructor are parameters
  `u`, `w` in `[0, 1)`. Each velocity component is `sample * 20 - 10`, so
  it lies in `[-10, 10)`.
- Three updates from (10, 10) with velocity (-5, 0) do not end at
  (-5, 10), as a reading of the reflection as "only when crossing" would
  suggest. The second update brings x to 0, and `x <= 0.0` reflects
  there, so after three updates the ball is at (5, 10) with velocity
  (5, 0). The model follows the code (`Game.ThreeStepScenario`).

Beyond the per-update contracts, the model proves two facts about long
runs in exact arithmetic. First, a ball started by the constructor never
gets more than one step past an edge, and it never sticks to an edge
(`Game.FromStartContained`). Second, a ball that is already outside the
area (past 0 or past the far bound) and moving further out oscillates
in place forever. This is the
"reflect every frame" edge case (`Motion.StuckAxisOscillates`).

## Model

| member | source | states |
|---|---|---|
| Motion.AxisStep | src/main.rs:47-54 | One axis of an update: the coordinate moves by exactly the pre-step velocity. The velocity keeps its magnitude. It is negated when the moved coordinate is at or past 0 or the bound, and unchanged otherwise. A nonzero velocity changes exactly when the axis reflects. |
| Motion.Move | src/main.rs:47-54 | The ball part of an update is the x axis stepped against 800 and the y axis stepped against 600. |
| Motion.MoveAxesIndependent | src/main.rs:47-54 | The new x and dx depend only on x and dx; the new y and dy depend only on y and dy. |
| Motion.MoveNByAxis | src/main.rs:47-54 | n ball moves are n independent steps of each axis. |
| Motion.InFlightBounds | src/main.rs:49-54 | An axis in flight is less than one step past either edge. |
| Motion.AxisStepKeepsInFlight | src/main.rs:47-54 | While the speed is below the bound, one step keeps an axis in flight. An axis found at or past an edge is strictly inside after the step, so with exact addition the ball does not stick. |
| Motion.AxisStepNKeepsInFlight | src/main.rs:47-54 | Any number of steps keep an axis in flight and keep its speed. |
| Motion.MoveNKeepsContained | src/main.rs:47-54 | A contained ball stays contained for any number of moves. Its speeds never change. Its position stays within one step of the area. |
| Motion.StuckAxisOscillates | src/main.rs:49-54 | An axis at or below 0 whose step keeps it at or below 0, or at or above the far bound whose step keeps it there, is reflected on every update. It returns to its exact state every two updates. |
| FpsSampler.Increment | src/main.rs:55 | `frames += 1` on a u8 succeeds exactly when the sum is below 256, and then yields the sum. |
| FpsSampler.Tick | src/main.rs:55-62 | The counter tick fails only on overflow (counter 255). It refreshes exactly when the incremented counter is at least 60. A refresh resets the counter to 0 and installs the reading in the label. Otherwise the counter goes up by one and the label is unchanged. |
| FpsSampler.TickKeepsValid | src/main.rs:55-57 | From a counter in [0, 60), the increment cannot overflow and the counter stays in [0, 60). The new counter is (c + 1) mod 60. The refresh happens exactly when the counter was 59. |
| Game.Run | src/main.rs:46-64 | n updates in sequence, one reading each, as the host loop calls `update` once per frame. No updates leave the state unchanged. The run succeeds exactly when it is empty or the starting counter is below 255: only the first update can fail, since any later one starts from a counter below 60. It yields one refresh flag per update, the first being that of the first update. |
| Game.NewBall | src/main.rs:32-35 | The starting ball is at (10, 10) with each velocity component in [-10, 10). It is contained: in flight on both axes with speeds below the bounds. |
| Game.New | src/main.rs:31-39 | The constructed state holds the starting ball, a counter of 0 and the placeholder label, so it satisfies the counter invariant. |
| Game.Update | src/main.rs:46-64 | An update fails only on counter overflow. The new ball is one ball move of the old ball, whatever the counter and label are. The counter, label and refresh flag are the counter tick of the old counter, label and reading, whatever the ball is. |
| Game.UpdateKeepsValid | src/main.rs:55-62 | From a valid state an update never fails and the new state is valid. It refreshes exactly when the pre-step counter is 59. The post-step counter is then 0 and the label holds the reading. Otherwise the counter goes up by one and the label is unchanged. |
| Game.UpdateIndependent | src/main.rs:46-62 | The x axis, the y axis and the counter/label part of an update each depend only on their own inputs. |
| Game.RunCounter | src/main.rs:55-57 | n updates from a valid state with counter c never fail. The state stays valid, the counter ends at (c + n) mod 60, and the ball has made n moves. |
| Game.RunRefreshes | src/main.rs:55-62 | In a run from counter c, update i refreshes the label exactly when c + i + 1 is a multiple of 60. |
| Game.RunRefreshCount | src/main.rs:55-62 | A run of n updates from counter c refreshes the label (c + n) div 60 times. |
| Game.RunLabel | src/main.rs:56-61 | After a run, the label holds the reading of the latest refresh, which happened on update 60 k - c - 1, where k = (c + n) div 60 is the number of refreshes. With no refresh (k = 0) it is unchanged. |
| Game.FromStartSchedule | src/main.rs:38-62 | From the constructor, n updates leave the counter at n mod 60. They perform exactly n div 60 refreshes, one on every 60th update. |
| Game.FromStartLabel | src/main.rs:30-61 | From the constructor, the label shows the placeholder for the first 59 updates. After that it shows the reading taken on the latest update whose number is a multiple of 60. |
| Game.FromStartContained | src/main.rs:31-54 | From the constructor, the ball keeps its speed on both axes through any number of updates. It stays inside (-10, 810) x (-10, 610). |
| Game.ThreeStepScenario | src/main.rs:47-51 | From (10, 10) with velocity (-5, 0), three updates end at (5, 10) with velocity (5, 0). |

## Left out

- Font and `Text` construction (src/main.rs:29-30, 60) and the errors they can return: foreign library calls. A refresh is modelled as installing the reading in the label.
- `ggez::timer::get_fps` and the `"{:.1} FPS"` formatting (src/main.rs:59): an external timer and float-to-string formatting. The reading is an opaque input of each update.
- `rand::random` (src/main.rs:33, 35): the two samples are parameters of `Game.NewBall`.
- The `draw` method (src/main.rs:66-82): rendering calls, colours and the label's anchor arithmetic.
- `main` (src/main.rs:93-103): window configuration, context loading and the host-owned event loop. The loop appears only as `Game.Run`, one update per reading.
- The unused `_dt: Duration` parameter of `update` (src/main.rs:46).
- Motion.AxisStep: IEEE f32 rounding of `+=` is not modelled; positions and velocities are exact reals.
- Motion.MoveNKeepsContained: holds for exact addition only. In f32, p + v can round to v for a tiny p > 0 (1e-10 + -5.0 gives -5.0), so an axis can land exactly one step out and then alternate between 0 and -5 forever. Whether a run from the constructor can reach such a state is not established.
- Motion.AxisStepKeepsInFlight: the same exact-addition assumption as `Motion.MoveNKeepsContained`; under f32 rounding the step back inside is not guaranteed.
- Motion.AxisStepNKeepsInFlight: the same exact-addition assumption as `Motion.MoveNKeepsContained`.
- Game.FromStartContained: rests on `Motion.MoveNKeepsContained` and so holds for exact addition only; under f32 rounding the ball can stick one step out.
- Motion.StuckAxisOscillates: the exact 2-cycle needs (p + v) - v == p, which f32 rounding does not guarantee; with rounding the axis still reflects on every update but need not return to the same bits.
- FpsSampler.Increment: models the debug-build overflow panic as an error value. The wrapping of a release build is not modelled; from valid states neither can occur.
