# Horse wander controller

A Dafny model of the wander controller of the HorseMove mod for Stardew Valley.
The controller is a hook that runs before the game's own per-tick horse update.
On every tick it decides one of two things. It can let the game's update run
(`true`). Or it can suppress that update (`false`) because it is walking the
horse itself. It keeps a small state: whether a move is in progress, how many
ticks the move has left, and the move's direction.

The model makes every tick a pure function:

- `Wander.BeforeUpdate(cfg, state, obs, draws)` returns a `Tick`. A `Tick` holds
  the new state, whether the game's update runs, and the calls made on the
  horse, in order.
- The static fields of the controller become an explicit `WanderState`.
- What the controller asks the game becomes an `Observation`: horse present,
  on the farm, raining, ridden, next step colliding.
- The three random draws become `Draws`: the roll, the direction number and the
  duration. Their ranges are stated by `ValidDraws`.
- `Wander.Run` threads the state through a sequence of hook calls.

The state lives in static fields (HorseMove/HorsePatches.cs:18-20), so every
horse shares one `WanderState`. The hook runs on every horse's update. With
several horses, each game tick makes one hook call per horse on the same
state, and a rider on any horse resets the move of all of them. A "tick" of
the model, and every tick counted by the lemmas about runs, is therefore one
hook call for whichever horse it is made for, not one game tick.

Modules:

- `Directions` (directions.dfy): the `Direction` enum and its numbering.
- `Animation` (animation.dfy): the six-frame walk cycle per direction and the
  footstep sound per tile type.
- `Wander` (wander.dfy): configuration, state, one tick, a run of ticks.
- `WanderProperties` (wander_properties.dfy): single-tick guarantees,
  invariants, whole moves over several ticks, and moves drawn with no ticks.
- `WanderScenarios` (wander_scenarios.dfy): four worked scenarios, each proved
  for every sequence of draws.

Modelling choices:

- Duration draw. The game's random source returns a value in `[min, max)` when
  `min < max`. It returns exactly `min` when `min == max`. It throws when
  `min > max`. The throw happens after the direction was already stored
  (HorseMove/HorsePatches.cs:81-82). The catch block then returns `true`. So
  such a tick changes the direction and nothing else; `Wander.Move` models this
  path.
- Negative counts. One would expect the tick count never to go negative; the
  code allows it: with a minimum duration of 0, a move drawn with 0 ticks counts down
  to -1. The `>= 0` guard then never lets it advance, and the horse stays
  "wandering" until it is ridden. The model follows the code.
  `ZeroDurationStrands`, `StrandedStays` and `StrandedRun` state this.
  `StepKeepsSettled` and `RunKeepsSettled` show it cannot happen when the
  minimum is at least 1.
- The roll and the chance are `real`s. A comparison of two finite doubles is the
  comparison of the reals they denote.
- The animation is chosen from the horse's facing direction right after it is
  turned to face the move's direction. The model assumes the turn sets the
  facing to that direction, so the walk cycle is `WalkFrames(dir)`.

## Model

| member | source | states |
|---|---|---|
| Directions.ToInt | HorseMove/HorsePatches.cs:208-214 | each direction has a number in 0..3 that casts back to it |
| Directions.FromIntToInt | HorseMove/HorsePatches.cs:81 | casting a drawn number in 0..3 to a direction loses nothing: the direction's number is the draw |
| Animation.WalkFrames | HorseMove/HorsePatches.cs:103-142 | six frames of 70 ms each; Right and Left use sprites 8-13, Up 15-20, Down 1-6; only Left is mirrored; exactly the second to fourth frames play a footstep |
| Animation.LeftMirrorsRight | HorseMove/HorsePatches.cs:103-122 | the Left walk cycle is the Right one drawn mirrored |
| Animation.OnlyLeftIsMirrored | HorseMove/HorsePatches.cs:103-142 | a walk cycle has a mirrored frame exactly when it is the Left one |
| Animation.FootstepSound | HorseMove/HorsePatches.cs:88-100 | the cue is one of three; it is "stoneStep" exactly for a "Stone" tile and "woodyStep" exactly for a "Wood" tile |
| Animation.ThudIsTheDefault | HorseMove/HorsePatches.cs:97-99 | every other tile type, a missing one included, gives "thudStep" |
| Wander.Start | HorseMove/HorsePatches.cs:80-146 | a new move is wandering, in the drawn direction, with a count in [min, max), or min when the bounds are equal |
| Wander.Advance | HorseMove/HorsePatches.cs:148-203 | the direction never changes; with no move running or a negative count nothing happens and the game's update runs; a collision ends the move with count 0, stops the animation, re-faces the move's direction, halts, and the game's update runs; a clear step moves only in the move's direction at speed 1, loops and advances the animation and tries one step, counts down by exactly one, and ends the move (stopping the animation and halting, and running the game's update) exactly when the count hits 0; suppression happens only on a clear step with a move still running |
| Wander.Move | HorseMove/HorsePatches.cs:77-204 | an idle horse whose roll fails is left alone and the game's update runs; the direction changes only on a successful roll, and then to the drawn one; a running move never gets a new direction or walk cycle and counts down by one on a clear step; a successful roll first turns the horse and starts the walk cycle of the drawn direction, and on a clear path leaves duration - 1 ticks, running the game's update only for duration 1, while a collision ends it at once; an inverted duration range changes only the direction and lets the game's update run; the game's update is suppressed only for a running, non-colliding move with ticks left |
| Wander.BeforeUpdate | HorseMove/HorsePatches.cs:42-75 | a missing horse, a forbidden off-farm location and forbidden rain each leave everything unchanged and let the game's update run; a ridden horse is reset to idle with count 0; otherwise the move step decides; the game's update is only suppressed for an unridden, non-colliding horse whose move is still running |
| Wander.Run | HorseMove/HorsePatches.cs:42-68 | one state and one host decision per hook call, and the run ends in the state after the last call |
| WanderProperties.IdleRollFails | HorseMove/HorsePatches.cs:79-203 | an idle horse whose roll fails keeps direction, count and flag, makes no calls, and the game's update runs |
| WanderProperties.DirectionChangesOnlyOnRoll | HorseMove/HorsePatches.cs:79-81 | the direction only changes on a tick that passed every guard, on an idle horse whose roll beat the chance |
| WanderProperties.NoRerollWhileWandering | HorseMove/HorsePatches.cs:79-82 | while a move runs, no tick replaces its direction, and the count only stays, drops by one or resets to 0 |
| WanderProperties.NewMoveStarts | HorseMove/HorsePatches.cs:79-146 | a successful roll on an idle horse takes the drawn direction, first turns the horse and starts that direction's walk cycle, and on a clear path leaves duration - 1 ticks, ending at once and running the game's update only for duration 1 |
| WanderProperties.InvertedRangeFault | HorseMove/HorsePatches.cs:70-82 | with min > max a successful roll stores the direction, the duration draw fails, and the caught failure lets the game's update run with nothing else changed |
| WanderProperties.CollisionHalts | HorseMove/HorsePatches.cs:148-166 | a collision on a wandering tick, the starting tick included, leaves the horse idle with count 0, ends with stop-animation, face, halt, and lets the game's update run on that tick |
| WanderProperties.WanderingStep | HorseMove/HorsePatches.cs:168-200 | a clear wandering tick moves only in the move's direction at speed 1 and tries one step, decrements the count by exactly 1, keeps the direction, and runs the game's update and ends the move, stopping the animation and halting, exactly when the count reaches 0 |
| WanderProperties.RiderResets | HorseMove/HorsePatches.cs:61-66 | a ridden horse past the guards is idle with count 0 whatever move was running, and the game's update runs |
| WanderProperties.StepKeepsPendingMeansWandering | HorseMove/HorsePatches.cs:61-200 | for every configuration, a positive count implies a move is running, before and after every tick |
| WanderProperties.StepKeepsSettled | HorseMove/HorsePatches.cs:79-200 | with min >= 1 every tick keeps the state idle with count 0 or wandering with count >= 1 |
| WanderProperties.RunKeepsSettled | HorseMove/HorsePatches.cs:148-200 | with min >= 1 every state of a run from a settled state is settled, so the count is never negative |
| WanderProperties.InitialIsSettled | HorseMove/HorsePatches.cs:18-20 | the initial state is idle with count 0 |
| WanderProperties.WanderRun | HorseMove/HorsePatches.cs:148-200 | a move with k >= 1 ticks left and nothing in its way counts k-1, k-2, ... down, suppresses the game's update on k-1 ticks, then runs it once and is idle |
| WanderProperties.BoundedRun | HorseMove/HorsePatches.cs:79-200 | with min >= 1, a move drawn with duration d and nothing in its way suppresses the game's update on exactly d-1 consecutive ticks starting with the drawing tick, then lets it run and is idle, its count never negative |
| WanderProperties.IdleRunUnchanged | HorseMove/HorsePatches.cs:79-203 | an idle horse with count 0 whose rolls all fail stays exactly as it is through any run, and the game's update runs on every tick |
| WanderProperties.ZeroDurationStrands | HorseMove/HorsePatches.cs:82-200 | a move drawn with 0 ticks counts down to -1, does not end, and suppresses the game's update |
| WanderProperties.StrandedStays | HorseMove/HorsePatches.cs:148-203 | a wandering horse with a negative count is left unchanged by every unridden tick, which lets the game's update run |
| WanderProperties.StrandedRun | HorseMove/HorsePatches.cs:148-203 | a stranded horse stays stranded through any run in which nobody rides it |
| WanderProperties.SettledIsNeverStranded | HorseMove/HorsePatches.cs:148 | a settled state is never stranded |
| WanderScenarios.ScenarioEagerMove | HorseMove/HorsePatches.cs:79-200 | chance 1, duration range [5, 6): from the initial state the host decisions are false, false, false, false, true and the horse ends idle |
| WanderScenarios.ScenarioBumpOnSecondTick | HorseMove/HorsePatches.cs:148-166 | the same move colliding on its second tick gives host decisions false, true and ends idle with count 0 |
| WanderScenarios.ScenarioNeverMoves | HorseMove/HorsePatches.cs:79 | chance 0: any run from the initial state stays in it and lets the game's update run on every tick |
| WanderScenarios.ScenarioMountedMidMove | HorseMove/HorsePatches.cs:61-66 | a horse three ticks into a move that gets ridden is idle with count 0 after the next tick, which lets the game's update run |

## Left out

- Patch installation and configuration loading (HorseMove/HorsePatches.cs:24-40): the configuration is a plain `Config` record. The mod's `ModConfig` is not part of this model, so the model allows any duration range.
- Game engine calls: facing, the movement-axis setters, speed, looping, animating a frame, trying to move, halting and stopping the animation become `Effect` values. What the engine does with them is not modelled.
- The collision test, the farm test, the weather and the rider test become booleans in `Observation`. The tile "Type" lookup becomes the `Option<string>` passed to `FootstepSound`.
- Playing the footstep sound when a frame is shown is animation-engine behaviour. The model records which frames carry the footstep and which cue a tile gives, but not the playback.
- The random source is not modelled. Its draws are parameters, and `ValidDraws` limits them to what the source can return.
- Floating point: the chance and the roll are `real`s. A NaN or infinite double is not modelled.
- Wander.BeforeUpdate: the only failure modelled is the inverted duration range. Other exceptions can come from the engine, such as a missing location. Those are caught and logged, and the tick returns `true`. Any state changed before such a failure is engine-dependent and is not modelled.
- Logging (HorseMove/HorsePatches.cs:72, 144, 159) has no effect on the state or the decision and is left out.
- Several horses: the model keeps one shared state, as the source does, and does not separate hook calls by horse; a run is a sequence of hook calls, whichever horse each is for.
- Integer width: the count is a 32-bit int in the source. It is decremented only when it is at least 0, so it cannot wrap, and the model uses unbounded integers.
