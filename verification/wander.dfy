/** The horse's wander controller: a pre-update hook run once per game tick
    that either lets the game's own horse update run (`runHost`) or suppresses
    it because the controller is walking the horse itself.

    The controller's static fields become an explicit `WanderState` threaded
    through the ticks; everything it asks the game (is the horse on the farm,
    is it raining, is it ridden, would the next step collide) becomes an
    `Observation`; the three random draws become `Draws`; and the calls it
    makes on the horse become a list of `Effect`s. */
module Wander {
  import opened Directions
  import Animation

  /** The configuration read once at start-up: chance per tick of starting a
      move, the duration range in ticks, and whether the horse may wander off
      the farm and in the rain. */
  datatype Config = Config(chance: real, min: int, max: int, offFarm: bool, inRain: bool)

  /** Whether a move is in progress, the ticks it has left, and its direction. */
  datatype WanderState = WanderState(wandering: bool, ticks: int, dir: Direction)

  /** The state before the first tick. */
  const Initial := WanderState(false, 0, Up)

  /** What the game reports on one tick. */
  datatype Observation = Observation(
    present: bool,   // the hook received a horse
    onFarm: bool,    // the horse's location is the farm
    raining: bool,   // it is raining
    ridden: bool,    // the horse has a rider
    colliding: bool) // one step in its direction would hit something

  /** The random draws of one tick: the roll against the chance, the direction
      number and the duration. The last two are only consumed when a move
      starts. */
  datatype Draws = Draws(roll: real, dir: int, duration: int)

  /** The calls the controller makes on the horse. */
  datatype Effect =
    | Face(d: Direction)
    | SetAnimation(frames: seq<Animation.Frame>)
    | StopAnimation
    | Halt
    | MoveOnly(d: Direction)
    | SetSpeed(speed: int)
    | LoopAnimation
    | AnimateOnce
    | TryMove

  /** The outcome of one tick: the new state, whether the game's own update
      runs, and the calls made on the horse in order. */
  datatype Tick = Tick(state: WanderState, runHost: bool, effects: seq<Effect>)

  /** The values the game's random source can produce for a duration draw
      between `min` (inclusive) and `max` (exclusive). When the bounds are equal
      the draw returns `min`; when `min` exceeds `max` the draw fails instead
      of returning, so the value is never used. */
  predicate DurationDrawable(cfg: Config, n: int)
  {
    if cfg.min < cfg.max then cfg.min <= n < cfg.max
    else if cfg.min == cfg.max then n == cfg.min
    else true
  }

  /** The draws the random source can produce: a roll in [0, 1), a direction
      number in 0..3 and a drawable duration. */
  predicate ValidDraws(cfg: Config, dr: Draws)
  {
    0.0 <= dr.roll < 1.0 && 0 <= dr.dir < 4 && DurationDrawable(cfg, dr.duration)
  }

  /** The guards that come before the rider check all let the tick through:
      there is a horse, it may wander where it is, and the weather allows it. */
  predicate Engaged(cfg: Config, obs: Observation)
  {
    obs.present && (obs.onFarm || cfg.offFarm) && (!obs.raining || cfg.inRain)
  }

  /** A new move is decided: the roll beats the chance and no move is running. */
  predicate Rolls(cfg: Config, s: WanderState, dr: Draws)
  {
    dr.roll < cfg.chance && !s.wandering
  }

  /** The state a new move starts in: wandering, in the drawn direction, for
      the drawn number of ticks. */
  function Start(cfg: Config, dr: Draws): (s: WanderState)
    requires ValidDraws(cfg, dr) && cfg.min <= cfg.max
    ensures s.wandering
    ensures ToInt(s.dir) == dr.dir
    ensures cfg.min <= s.ticks
    ensures cfg.min < cfg.max ==> s.ticks < cfg.max
    ensures cfg.min == cfg.max ==> s.ticks == cfg.min
  {
    WanderState(true, dr.duration, FromInt(dr.dir))
  }

  /** Turning to face a new move's direction and starting its walk cycle. */
  function StartEffects(d: Direction): seq<Effect>
  {
    [Face(d), SetAnimation(Animation.WalkFrames(d))]
  }

  /** The second half of a tick: if a move is running with ticks left to count,
      either stop it on a collision or walk one step and count one tick down,
      ending the move when the count reaches zero. Otherwise nothing happens and
      the game's update runs. */
  function Advance(s: WanderState, colliding: bool): (t: Tick)
    ensures !(s.wandering && s.ticks >= 0) ==> t == Tick(s, true, [])
    ensures t.state.dir == s.dir
    ensures s.wandering && s.ticks >= 0 && colliding ==>
      && t.state == s.(wandering := false, ticks := 0) && t.runHost
      && t.effects == [StopAnimation, Face(s.dir), Halt]
    ensures s.wandering && s.ticks >= 0 && !colliding ==>
      && t.state.ticks == s.ticks - 1
      && (t.runHost <==> t.state.ticks == 0)
      && (t.state.wandering <==> t.state.ticks != 0)
    // a clear step walks only in the move's direction, at speed 1, and the
    // step that completes the move stops the animation and halts the horse
    ensures s.wandering && s.ticks >= 0 && !colliding ==>
      && |t.effects| >= 5
      && t.effects[..5] == [MoveOnly(s.dir), SetSpeed(1), LoopAnimation, AnimateOnce, TryMove]
      && (t.state.ticks == 0 <==> t.effects[5..] == [StopAnimation, Halt])
      && (t.state.ticks != 0 <==> t.effects[5..] == [])
    ensures !t.runHost ==> t.state.wandering && t.state.ticks != 0 && !colliding
  {
    if s.ticks >= 0 && s.wandering then
      if colliding then
        Tick(s.(wandering := false, ticks := 0), true, [StopAnimation, Face(s.dir), Halt])
      else
        var walk := [MoveOnly(s.dir), SetSpeed(1), LoopAnimation, AnimateOnce, TryMove];
        var left := s.ticks - 1;
        if left == 0 then
          Tick(s.(wandering := false, ticks := 0), true, walk + [StopAnimation, Halt])
        else
          Tick(s.(ticks := left), false, walk)
    else
      Tick(s, true, [])
  }

  /** The move step of a tick: a new move may start (only from idle), and then
      the running move, if any, advances. When `min` exceeds `max` the duration
      draw fails after the direction was already stored; the failure is caught
      and the game's update runs. */
  function Move(cfg: Config, s: WanderState, colliding: bool, dr: Draws): (t: Tick)
    requires ValidDraws(cfg, dr)
    // an idle horse whose roll fails is left alone and the game's update runs
    ensures !Rolls(cfg, s, dr) && !s.wandering ==> t == Tick(s, true, [])
    // the direction changes only when a move is rolled, and then to the draw
    ensures t.state.dir != s.dir ==> Rolls(cfg, s, dr)
    ensures Rolls(cfg, s, dr) ==> t.state.dir == FromInt(dr.dir)
    // a running move is never replaced: no turn, no new walk cycle
    ensures s.wandering ==>
      && t.state.dir == s.dir
      && forall i :: 0 <= i < |t.effects| ==> !t.effects[i].SetAnimation?
    ensures s.wandering && s.ticks >= 0 && !colliding ==>
      t.state.ticks == s.ticks - 1 && (t.runHost <==> t.state.ticks == 0)
    ensures s.wandering && s.ticks < 0 ==> t == Tick(s, true, [])
    // a new move turns the horse and starts its walk cycle, then takes its
    // first step on the same tick
    ensures Rolls(cfg, s, dr) && cfg.min <= cfg.max ==>
      |t.effects| >= 2 && t.effects[..2] == StartEffects(FromInt(dr.dir))
    ensures Rolls(cfg, s, dr) && cfg.min <= cfg.max && !colliding && dr.duration >= 1 ==>
      && t.state.ticks == dr.duration - 1
      && (t.state.wandering <==> dr.duration != 1)
      && (t.runHost <==> dr.duration == 1)
    ensures Rolls(cfg, s, dr) && cfg.min <= cfg.max && colliding && dr.duration >= 0 ==>
      !t.state.wandering && t.state.ticks == 0 && t.runHost
    // an inverted duration range fails after the direction was stored
    ensures Rolls(cfg, s, dr) && cfg.min > cfg.max ==>
      t == Tick(s.(dir := FromInt(dr.dir)), true, [])
    ensures !t.runHost ==> t.state.wandering && t.state.ticks != 0 && !colliding
  {
    if Rolls(cfg, s, dr) then
      var d := FromInt(dr.dir);
      if cfg.min > cfg.max then
        Tick(s.(dir := d), true, [])
      else
        var a := Advance(Start(cfg, dr), colliding);
        Tick(a.state, a.runHost, StartEffects(d) + a.effects)
    else
      Advance(s, colliding)
  }

  /** One tick of the hook. A missing horse, a horse off the farm when that is
      not allowed, and rain when that is not allowed each let the game's update
      run and touch nothing; a ridden horse is reset to idle; otherwise the
      move step decides. */
  function BeforeUpdate(cfg: Config, s: WanderState, obs: Observation, dr: Draws): (t: Tick)
    requires ValidDraws(cfg, dr)
    ensures !Engaged(cfg, obs) ==> t == Tick(s, true, [])
    ensures Engaged(cfg, obs) && obs.ridden ==>
      t == Tick(s.(wandering := false, ticks := 0), true, [])
    ensures Engaged(cfg, obs) && !obs.ridden ==> t == Move(cfg, s, obs.colliding, dr)
    ensures !t.runHost ==>
      Engaged(cfg, obs) && !obs.ridden && !obs.colliding
      && t.state.wandering && t.state.ticks != 0
  {
    if !obs.present then Tick(s, true, [])
    else if !obs.onFarm && !cfg.offFarm then Tick(s, true, [])
    else if obs.raining && !cfg.inRain then Tick(s, true, [])
    else if obs.ridden then Tick(s.(wandering := false, ticks := 0), true, [])
    else Move(cfg, s, obs.colliding, dr)
  }

  /** What one tick is given. */
  datatype Input = Input(obs: Observation, draws: Draws)

  /** The states after each tick of a run, whether the game's update ran on
      each tick, and the state the run ends in. */
  datatype Trace = Trace(states: seq<WanderState>, hostRuns: seq<bool>, final: WanderState)

  predicate AllValid(cfg: Config, ins: seq<Input>)
  {
    forall i :: 0 <= i < |ins| ==> ValidDraws(cfg, ins[i].draws)
  }

  /** Running the hook on each input in turn, starting from `s`. */
  function Run(cfg: Config, s: WanderState, ins: seq<Input>): (r: Trace)
    requires AllValid(cfg, ins)
    ensures |r.states| == |r.hostRuns| == |ins|
    ensures r.final == if ins == [] then s else r.states[|ins| - 1]
    decreases |ins|
  {
    if ins == [] then Trace([], [], s)
    else
      var t := BeforeUpdate(cfg, s, ins[0].obs, ins[0].draws);
      var rest := Run(cfg, t.state, ins[1..]);
      Trace([t.state] + rest.states, [t.runHost] + rest.hostRuns, rest.final)
  }
}
