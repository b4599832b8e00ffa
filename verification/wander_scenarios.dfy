/** Worked scenarios for the wander controller, each stated for every sequence
    of random draws the game could produce. */
module WanderScenarios {
  import opened Directions
  import opened Wander
  import opened WanderProperties

  /** A horse that always wants to move, for exactly five ticks, anywhere and
      in any weather. */
  const Eager := Config(1.0, 5, 6, true, true)

  /** An eager horse walks one whole move: from the initial state with nothing
      in the way, the first tick starts a five-tick move; the game's update is
      suppressed on ticks one to four and runs on tick five, when the horse is
      idle again. */
  lemma {:induction false} ScenarioEagerMove(ins: seq<Input>)
    requires |ins| == 5 && AllValid(Eager, ins) && AllFree(Eager, ins)
    ensures var r := Run(Eager, Initial, ins);
      && r.hostRuns == [false, false, false, false, true]
      && r.states[0] == WanderState(true, 4, FromInt(ins[0].draws.dir))
      && !r.final.wandering && r.final.ticks == 0
  {
    assert ValidDraws(Eager, ins[0].draws);
    BoundedRun(Eager, Initial, ins);
    RunUnfold(Eager, Initial, ins);
    assert Suppressed(4) + [true] == [false, false, false, false, true];
  }

  /** A move that bumps into something: the same move hits something on its
      second tick; that tick ends the move and lets the game's update run. */
  lemma {:induction false} ScenarioBumpOnSecondTick(ins: seq<Input>)
    requires |ins| == 2 && AllValid(Eager, ins)
    requires Free(Eager, ins[0].obs)
    requires Engaged(Eager, ins[1].obs) && !ins[1].obs.ridden && ins[1].obs.colliding
    ensures var r := Run(Eager, Initial, ins);
      && r.hostRuns == [false, true]
      && !r.final.wandering && r.final.ticks == 0
  {
    var t := BeforeUpdate(Eager, Initial, ins[0].obs, ins[0].draws);
    NewMoveStarts(Eager, Initial, ins[0].obs, ins[0].draws);
    assert t.state.wandering && t.state.ticks == 4 && !t.runHost;
    RunUnfold(Eager, Initial, ins);
    CollisionHalts(Eager, t.state, ins[1].obs, ins[1].draws);
    RunUnfold(Eager, t.state, ins[1..]);
  }

  /** A horse with no chance of moving never leaves the initial state, and the
      game's update runs on every tick, whatever happens. */
  lemma ScenarioNeverMoves(cfg: Config, ins: seq<Input>)
    requires cfg.chance == 0.0 && AllValid(cfg, ins)
    ensures var r := Run(cfg, Initial, ins);
      r.final == Initial && forall i :: 0 <= i < |ins| ==> r.hostRuns[i]
  {
    forall i | 0 <= i < |ins|
      ensures ins[i].draws.roll >= cfg.chance
    {
      assert ValidDraws(cfg, ins[i].draws);
    }
    IdleRunUnchanged(cfg, Initial, ins);
  }

  /** Mounting ends a move: a horse three ticks into a move is mounted; the
      next tick stops the move and lets the game's update run. */
  lemma ScenarioMountedMidMove(cfg: Config, d: Direction, obs: Observation, dr: Draws)
    requires ValidDraws(cfg, dr) && Engaged(cfg, obs) && obs.ridden
    ensures BeforeUpdate(cfg, WanderState(true, 3, d), obs, dr)
      == Tick(WanderState(false, 0, d), true, [])
  {
  }
}
