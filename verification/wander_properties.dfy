/** Properties of the wander controller: what a single tick guarantees, the
    invariants every tick keeps, how a whole move plays out over consecutive
    ticks, and what happens when a move is drawn with no ticks at all. */
module WanderProperties {
  import opened Directions
  import opened Wander

  /** `n` ticks on which the game's own update was suppressed. */
  function Suppressed(n: nat): (r: seq<bool>)
    ensures |r| == n
    ensures forall i :: 0 <= i < n ==> !r[i]
  {
    seq(n, _ => false)
  }

  /** Nothing stops the horse on this tick: the guards let it through, nobody
      rides it and its next step is clear. */
  predicate Free(cfg: Config, obs: Observation)
  {
    Engaged(cfg, obs) && !obs.ridden && !obs.colliding
  }

  predicate AllFree(cfg: Config, ins: seq<Input>)
  {
    forall i :: 0 <= i < |ins| ==> Free(cfg, ins[i].obs)
  }

  // ---------------------------------------------------------------------
  // One tick
  // ---------------------------------------------------------------------

  /** An idle horse whose roll fails is left exactly as it was, and the
      game's update runs. (A ridden idle horse is reset, which changes nothing
      when its count is already zero.) */
  lemma IdleRollFails(cfg: Config, s: WanderState, obs: Observation, dr: Draws)
    requires ValidDraws(cfg, dr)
    requires !s.wandering && dr.roll >= cfg.chance
    requires !obs.ridden || s.ticks == 0
    ensures BeforeUpdate(cfg, s, obs, dr) == Tick(s, true, [])
  {
  }

  /** The direction only changes on a tick where a new move is rolled, which
      needs an idle horse that passed every guard. */
  lemma DirectionChangesOnlyOnRoll(cfg: Config, s: WanderState, obs: Observation, dr: Draws)
    requires ValidDraws(cfg, dr)
    ensures BeforeUpdate(cfg, s, obs, dr).state.dir != s.dir ==>
      Engaged(cfg, obs) && !obs.ridden && Rolls(cfg, s, dr) && !s.wandering
  {
  }

  /** While a move runs, no roll replaces it: the direction stays, and the
      count either stays, drops by one, or is reset to zero. */
  lemma NoRerollWhileWandering(cfg: Config, s: WanderState, obs: Observation, dr: Draws)
    requires ValidDraws(cfg, dr)
    requires s.wandering
    ensures var t := BeforeUpdate(cfg, s, obs, dr);
      && t.state.dir == s.dir
      && (t.state.ticks == s.ticks || t.state.ticks == s.ticks - 1 || t.state.ticks == 0)
  {
  }

  /** A roll that succeeds on an idle horse commits to the drawn direction,
      turns the horse and starts that direction's walk cycle, and walks the
      first step of the move on the same tick. */
  lemma NewMoveStarts(cfg: Config, s: WanderState, obs: Observation, dr: Draws)
    requires ValidDraws(cfg, dr)
    requires Engaged(cfg, obs) && !obs.ridden && Rolls(cfg, s, dr) && cfg.min <= cfg.max
    ensures var t := BeforeUpdate(cfg, s, obs, dr);
      && t.state.dir == FromInt(dr.dir)
      && |t.effects| >= 2
      && t.effects[..2] == [Face(FromInt(dr.dir)), SetAnimation(Animation.WalkFrames(FromInt(dr.dir)))]
      && (!obs.colliding && dr.duration >= 1 ==>
            && t.state.ticks == dr.duration - 1
            && (t.state.wandering <==> dr.duration != 1)
            && (t.runHost <==> dr.duration == 1))
  {
  }

  /** When the duration range is inverted the duration draw fails after the
      direction was stored: the tick changes the direction and nothing else,
      and the game's update runs. */
  lemma InvertedRangeFault(cfg: Config, s: WanderState, obs: Observation, dr: Draws)
    requires ValidDraws(cfg, dr)
    requires Engaged(cfg, obs) && !obs.ridden && Rolls(cfg, s, dr) && cfg.min > cfg.max
    ensures BeforeUpdate(cfg, s, obs, dr) == Tick(s.(dir := FromInt(dr.dir)), true, [])
  {
  }

  /** A collision on a wandering tick (one that is running a move with a count
      that is not negative, including the tick that starts it) ends the move
      at once: the horse is idle with a zero count, the animation is stopped,
      the horse is halted, and the game's update runs on that same tick. */
  lemma CollisionHalts(cfg: Config, s: WanderState, obs: Observation, dr: Draws)
    requires ValidDraws(cfg, dr)
    requires Engaged(cfg, obs) && !obs.ridden && obs.colliding
    requires (s.wandering && s.ticks >= 0)
          || (Rolls(cfg, s, dr) && cfg.min <= cfg.max && dr.duration >= 0)
    ensures var t := BeforeUpdate(cfg, s, obs, dr);
      && !t.state.wandering && t.state.ticks == 0 && t.runHost
      && |t.effects| >= 3
      && t.effects[|t.effects| - 3..] == [StopAnimation, Face(t.state.dir), Halt]
  {
  }

  /** A wandering tick with a clear path walks one step: the count drops by
      exactly one and the direction stays, the horse is made to move only in
      that direction at speed 1 and tries one step; the move ends, stopping the
      animation and halting the horse, and the game's update runs, exactly when
      the count reaches zero. */
  lemma WanderingStep(cfg: Config, s: WanderState, obs: Observation, dr: Draws)
    requires ValidDraws(cfg, dr)
    requires Free(cfg, obs) && s.wandering && s.ticks >= 0
    ensures var t := BeforeUpdate(cfg, s, obs, dr);
      && t.state.ticks == s.ticks - 1
      && t.state.dir == s.dir
      && (t.runHost <==> t.state.ticks == 0)
      && (t.state.wandering <==> t.state.ticks != 0)
      && |t.effects| >= 5
      && t.effects[..5] == [MoveOnly(s.dir), SetSpeed(1), LoopAnimation, AnimateOnce, TryMove]
      && (t.state.ticks == 0 <==> t.effects[5..] == [StopAnimation, Halt])
  {
  }

  /** A rider always wins: whatever the move in progress, a ridden horse that
      passed the guards is idle with a zero count after the tick, and the game's
      update runs. */
  lemma RiderResets(cfg: Config, s: WanderState, obs: Observation, dr: Draws)
    requires ValidDraws(cfg, dr)
    requires Engaged(cfg, obs) && obs.ridden
    ensures var t := BeforeUpdate(cfg, s, obs, dr);
      !t.state.wandering && t.state.ticks == 0 && t.state.dir == s.dir && t.runHost
  {
  }

  // ---------------------------------------------------------------------
  // Invariants
  // ---------------------------------------------------------------------

  /** A pending count means a move is running. */
  predicate PendingMeansWandering(s: WanderState)
  {
    s.ticks > 0 ==> s.wandering
  }

  /** Every tick keeps "a pending count means a move is running", whatever the
      configuration. */
  lemma StepKeepsPendingMeansWandering(cfg: Config, s: WanderState, obs: Observation, dr: Draws)
    requires ValidDraws(cfg, dr) && PendingMeansWandering(s)
    ensures PendingMeansWandering(BeforeUpdate(cfg, s, obs, dr).state)
  {
  }

  /** The state a controller with a positive minimum duration is always in
      between ticks: idle with a zero count, or running a move with at least
      one tick left. */
  predicate Settled(s: WanderState)
  {
    if s.wandering then s.ticks >= 1 else s.ticks == 0
  }

  /** With a positive minimum duration every tick keeps the controller
      settled. */
  lemma StepKeepsSettled(cfg: Config, s: WanderState, obs: Observation, dr: Draws)
    requires ValidDraws(cfg, dr) && cfg.min >= 1 && Settled(s)
    ensures Settled(BeforeUpdate(cfg, s, obs, dr).state)
  {
  }

  /** With a positive minimum duration, a run from a settled state (the initial
      state is one) stays settled after every tick; in particular the count
      never goes negative. */
  lemma {:induction false} RunKeepsSettled(cfg: Config, s: WanderState, ins: seq<Input>)
    requires AllValid(cfg, ins) && cfg.min >= 1 && Settled(s)
    ensures var r := Run(cfg, s, ins);
      forall i :: 0 <= i < |ins| ==> Settled(r.states[i]) && r.states[i].ticks >= 0
    decreases |ins|
  {
    if ins != [] {
      var t := BeforeUpdate(cfg, s, ins[0].obs, ins[0].draws);
      StepKeepsSettled(cfg, s, ins[0].obs, ins[0].draws);
      RunUnfold(cfg, s, ins);
      RunKeepsSettled(cfg, t.state, ins[1..]);
    }
  }

  lemma InitialIsSettled()
    ensures Settled(Initial) && PendingMeansWandering(Initial)
  {
  }

  // ---------------------------------------------------------------------
  // Runs
  // ---------------------------------------------------------------------

  /** A run on a non-empty input is its first tick followed by the run of the
      rest from the state that tick left. */
  lemma RunUnfold(cfg: Config, s: WanderState, ins: seq<Input>)
    requires ins != [] && AllValid(cfg, ins)
    ensures AllValid(cfg, ins[1..])
    ensures var t := BeforeUpdate(cfg, s, ins[0].obs, ins[0].draws);
      var r := Run(cfg, s, ins);
      var rest := Run(cfg, t.state, ins[1..]);
      && r.states[0] == t.state && r.hostRuns[0] == t.runHost && r.final == rest.final
      && (forall i :: 1 <= i < |ins| ==> r.states[i] == rest.states[i - 1])
      && (forall i :: 1 <= i < |ins| ==> r.hostRuns[i] == rest.hostRuns[i - 1])
  {
    forall i | 0 <= i < |ins[1..]|
      ensures ValidDraws(cfg, ins[1..][i].draws)
    {
      assert ins[1..][i] == ins[i + 1];
    }
  }

  lemma TailValidAndFree(cfg: Config, ins: seq<Input>)
    requires ins != [] && AllValid(cfg, ins) && AllFree(cfg, ins)
    ensures AllValid(cfg, ins[1..]) && AllFree(cfg, ins[1..])
  {
    forall i | 0 <= i < |ins[1..]|
      ensures ValidDraws(cfg, ins[1..][i].draws) && Free(cfg, ins[1..][i].obs)
    {
      assert ins[1..][i] == ins[i + 1];
    }
  }

  /** A move with `k >= 1` ticks left and nothing in its way takes exactly `k`
      more ticks: the count drops by one on each, the game's update is
      suppressed on all but the last, and the last leaves the horse idle. */
  lemma {:induction false} WanderRun(cfg: Config, s: WanderState, ins: seq<Input>)
    requires s.wandering && s.ticks >= 1 && |ins| == s.ticks
    requires AllValid(cfg, ins) && AllFree(cfg, ins)
    ensures var r := Run(cfg, s, ins);
      && r.hostRuns == Suppressed(|ins| - 1) + [true]
      && r.final == WanderState(false, 0, s.dir)
      && (forall i :: 0 <= i < |ins| - 1 ==> r.states[i] == WanderState(true, s.ticks - 1 - i, s.dir))
    decreases |ins|
  {
    var t := BeforeUpdate(cfg, s, ins[0].obs, ins[0].draws);
    assert Free(cfg, ins[0].obs);
    WanderingStep(cfg, s, ins[0].obs, ins[0].draws);
    if s.ticks == 1 {
      assert t == Tick(WanderState(false, 0, s.dir), true, t.effects);
      assert ins[1..] == [];
    } else {
      assert t.state == WanderState(true, s.ticks - 1, s.dir) && !t.runHost;
      TailValidAndFree(cfg, ins);
      WanderRun(cfg, t.state, ins[1..]);
      var rest := Run(cfg, t.state, ins[1..]);
      assert Suppressed(|ins| - 1) == [false] + Suppressed(|ins| - 2);
      var r := Run(cfg, s, ins);
      assert r.states == [t.state] + rest.states;
      forall i | 0 <= i < |ins| - 1
        ensures r.states[i] == WanderState(true, s.ticks - 1 - i, s.dir)
      {
        if i > 0 {
          assert r.states[i] == rest.states[i - 1];
        }
      }
    }
  }

  /** A move drawn with duration `d` (at least one, which a positive minimum
      guarantees) on an idle horse with nothing in its way suppresses the game's
      update on exactly `d - 1` consecutive ticks, starting with the tick that
      drew it, then lets it run once and is idle again; its count never goes
      negative meanwhile. */
  lemma {:induction false} BoundedRun(cfg: Config, s: WanderState, ins: seq<Input>)
    requires cfg.min >= 1 && cfg.min <= cfg.max
    requires !s.wandering && ins != [] && ins[0].draws.roll < cfg.chance
    requires |ins| == ins[0].draws.duration
    requires AllValid(cfg, ins) && AllFree(cfg, ins)
    ensures var r := Run(cfg, s, ins);
      && r.hostRuns == Suppressed(|ins| - 1) + [true]
      && r.final == WanderState(false, 0, FromInt(ins[0].draws.dir))
      && (forall i :: 0 <= i < |ins| ==> r.states[i].ticks >= 0)
  {
    var dr := ins[0].draws;
    var t := BeforeUpdate(cfg, s, ins[0].obs, dr);
    assert Free(cfg, ins[0].obs);
    NewMoveStarts(cfg, s, ins[0].obs, dr);
    RunUnfold(cfg, s, ins);
    var r := Run(cfg, s, ins);
    if dr.duration == 1 {
      assert ins[1..] == [];
      assert r.hostRuns == [true];
    } else {
      assert t.state == WanderState(true, dr.duration - 1, FromInt(dr.dir)) && !t.runHost;
      TailValidAndFree(cfg, ins);
      WanderRun(cfg, t.state, ins[1..]);
      var rest := Run(cfg, t.state, ins[1..]);
      assert r.hostRuns == [false] + rest.hostRuns;
      assert Suppressed(|ins| - 1) == [false] + Suppressed(|ins| - 2);
      forall i | 0 <= i < |ins|
        ensures r.states[i].ticks >= 0
      {
        if i == |ins| - 1 {
          assert r.states[i] == rest.final;
        } else if i > 0 {
          assert r.states[i] == rest.states[i - 1];
        }
      }
    }
  }

  /** An idle horse with a zero count whose rolls all fail stays exactly as it
      is, and the game's update runs on every tick, whatever is observed. */
  lemma {:induction false} IdleRunUnchanged(cfg: Config, s: WanderState, ins: seq<Input>)
    requires !s.wandering && s.ticks == 0 && AllValid(cfg, ins)
    requires forall i :: 0 <= i < |ins| ==> ins[i].draws.roll >= cfg.chance
    ensures var r := Run(cfg, s, ins);
      && r.final == s
      && (forall i :: 0 <= i < |ins| ==> r.hostRuns[i] && r.states[i] == s)
    decreases |ins|
  {
    if ins != [] {
      IdleRollFails(cfg, s, ins[0].obs, ins[0].draws);
      assert AllValid(cfg, ins[1..]) && forall i :: 0 <= i < |ins[1..]| ==> ins[1..][i].draws.roll >= cfg.chance by {
        forall i | 0 <= i < |ins[1..]|
          ensures ValidDraws(cfg, ins[1..][i].draws) && ins[1..][i].draws.roll >= cfg.chance
        {
          assert ins[1..][i] == ins[i + 1];
        }
      }
      IdleRunUnchanged(cfg, s, ins[1..]);
      var r := Run(cfg, s, ins);
      var rest := Run(cfg, s, ins[1..]);
      forall i | 0 <= i < |ins|
        ensures r.hostRuns[i] && r.states[i] == s
      {
        if i > 0 {
          assert r.hostRuns[i] == rest.hostRuns[i - 1];
          assert r.states[i] == rest.states[i - 1];
        }
      }
    }
  }

  // ---------------------------------------------------------------------
  // A move drawn with no ticks
  // ---------------------------------------------------------------------

  /** A move running with a negative count: the horse counts as wandering,
      but the move step never advances it and no new move can be rolled. */
  predicate Stranded(s: WanderState)
  {
    s.wandering && s.ticks < 0
  }

  /** When the minimum duration is zero, a move can be drawn with zero ticks:
      its first step takes the count to -1, which is not zero, so the move does
      not end and the game's update is suppressed. */
  lemma ZeroDurationStrands(cfg: Config, s: WanderState, obs: Observation, dr: Draws)
    requires ValidDraws(cfg, dr) && cfg.min <= cfg.max
    requires Free(cfg, obs) && Rolls(cfg, s, dr) && dr.duration == 0
    ensures var t := BeforeUpdate(cfg, s, obs, dr);
      Stranded(t.state) && t.state.ticks == -1 && !t.runHost
  {
  }

  /** A stranded horse is left as it is by every tick in which it is not
      ridden, and the game's update runs. */
  lemma StrandedStays(cfg: Config, s: WanderState, obs: Observation, dr: Draws)
    requires ValidDraws(cfg, dr) && Stranded(s) && !obs.ridden
    ensures BeforeUpdate(cfg, s, obs, dr) == Tick(s, true, [])
  {
  }

  /** A stranded horse stays stranded for as long as nobody rides it. */
  lemma {:induction false} StrandedRun(cfg: Config, s: WanderState, ins: seq<Input>)
    requires AllValid(cfg, ins) && Stranded(s)
    requires forall i :: 0 <= i < |ins| ==> !ins[i].obs.ridden
    ensures var r := Run(cfg, s, ins);
      r.final == s && forall i :: 0 <= i < |ins| ==> r.hostRuns[i]
    decreases |ins|
  {
    if ins != [] {
      StrandedStays(cfg, s, ins[0].obs, ins[0].draws);
      assert AllValid(cfg, ins[1..]) && forall i :: 0 <= i < |ins[1..]| ==> !ins[1..][i].obs.ridden by {
        forall i | 0 <= i < |ins[1..]|
          ensures ValidDraws(cfg, ins[1..][i].draws) && !ins[1..][i].obs.ridden
        {
          assert ins[1..][i] == ins[i + 1];
        }
      }
      StrandedRun(cfg, s, ins[1..]);
      var r := Run(cfg, s, ins);
      var rest := Run(cfg, s, ins[1..]);
      forall i | 0 <= i < |ins|
        ensures r.hostRuns[i]
      {
        if i > 0 {
          assert r.hostRuns[i] == rest.hostRuns[i - 1];
        }
      }
    }
  }

  /** With a positive minimum duration no reachable state is stranded. */
  lemma SettledIsNeverStranded(s: WanderState)
    requires Settled(s)
    ensures !Stranded(s)
  {
  }
}
