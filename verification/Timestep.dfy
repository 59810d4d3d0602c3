/** The fixed timestep of Game::updateThread (Host/game.cpp), in the whole microseconds the timer reports. */
module Timestep {
  import opened Host
  import opened Runs

  const TIMESTEP_US := 3000

  function Sum(naps: seq<nat>): nat {
    if naps == [] then 0 else Sum(naps[..|naps| - 1]) + naps[|naps| - 1]
  }

  /** The number of ticks due once `elapsed` microseconds have been measured. */
  function TicksDue(elapsed: nat): nat {
    if elapsed == 0 then 0 else (elapsed - 1) / 3000
  }

  /** The accumulator together with the ticks spent determines both. */
  lemma DueFromAccumulator(elapsed: nat, ticks: nat, accumulator: nat)
    requires elapsed == TIMESTEP_US * ticks + accumulator && accumulator <= TIMESTEP_US
    requires ticks > 0 ==> accumulator > 0
    ensures ticks == TicksDue(elapsed)
  {}

  /** One tick, recorded as the next event of a run. */
  method TickRun(game: Game, ghost past: seq<Event>) returns (ghost e: Event)
    requires game.ground.borders != []
    requires var g := Setting(game.m, game.ground);
             RunOk(g, past) && After(g, past) == game.Now()
    modifies game
    ensures e.Advance?
    ensures var g := Setting(game.m, game.ground);
            RunOk(g, past + [e]) && After(g, past + [e]) == game.Now()
  {
    var order;
    ghost var outcomes;
    order, outcomes := game.Tick();
    e := Advance(order, outcomes);
    assert (past + [e])[..|past|] == past;
    hide TickOk, Ticked;
  }

  /** The loop, woken with the measured durations `naps`. The tick count depends only on their sum; the game
      afterwards is in the state reached by that many ticks. */
  method UpdateThread(game: Game, naps: seq<nat>, ghost past: seq<Event>)
    returns (ticks: nat, accumulator: nat, ghost future: seq<Event>)
    requires game.ground.borders != []
    requires var g := Setting(game.m, game.ground);
             RunOk(g, past) && After(g, past) == game.Now()
    modifies game
    ensures ticks == TicksDue(Sum(naps))
    ensures Sum(naps) == 3000 * ticks + accumulator && accumulator <= 3000
    ensures |future| == ticks && forall i :: 0 <= i < ticks ==> future[i].Advance?
    ensures var g := Setting(game.m, game.ground);
            RunOk(g, past + future) && After(g, past + future) == game.Now()
  {
    hide RunOk, After;
    ghost var g := Setting(game.m, game.ground);
    ticks, accumulator, future := 0, 0, [];
    assert past + future == past;
    var n := 0;
    while n < |naps|
      invariant 0 <= n <= |naps| && accumulator <= TIMESTEP_US
      invariant Sum(naps[..n]) == TIMESTEP_US * ticks + accumulator
      invariant ticks > 0 ==> accumulator > 0
      invariant |future| == ticks && forall i :: 0 <= i < ticks ==> future[i].Advance?
      invariant RunOk(g, past + future) && After(g, past + future) == game.Now()
    {
      accumulator := accumulator + naps[n];
      assert naps[..n + 1][..n] == naps[..n];
      while accumulator > TIMESTEP_US
        invariant Sum(naps[..n + 1]) == TIMESTEP_US * ticks + accumulator
        invariant ticks > 0 ==> accumulator > 0
        invariant |future| == ticks && forall i :: 0 <= i < ticks ==> future[i].Advance?
        invariant RunOk(g, past + future) && After(g, past + future) == game.Now()
        decreases accumulator
      {
        ghost var e := TickRun(game, past + future);
        assert past + (future + [e]) == past + future + [e];
        future := future + [e];
        accumulator := accumulator - TIMESTEP_US;
        ticks := ticks + 1;
      }
      n := n + 1;
    }
    assert naps[..n] == naps;
    DueFromAccumulator(Sum(naps), ticks, accumulator);
  }
}
