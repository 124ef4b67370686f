/**
 * The difficulty curve (config.difficultyCurve) and the step updateDifficulty in
 * src/scenes/mainScene.ts takes each time the difficulty timer fires. A wave stage
 * sets the spawning parameters and moves on, arming the timer with the next stage's
 * wait when there is a next stage; the end stage ends the game and arms nothing.
 */
module Difficulty {
  import opened Wrappers

  datatype Stage =
    | Wave(wait: real, allowedEnemies: int, enemyHP: int, enemySpawnInterval: real)
    | Ending(wait: real)

  /** The difficulty index after the timer fired at stage d: waves advance it, the end leaves it. */
  function NextDifficulty(curve: seq<Stage>, d: nat): (n: nat)
    requires d < |curve|
    ensures curve[d].Wave? ==> n == d + 1
    ensures curve[d].Ending? ==> n == d
  {
    if curve[d].Ending? then d else d + 1
  }

  /** The delay the timer is re-armed with after stage d fired, if it is re-armed at all. */
  function NextWait(curve: seq<Stage>, d: nat): (w: Option<real>)
    requires d < |curve|
    ensures w.Some? <==> curve[d].Wave? && d + 1 < |curve|
    ensures w.Some? ==> w.value == curve[d + 1].wait
  {
    if curve[d].Wave? && d + 1 < |curve| then Some(curve[d + 1].wait) else None
  }

  /** The stages the timer fires at, in order, from stage d on. */
  function Firings(curve: seq<Stage>, d: nat): seq<Stage>
    decreases |curve| - d
  {
    if d >= |curve| then []
    else if NextWait(curve, d).Some? then [curve[d]] + Firings(curve, NextDifficulty(curve, d))
    else [curve[d]]
  }

  /** The index just past the first end stage at or after d, or the length of the curve. */
  function StopIndex(curve: seq<Stage>, d: nat): (k: nat)
    requires d <= |curve|
    ensures d <= k <= |curve|
    ensures forall j | d <= j < k - 1 :: curve[j].Wave?
    ensures k < |curve| ==> d < k && curve[k - 1].Ending?
    decreases |curve| - d
  {
    if d == |curve| then d
    else if curve[d].Ending? then d + 1
    else StopIndex(curve, d + 1)
  }

  /** The timer fires at every stage from d up to and including the first end stage, and at no other. */
  lemma {:induction false} FiringsStopAtFirstEnding(curve: seq<Stage>, d: nat)
    requires d < |curve|
    ensures Firings(curve, d) == curve[d..StopIndex(curve, d)]
    decreases |curve| - d
  {
    if curve[d].Wave? && d + 1 < |curve| {
      FiringsStopAtFirstEnding(curve, d + 1);
      assert curve[d..StopIndex(curve, d)] == [curve[d]] + curve[d + 1..StopIndex(curve, d + 1)];
    }
  }

  /** Waves followed by exactly one end stage. */
  predicate WellFormed(curve: seq<Stage>)
  {
    && |curve| > 0
    && curve[|curve| - 1].Ending?
    && forall j | 0 <= j < |curve| - 1 :: curve[j].Wave?
  }

  /** On a well-formed curve every stage fires exactly once, in order, and the last firing ends the game. */
  lemma WellFormedCurveFiresEveryStage(curve: seq<Stage>)
    requires WellFormed(curve)
    ensures Firings(curve, 0) == curve
    ensures Firings(curve, 0)[|curve| - 1].Ending?
  {
    assert StopIndex(curve, 0) == |curve| by {
      StopIndexOfWaves(curve, 0);
    }
    FiringsStopAtFirstEnding(curve, 0);
  }

  lemma {:induction false} StopIndexOfWaves(curve: seq<Stage>, d: nat)
    requires WellFormed(curve) && d < |curve|
    ensures StopIndex(curve, d) == |curve|
    decreases |curve| - d
  {
    if curve[d].Wave? {
      StopIndexOfWaves(curve, d + 1);
    }
  }

  /** A curve without an end stage runs out: the timer fires at every stage and the game is never won. */
  lemma CurveWithoutEndingNeverWins(curve: seq<Stage>)
    requires |curve| > 0
    requires forall j | 0 <= j < |curve| :: curve[j].Wave?
    ensures Firings(curve, 0) == curve
    ensures forall s <- Firings(curve, 0) :: s.Wave?
  {
    assert StopIndex(curve, 0) == |curve| by {
      StopIndexOfEndlessCurve(curve, 0);
    }
    FiringsStopAtFirstEnding(curve, 0);
    assert curve[0..|curve|] == curve;
  }

  lemma {:induction false} StopIndexOfEndlessCurve(curve: seq<Stage>, d: nat)
    requires d <= |curve|
    requires forall j | 0 <= j < |curve| :: curve[j].Wave?
    ensures StopIndex(curve, d) == |curve|
    decreases |curve| - d
  {
    if d < |curve| {
      StopIndexOfEndlessCurve(curve, d + 1);
    }
  }
}
