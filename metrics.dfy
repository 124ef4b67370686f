/**
 * The once-a-second bookkeeping of src/scenes/mainScene.ts: the sliding window of
 * kills per second (killCount), the kill counter bump of onEnemyKilled, and the power
 * level onMetrics derives from the number of attached parts.
 */
module Metrics {
  /** The window holds the kills of the last ten whole seconds plus the current one. */
  const WindowSeconds: nat := 10

  function Sum(s: seq<int>): int
  {
    if |s| == 0 then 0 else Sum(s[..|s| - 1]) + s[|s| - 1]
  }

  /**
   * onMetrics' window step: drop the oldest second once more than ten are held, then
   * open a new second with no kills.
   */
  function RollKillWindow(killCount: seq<int>): (r: seq<int>)
    ensures |r| >= 1 && r[|r| - 1] == 0
    ensures |killCount| > WindowSeconds ==> |r| == |killCount|
    ensures |killCount| <= WindowSeconds ==> |r| == |killCount| + 1
    ensures r[..|r| - 1] == killCount[|killCount| - (|r| - 1)..]
  {
    var kept := if |killCount| > WindowSeconds then killCount[1..] else killCount;
    assert kept + [0] == (kept + [0])[..|kept|] + [0];
    kept + [0]
  }

  /** A window of one to eleven seconds stays one, and grows to eleven seconds at most. */
  lemma RollKeepsWindowBounded(killCount: seq<int>)
    requires 1 <= |killCount| <= WindowSeconds + 1
    ensures 2 <= |RollKillWindow(killCount)| <= WindowSeconds + 1
  {
    var n := |RollKillWindow(killCount)|;
    assert n == |killCount| || n == |killCount| + 1;
  }

  /** After n rolls of the initial window [0] it holds min(n + 1, 11) seconds. */
  function RollTimes(killCount: seq<int>, n: nat): seq<int>
  {
    if n == 0 then killCount else RollKillWindow(RollTimes(killCount, n - 1))
  }

  lemma {:induction false} WindowFillsUpToElevenSeconds(n: nat)
    ensures |RollTimes([0], n)| == if n + 1 > WindowSeconds + 1 then WindowSeconds + 1 else n + 1
  {
    if n > 0 {
      WindowFillsUpToElevenSeconds(n - 1);
    }
  }

  /** onEnemyKilled: `killCount[killCount.length - 1]++`. */
  function CountKill(killCount: seq<int>): (r: seq<int>)
    requires |killCount| > 0
    ensures |r| == |killCount| && r[..|r| - 1] == killCount[..|killCount| - 1]
  {
    killCount[..|killCount| - 1] + [killCount[|killCount| - 1] + 1]
  }

  /** A kill adds one to the window's total, which killPerSecond averages. */
  lemma CountKillAddsOne(killCount: seq<int>)
    requires |killCount| > 0
    ensures Sum(CountKill(killCount)) == Sum(killCount) + 1
  {
    var r := CountKill(killCount);
    assert r[..|r| - 1] == killCount[..|killCount| - 1];
  }

  /** `Math.ceil(partCount * 0.7)`, computed exactly on integers. */
  function AllowedEnemiesFor(partCount: nat): (k: nat)
    ensures 10 * k >= 7 * partCount
    ensures 10 * (k - 1) < 7 * partCount
  {
    (7 * partCount + 9) / 10
  }

  /** The ceiling is the least such number: nothing smaller covers 0.7 of the parts. */
  lemma AllowedEnemiesIsLeast(partCount: nat, m: int)
    requires 10 * m >= 7 * partCount
    ensures AllowedEnemiesFor(partCount) <= m
  {
  }

  /** onMetrics: 150 per attached part plus 100 per enemy the attached parts allow. */
  function PowerLevel(partCount: nat): (p: nat)
    ensures 150 * partCount <= p <= 220 * partCount + 90
  {
    partCount * 150 + AllowedEnemiesFor(partCount) * 100
  }

  /** More attached parts never lower the power level, which scales every kill's score. */
  lemma PowerLevelMonotone(m: nat, n: nat)
    requires m <= n
    ensures PowerLevel(m) <= PowerLevel(n)
  {
    assert AllowedEnemiesFor(m) <= AllowedEnemiesFor(n) by {
      AllowedEnemiesIsLeast(m, AllowedEnemiesFor(n));
    }
  }

  /** A ship with no attached part scores nothing for its kills. */
  lemma NoPartNoPower()
    ensures PowerLevel(0) == 0
  {
  }
}
