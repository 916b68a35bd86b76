/**
 * The win/loss streak state machine shared by the training-table builder
 * and the live predictor: a positive value counts consecutive wins, a
 * negative value consecutive losses, 0 means no game yet.
 */
module Streaks {

  /** One game: a win extends a winning run or starts one at 1; a loss likewise downwards. */
  function StreakStep(cur: int, win: bool): (next: int)
    ensures win ==> next >= 1 && (cur > 0 ==> next == cur + 1)
    ensures !win ==> next <= -1 && (cur < 0 ==> next == cur - 1)
    ensures (win && cur <= 0) || (!win && cur >= 0) ==> next == (if win then 1 else -1)
  {
    if win then (if cur > 0 then cur + 1 else 1)
    else (if cur < 0 then cur - 1 else -1)
  }

  /** The streak after a sequence of results, starting from 0. */
  function StreakAfter(results: seq<bool>): int
  {
    if |results| == 0 then 0
    else StreakStep(StreakAfter(results[..|results| - 1]), results[|results| - 1])
  }

  /** Length of the run of equal results at the end of the sequence. */
  function TrailingRun(results: seq<bool>): (n: nat)
    ensures n <= |results| && (|results| > 0 ==> n >= 1)
  {
    if |results| == 0 then 0
    else if |results| == 1 || results[|results| - 2] != results[|results| - 1] then 1
    else TrailingRun(results[..|results| - 1]) + 1
  }

  /**
   * Independent description of the streak: its sign is the last result and
   * its size the length of the final run of equal results.
   */
  lemma {:induction false} StreakIsSignedRun(results: seq<bool>)
    ensures StreakAfter(results) ==
      (if |results| == 0 then 0
       else if results[|results| - 1] then TrailingRun(results) as int
       else -(TrailingRun(results) as int))
  {
    if |results| > 1 {
      var init := results[..|results| - 1];
      StreakIsSignedRun(init);
      assert init[|init| - 1] == results[|results| - 2];
    }
  }

  /** The streak of every prefix: `Before_Game_Streak` of each game of a group. */
  function StreakSeries(results: seq<bool>): (r: seq<int>)
    ensures |r| == |results|
  {
    seq(|results|, k requires 0 <= k < |results| => StreakAfter(results[..k]))
  }

  /**
   * The loop's own order: each game is given the streak before it, then
   * moves the streak on by its result; the first game of a group gets 0.
   */
  lemma StreakSeriesRecurrence(results: seq<bool>)
    ensures |results| > 0 ==> StreakSeries(results)[0] == 0
    ensures forall k :: 0 <= k < |results| - 1 ==>
      StreakSeries(results)[k + 1] == StreakStep(StreakSeries(results)[k], results[k])
  {
    forall k | 0 <= k < |results| - 1
      ensures StreakSeries(results)[k + 1] == StreakStep(StreakSeries(results)[k], results[k])
    {
      assert results[..k + 1][..k] == results[..k];
    }
  }
}
