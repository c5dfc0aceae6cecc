/**
 * The stopwatch screen's state holder: running flag, elapsed time, laps
 * (newest first), and the start instant and accumulated total it computes the
 * elapsed time from. Commands to the stopwatch service are kept in `sent`.
 * Its ticker loop runs exactly while the stopwatch runs; each pass is a
 * `Tick` at the clock reading `now`.
 */
module Stopwatch {
  import opened Common
  import opened Intents
  import opened StopwatchFormat
  import opened StopwatchForeground

  function StartCommand(startTime: int, accumulated: int): Intent {
    Put(Put(WithAction(StopwatchServiceComponent, StopwatchForeground.ACTION_START), EXTRA_START_TIME, LongExtra(startTime)),
      EXTRA_ACCUMULATED, LongExtra(accumulated))
  }

  function PauseCommand(accumulated: int): Intent {
    Put(WithAction(StopwatchServiceComponent, ACTION_PAUSE), EXTRA_ACCUMULATED, LongExtra(accumulated))
  }

  const STOP_COMMAND: Intent := WithAction(StopwatchServiceComponent, StopwatchForeground.ACTION_STOP)

  /** The service reads back the start instant and the total the screen sent, so both count alike. */
  lemma ServiceCountsLikeScreen(startTime: int, accumulated: int, now: int)
    ensures var c := StartCommand(startTime, accumulated);
      && GetLongExtra(c, EXTRA_START_TIME, now) == startTime
      && GetLongExtra(c, EXTRA_ACCUMULATED, 0) == accumulated
      && c.action == Some(StopwatchForeground.ACTION_START)
  {
  }

  /**
   * The time the stopwatch runs over a sequence of start/pause presses, from
   * the running flag and start instant before the first press: each press
   * that pauses adds the stretch since the press that started it.
   */
  function RunningStretches(running: bool, start: int, presses: seq<int>): int
    decreases |presses|
  {
    if presses == [] then 0
    else if running then (presses[0] - start) + RunningStretches(false, start, presses[1..])
    else RunningStretches(true, presses[0], presses[1..])
  }

  /** With a clock that does not go back, the stretches add up to a non-negative time. */
  lemma {:induction false} RunningStretchesNonNegative(running: bool, start: int, presses: seq<int>)
    requires forall i, j :: 0 <= i < j < |presses| ==> presses[i] <= presses[j]
    requires running && presses != [] ==> start <= presses[0]
    ensures RunningStretches(running, start, presses) >= 0
    decreases |presses|
  {
    if presses != [] {
      var rest := presses[1..];
      assert forall i, j :: 0 <= i < j < |rest| ==> rest[i] <= rest[j] by {
        forall i, j | 0 <= i < j < |rest|
          ensures rest[i] <= rest[j]
        {
          assert rest[i] == presses[i + 1] && rest[j] == presses[j + 1];
        }
      }
      if !running && rest != [] {
        assert rest[0] == presses[1];
      }
      RunningStretchesNonNegative(!running, if running then start else presses[0], rest);
    }
  }

  class StopwatchViewModel {
    var elapsedMillis: int
    var isRunning: bool
    var laps: seq<int>
    var startTime: int
    var accumulatedTime: int
    var sent: seq<Intent>

    /** While stopped, the display shows exactly the accumulated total. */
    predicate Valid()
      reads this
    {
      !isRunning ==> elapsedMillis == accumulatedTime
    }

    constructor()
      ensures Valid() && elapsedMillis == 0 && !isRunning && laps == [] && startTime == 0 && accumulatedTime == 0
      ensures sent == []
    {
      elapsedMillis, isRunning, laps := 0, false, [];
      startTime, accumulatedTime := 0, 0;
      sent := [];
    }

    method Start(now: int)
      requires Valid()
      modifies this
      ensures Valid() && isRunning && startTime == now
      ensures sent == old(sent) + [StartCommand(now, accumulatedTime)]
      ensures elapsedMillis == old(elapsedMillis) && laps == old(laps) && accumulatedTime == old(accumulatedTime)
    {
      isRunning := true;
      startTime := now;
      sent := sent + [StartCommand(startTime, accumulatedTime)];
    }

    /** The current stretch is added to the total, which the display and the service then show. */
    method Pause(now: int)
      modifies this
      ensures Valid() && !isRunning
      ensures accumulatedTime == old(accumulatedTime) + (now - old(startTime)) && elapsedMillis == accumulatedTime
      ensures sent == old(sent) + [PauseCommand(accumulatedTime)]
      ensures laps == old(laps) && startTime == old(startTime)
    {
      isRunning := false;
      accumulatedTime := accumulatedTime + (now - startTime);
      elapsedMillis := accumulatedTime;
      sent := sent + [PauseCommand(accumulatedTime)];
    }

    /** The start/pause button flips the running flag. */
    method ToggleStartPause(now: int)
      requires Valid()
      modifies this
      ensures Valid() && isRunning == !old(isRunning) && laps == old(laps)
      ensures old(isRunning) ==>
        && accumulatedTime == old(accumulatedTime) + (now - old(startTime)) && elapsedMillis == accumulatedTime
        && startTime == old(startTime) && sent == old(sent) + [PauseCommand(accumulatedTime)]
      ensures !old(isRunning) ==>
        && startTime == now && accumulatedTime == old(accumulatedTime) && elapsedMillis == old(elapsedMillis)
        && sent == old(sent) + [StartCommand(now, accumulatedTime)]
    {
      if isRunning {
        Pause(now);
      } else {
        Start(now);
      }
    }

    /** While running, record the displayed time as the newest lap; while stopped, reset everything. */
    method LapOrReset()
      requires Valid()
      modifies this
      ensures Valid() && isRunning == old(isRunning)
      ensures old(isRunning) ==>
        && laps == [old(elapsedMillis)] + old(laps) && elapsedMillis == old(elapsedMillis)
        && accumulatedTime == old(accumulatedTime) && startTime == old(startTime) && sent == old(sent)
      ensures !old(isRunning) ==>
        && elapsedMillis == 0 && accumulatedTime == 0 && startTime == 0 && laps == []
        && sent == old(sent) + [STOP_COMMAND]
    {
      if isRunning {
        laps := [elapsedMillis] + laps;
      } else {
        isRunning := false;
        elapsedMillis := 0;
        accumulatedTime := 0;
        startTime := 0;
        laps := [];
        sent := sent + [STOP_COMMAND];
      }
    }

    /** One pass of the ticker loop while running. */
    method Tick(now: int)
      requires Valid()
      modifies this
      ensures Valid()
      ensures elapsedMillis == if isRunning then ElapsedAt(startTime, accumulatedTime, now) else old(elapsedMillis)
      ensures isRunning == old(isRunning) && laps == old(laps) && startTime == old(startTime)
      ensures accumulatedTime == old(accumulatedTime) && sent == old(sent)
    {
      if isRunning {
        elapsedMillis := ElapsedAt(startTime, accumulatedTime, now);
      }
    }

    /**
     * Start/pause presses at successive clock readings: with a clock that
     * does not go back, the accumulated total never decreases, and it grows by
     * exactly the running stretches.
     */
    method PressStartPause(presses: seq<int>)
      requires Valid()
      requires forall i, j :: 0 <= i < j < |presses| ==> presses[i] <= presses[j]
      requires isRunning && presses != [] ==> startTime <= presses[0]
      modifies this
      ensures Valid() && accumulatedTime >= old(accumulatedTime) && laps == old(laps)
      ensures accumulatedTime == old(accumulatedTime) + RunningStretches(old(isRunning), old(startTime), presses)
      ensures isRunning == (old(isRunning) != (|presses| % 2 == 1))
      ensures isRunning && presses != [] ==> startTime == presses[|presses| - 1]
    {
      var k := 0;
      assert presses[k..] == presses;
      while k < |presses|
        invariant 0 <= k <= |presses|
        invariant Valid() && laps == old(laps)
        invariant accumulatedTime + RunningStretches(isRunning, startTime, presses[k..])
          == old(accumulatedTime) + RunningStretches(old(isRunning), old(startTime), presses)
        invariant isRunning == (old(isRunning) != (k % 2 == 1))
        invariant isRunning && k < |presses| ==> startTime <= presses[k]
        invariant isRunning && k > 0 ==> startTime == presses[k - 1]
      {
        assert presses[k..][0] == presses[k] && presses[k..][1..] == presses[k + 1..];
        ToggleStartPause(presses[k]);
        k := k + 1;
      }
      assert presses[k..] == [];
      RunningStretchesNonNegative(old(isRunning), old(startTime), presses);
    }
  }
}
