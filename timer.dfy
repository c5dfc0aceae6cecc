/**
 * The timer screen's state holder: the keypad buffer, the running and paused
 * flags, the end instant and the countdown shown on screen. It also starts and
 * stops the timer's foreground service; those commands are kept in `sent`.
 * Each pass of its ticker loop is a `Tick` at the clock reading `now`.
 */
module Timer {
  import opened Common
  import opened Text
  import opened Intents
  import opened TimerFormat
  import opened TimerForeground

  const MAX_INPUT_LENGTH: nat := 6

  /** `parseInputToSeconds`: the padded buffer read as HH, MM and SS, each field up to 99. */
  function ParseInputToSeconds(input: string): (r: nat)
    requires AllDigits(input)
    ensures input == [] ==> r == 0
    ensures |input| <= MAX_INPUT_LENGTH ==> r <= 99 * 3600 + 99 * 60 + 99
  {
    if input == [] then 0
    else
      var f := InputFields(input);
      f.0 * 3600 + f.1 * 60 + f.2
  }

  /**
   * What the timer starts with is what the screen shows while typing: the
   * fields of "HHh MMm SSs" are the digits of the buffer, and the seconds are
   * HH * 3600 + MM * 60 + SS.
   */
  lemma StartsWithWhatIsShown(input: string)
    requires AllDigits(input) && |input| <= MAX_INPUT_LENGTH
    ensures var f := InputFields(input);
      && FormatInputPremium(input) == Pad2(f.0) + "h " + Pad2(f.1) + "m " + Pad2(f.2) + "s"
      && ParseInputToSeconds(input) == f.0 * 3600 + f.1 * 60 + f.2
      && f.0 * 10000 + f.1 * 100 + f.2 == DigitsValue(input)
  {
    PremiumShowsFields(input);
    InputIsHhmmss(input);
    if input == [] {
      assert DigitsValue(input) == 0;
    }
  }

  /** Typing 9 0 gives 90 seconds, shown as "00h 00m 90s": seconds above 59 are kept. */
  lemma NinetySeconds()
    ensures ParseInputToSeconds("90") == 90
    ensures FormatInputPremium("90") == "00h 00m 90s"
  {
    var p := Padded("90");
    assert p == "000090";
    assert p[..2] == "00" && p[2..4] == "00" && p[4..6] == "90";
    assert DigitsValue("90"[..1]) == 9;
  }

  /** The command that starts the service for `durationSec` seconds. */
  function StartCommand(durationSec: int): Intent {
    Put(WithAction(TimerServiceComponent, ACTION_START), EXTRA_DURATION, LongExtra(durationSec))
  }

  const STOP_COMMAND: Intent := WithAction(TimerServiceComponent, ACTION_STOP)

  /** The service ends its countdown where the screen does, when both read the same clock. */
  lemma ServiceEndsWithScreen(durationSec: int, now: int)
    ensures var d := GetLongExtra(StartCommand(durationSec), EXTRA_DURATION, 0);
      now + d * 1000 == now + durationSec * 1000
  {
  }

  class TimerViewModel {
    var input: string
    var totalTime: int
    var remainingTime: int
    var isRunning: bool
    var isPaused: bool
    var timerEndTime: int
    var timeRemainingOnPause: int
    /** Whether `tickerJob` is a live ticker loop. */
    var tickerActive: bool
    /** Commands sent to the timer service, oldest first. */
    var sent: seq<Intent>

    /** The keypad only ever produces up to six digits. */
    predicate Valid()
      reads this
    {
      |input| <= MAX_INPUT_LENGTH && AllDigits(input)
    }

    constructor()
      ensures Valid() && input == [] && totalTime == 0 && remainingTime == 0
      ensures !isRunning && !isPaused && timerEndTime == 0 && timeRemainingOnPause == 0
      ensures !tickerActive && sent == []
    {
      input := [];
      totalTime, remainingTime := 0, 0;
      isRunning, isPaused := false, false;
      timerEndTime, timeRemainingOnPause := 0, 0;
      tickerActive := false;
      sent := [];
    }

    /** A keypad digit is appended while the buffer has fewer than six. */
    method OnNumberClick(d: Digit)
      requires Valid()
      modifies this
      ensures Valid()
      ensures input == if |old(input)| < MAX_INPUT_LENGTH then old(input) + [d] else old(input)
      ensures totalTime == old(totalTime) && remainingTime == old(remainingTime)
      ensures isRunning == old(isRunning) && isPaused == old(isPaused) && timerEndTime == old(timerEndTime)
      ensures timeRemainingOnPause == old(timeRemainingOnPause) && tickerActive == old(tickerActive) && sent == old(sent)
    {
      if |input| < MAX_INPUT_LENGTH {
        input := input + [d];
      }
    }

    /** Backspace drops the last digit, if there is one. */
    method OnBackspace()
      requires Valid()
      modifies this
      ensures Valid()
      ensures input == if old(input) == [] then [] else old(input)[..|old(input)| - 1]
      ensures totalTime == old(totalTime) && remainingTime == old(remainingTime)
      ensures isRunning == old(isRunning) && isPaused == old(isPaused) && timerEndTime == old(timerEndTime)
      ensures timeRemainingOnPause == old(timeRemainingOnPause) && tickerActive == old(tickerActive) && sent == old(sent)
    {
      if input != [] {
        input := input[..|input| - 1];
      }
    }

    /** `startTicker`: running, ending `duration` seconds from now, with a fresh ticker loop. */
    method StartTicker(duration: int, now: int)
      modifies this
      ensures isRunning && timerEndTime == now + duration * 1000 && tickerActive
      ensures input == old(input) && totalTime == old(totalTime) && remainingTime == old(remainingTime)
      ensures isPaused == old(isPaused) && timeRemainingOnPause == old(timeRemainingOnPause) && sent == old(sent)
    {
      isRunning := true;
      timerEndTime := now + duration * 1000;
      tickerActive := true;
    }

    /** "Start": with a positive parsed duration, set the total, start the service and the ticker. */
    method StartTimer(now: int)
      requires Valid()
      modifies this
      ensures Valid()
      ensures var seconds := ParseInputToSeconds(old(input));
        if seconds > 0 then
          && totalTime == seconds && isRunning && timerEndTime == now + seconds * 1000 && tickerActive
          && sent == old(sent) + [StartCommand(seconds)]
          && input == old(input) && remainingTime == old(remainingTime)
          && isPaused == old(isPaused) && timeRemainingOnPause == old(timeRemainingOnPause)
        else
          && totalTime == old(totalTime) && isRunning == old(isRunning) && timerEndTime == old(timerEndTime)
          && tickerActive == old(tickerActive) && sent == old(sent)
          && input == old(input) && remainingTime == old(remainingTime)
          && isPaused == old(isPaused) && timeRemainingOnPause == old(timeRemainingOnPause)
    {
      var seconds := ParseInputToSeconds(input);
      if seconds > 0 {
        totalTime := seconds;
        sent := sent + [StartCommand(seconds)];
        StartTicker(seconds, now);
      }
    }

    /** "Stop": not running, not paused, empty buffer, ticker cancelled, service told to stop. */
    method StopTimer()
      modifies this
      ensures Valid() && input == [] && !isRunning && !isPaused && !tickerActive
      ensures sent == old(sent) + [STOP_COMMAND]
      ensures totalTime == old(totalTime) && remainingTime == old(remainingTime)
      ensures timerEndTime == old(timerEndTime) && timeRemainingOnPause == old(timeRemainingOnPause)
    {
      isRunning := false;
      isPaused := false;
      input := [];
      tickerActive := false;
      sent := sent + [STOP_COMMAND];
    }

    /**
     * Pause records the milliseconds left and stops the ticker and the service
     * (the running flag stays set); resume restarts both with the whole seconds left.
     */
    method TogglePause(now: int)
      modifies this
      ensures input == old(input) && totalTime == old(totalTime) && remainingTime == old(remainingTime)
      ensures old(isPaused) ==>
        var d := Quot(old(timeRemainingOnPause), 1000);
        && !isPaused && isRunning && timerEndTime == now + d * 1000 && tickerActive
        && timeRemainingOnPause == old(timeRemainingOnPause) && sent == old(sent) + [StartCommand(d)]
      ensures !old(isPaused) ==>
        && isPaused && timeRemainingOnPause == old(timerEndTime) - now && !tickerActive
        && isRunning == old(isRunning) && timerEndTime == old(timerEndTime) && sent == old(sent) + [STOP_COMMAND]
    {
      if isPaused {
        isPaused := false;
        var d := Quot(timeRemainingOnPause, 1000);
        sent := sent + [StartCommand(d)];
        StartTicker(d, now);
      } else {
        isPaused := true;
        timeRemainingOnPause := timerEndTime - now;
        tickerActive := false;
        sent := sent + [STOP_COMMAND];
      }
    }

    /** "+1m": while running, one more minute to the total and to the end instant. */
    method AddMinute()
      modifies this
      ensures old(isRunning) ==> timerEndTime == old(timerEndTime) + 60_000 && totalTime == old(totalTime) + 60
      ensures !old(isRunning) ==> timerEndTime == old(timerEndTime) && totalTime == old(totalTime)
      ensures input == old(input) && remainingTime == old(remainingTime) && isRunning == old(isRunning)
      ensures isPaused == old(isPaused) && timeRemainingOnPause == old(timeRemainingOnPause)
      ensures tickerActive == old(tickerActive) && sent == old(sent)
    {
      if isRunning {
        timerEndTime := timerEndTime + 60_000;
        totalTime := totalTime + 60;
      }
    }

    /**
     * One pass of the ticker loop at `now`. The loop leaves when the timer is
     * no longer running; at or past the end it shows 0 and stops the timer;
     * otherwise it shows the whole seconds left.
     */
    method Tick(now: int)
      modifies this
      ensures totalTime == old(totalTime) && timerEndTime == old(timerEndTime)
      ensures timeRemainingOnPause == old(timeRemainingOnPause)
      ensures !old(tickerActive) ==>
        && !tickerActive && input == old(input) && remainingTime == old(remainingTime) && isRunning == old(isRunning)
        && isPaused == old(isPaused) && sent == old(sent)
      ensures old(tickerActive) && !old(isRunning) ==>
        && !tickerActive && input == old(input) && remainingTime == old(remainingTime) && !isRunning
        && isPaused == old(isPaused) && sent == old(sent)
      ensures old(tickerActive) && old(isRunning) && timerEndTime - now <= 0 ==>
        && remainingTime == 0 && !tickerActive && !isRunning && !isPaused && input == []
        && sent == old(sent) + [STOP_COMMAND]
      ensures old(tickerActive) && old(isRunning) && timerEndTime - now > 0 ==>
        && remainingTime == Quot(timerEndTime - now, 1000) && tickerActive && isRunning
        && input == old(input) && isPaused == old(isPaused) && sent == old(sent)
    {
      if tickerActive {
        if !isRunning {
          tickerActive := false;
        } else {
          var left := timerEndTime - now;
          if left <= 0 {
            remainingTime := 0;
            StopTimer();
          } else {
            remainingTime := Quot(left, 1000);
          }
        }
      }
    }

    /**
     * The ticker loop over successive clock readings while nothing else
     * happens: the timer has stopped exactly when a reading reached the end,
     * and until then it shows the whole seconds left at the last reading.
     */
    method RunTicker(readings: seq<int>)
      requires tickerActive && isRunning
      modifies this
      ensures timerEndTime == old(timerEndTime) && totalTime == old(totalTime)
      ensures isRunning <==> forall i :: 0 <= i < |readings| ==> readings[i] < timerEndTime
      ensures isRunning ==> tickerActive && sent == old(sent) && input == old(input)
      ensures !isRunning ==> remainingTime == 0 && input == [] && sent == old(sent) + [STOP_COMMAND]
      ensures isRunning && readings != [] ==> remainingTime == Quot(timerEndTime - readings[|readings| - 1], 1000)
    {
      var k := 0;
      while k < |readings|
        invariant 0 <= k <= |readings|
        invariant timerEndTime == old(timerEndTime) && totalTime == old(totalTime)
        invariant isRunning <==> forall i :: 0 <= i < k ==> readings[i] < timerEndTime
        invariant isRunning ==> tickerActive && sent == old(sent) && input == old(input)
        invariant !isRunning ==> !tickerActive && remainingTime == 0 && input == [] && sent == old(sent) + [STOP_COMMAND]
        invariant isRunning && k > 0 ==> remainingTime == Quot(timerEndTime - readings[k - 1], 1000)
      {
        Tick(readings[k]);
        k := k + 1;
      }
    }
  }
}
