/**
 * The timer's foreground service: it counts down to an end instant, keeps the
 * notification up to date, rings once when the end is reached and stops
 * itself ten minutes after ringing. Each pass of its countdown loop is a
 * `Tick` at the clock reading `now`.
 */
module TimerForeground {
  import opened Common
  import opened Text
  import opened Intents
  import opened TimerFormat

  const ACTION_START: string := "ACTION_START"
  const ACTION_STOP: string := "ACTION_STOP"
  const EXTRA_DURATION: string := "EXTRA_DURATION"

  /** The wake lock taken in `onCreate` expires by itself after 20 minutes. */
  const WAKE_LOCK_TIMEOUT_MS: int := 20 * 60 * 1000
  /** The finished state stops the service after 10 minutes. */
  const AUTO_STOP_DELAY_MS: int := 10 * 60 * 1000

  /** `formatTime`: "HH:MM:SS", each field zero-padded to at least two digits. */
  function FormatTime(seconds: int): (r: string)
    ensures 0 <= seconds < 360_000 ==> |r| == 8
  {
    var (h, m, s) := Hms(seconds);
    Pad2Width(h);
    Pad2Width(m);
    Pad2Width(s);
    Pad2(h) + ":" + Pad2(m) + ":" + Pad2(s)
  }

  /** The notification text reads back, field by field, as the seconds it shows. */
  lemma FormatTimeReadsBack(seconds: int)
    requires seconds >= 0
    ensures var parts := Split(FormatTime(seconds), ':');
      && |parts| == 3 && AllDigits(parts[0]) && AllDigits(parts[1]) && AllDigits(parts[2])
      && DigitsValue(parts[0]) * 3600 + DigitsValue(parts[1]) * 60 + DigitsValue(parts[2]) == seconds
  {
    var (h, m, s) := Hms(seconds);
    Pad2Value(h);
    Pad2Value(m);
    Pad2Value(s);
    NoColonInDigits(Pad2(h));
    NoColonInDigits(Pad2(m));
    NoColonInDigits(Pad2(s));
    var parts := [Pad2(h), Pad2(m), Pad2(s)];
    assert Join(parts[1..], ':') == Pad2(m) + ":" + Pad2(s);
    assert FormatTime(seconds) == Join(parts, ':');
    SplitOfJoin(parts, ':');
  }

  /** Under 100 hours the service shows the same minutes and seconds as the screen, with the hours padded. */
  lemma ServiceAndScreenShowSameClock(seconds: int)
    requires 3600 <= seconds < 36_000
    ensures FormatTime(seconds) == "0" + FormatSeconds(seconds)
  {
    var (h, m, s) := Hms(seconds);
    assert 1 <= h < 10;
  }

  /** The full-screen intent of the "Timer Finished" notification. */
  const FINISHED_SCREEN: Intent := Put(Explicit(AlarmTriggerActivityComponent), "EXTRA_IS_TIMER", BoolExtra(true))

  datatype TimerNotice =
    /** "Timer Running" with the given text and a "Stop" action. */
    | Running(text: string)
    /** "Timer Finished", opening the ringing screen through its full-screen intent, with a "Dismiss" action. */
    | Finished(fullScreen: Intent)

  class TimerService {
    /** Whether `timerJob` is a live countdown loop. */
    var countdownActive: bool
    var endTime: int
    /** The instant the wake lock lapses by itself; None once released. */
    var wakeLockUntil: Option<int>
    /** The foreground notification; None once removed. */
    var notice: Option<TimerNotice>
    /** Instants at which the delayed stops launched on finishing become due, oldest first. */
    var pendingStops: seq<int>
    /** How many times the finished state was entered. */
    var rings: nat
    var stopSelfRequested: bool

    /** `onCreate` at `now`: take the wake lock with its timeout. */
    constructor(now: int)
      ensures wakeLockUntil == Some(now + WAKE_LOCK_TIMEOUT_MS)
      ensures !countdownActive && endTime == 0 && notice == None && pendingStops == [] && rings == 0
      ensures !stopSelfRequested
    {
      wakeLockUntil := Some(now + WAKE_LOCK_TIMEOUT_MS);
      countdownActive, endTime := false, 0;
      notice, pendingStops, rings := None, [], 0;
      stopSelfRequested := false;
    }

    predicate WakeLockHeld(now: int)
      reads this
    {
      wakeLockUntil.Some? && now < wakeLockUntil.value
    }

    /** `stopTimer`: end the countdown, release the wake lock if held, remove the notification, stop. */
    method StopTimer(now: int)
      modifies this
      ensures !countdownActive && notice == None && stopSelfRequested
      ensures wakeLockUntil == if old(WakeLockHeld(now)) then None else old(wakeLockUntil)
      ensures endTime == old(endTime) && pendingStops == old(pendingStops) && rings == old(rings)
    {
      countdownActive := false;
      if WakeLockHeld(now) {
        wakeLockUntil := None;
      }
      notice := None;
      stopSelfRequested := true;
    }

    /** `startForegroundTimer`: replace any countdown by one ending `durationSec` seconds after now. */
    method StartForegroundTimer(durationSec: int, now: int)
      modifies this
      ensures countdownActive && endTime == now + durationSec * 1000 && notice == Some(Running("Timer Started"))
      ensures wakeLockUntil == old(wakeLockUntil) && pendingStops == old(pendingStops) && rings == old(rings)
      ensures stopSelfRequested == old(stopSelfRequested)
    {
      endTime := now + durationSec * 1000;
      notice := Some(Running("Timer Started"));
      countdownActive := true;
    }

    /** `onStartCommand`: start or stop on the two actions, ignore anything else, never ask to be restarted. */
    method OnStartCommand(intent: Option<Intent>, now: int) returns (code: int)
      modifies this
      ensures code == START_NOT_STICKY
      ensures intent.Some? && intent.value.action == Some(ACTION_START) ==>
        var d := GetLongExtra(intent.value, EXTRA_DURATION, 0);
        && countdownActive && endTime == now + d * 1000 && notice == Some(Running("Timer Started"))
        && wakeLockUntil == old(wakeLockUntil) && pendingStops == old(pendingStops) && rings == old(rings)
        && stopSelfRequested == old(stopSelfRequested)
      ensures intent.Some? && intent.value.action == Some(ACTION_STOP) ==>
        && !countdownActive && notice == None && stopSelfRequested
        && wakeLockUntil == (if old(WakeLockHeld(now)) then None else old(wakeLockUntil))
        && endTime == old(endTime) && pendingStops == old(pendingStops) && rings == old(rings)
      ensures intent.None? || (intent.value.action != Some(ACTION_START) && intent.value.action != Some(ACTION_STOP)) ==>
        && countdownActive == old(countdownActive) && endTime == old(endTime) && notice == old(notice)
        && wakeLockUntil == old(wakeLockUntil) && pendingStops == old(pendingStops) && rings == old(rings)
        && stopSelfRequested == old(stopSelfRequested)
    {
      if intent.Some? && intent.value.action == Some(ACTION_START) {
        var duration := GetLongExtra(intent.value, EXTRA_DURATION, 0);
        StartForegroundTimer(duration, now);
      } else if intent.Some? && intent.value.action == Some(ACTION_STOP) {
        StopTimer(now);
      }
      code := START_NOT_STICKY;
    }

    /**
     * One pass of the countdown loop at `now`: at or past the end, switch to
     * the finished notification, arm the delayed stop and leave the loop;
     * otherwise show the whole seconds left.
     */
    method Tick(now: int)
      modifies this
      ensures endTime == old(endTime) && wakeLockUntil == old(wakeLockUntil)
      ensures stopSelfRequested == old(stopSelfRequested)
      ensures !old(countdownActive) ==>
        !countdownActive && notice == old(notice) && pendingStops == old(pendingStops) && rings == old(rings)
      ensures old(countdownActive) && endTime - now <= 0 ==>
        && !countdownActive && notice == Some(Finished(FINISHED_SCREEN)) && rings == old(rings) + 1
        && pendingStops == old(pendingStops) + [now + AUTO_STOP_DELAY_MS]
      ensures old(countdownActive) && endTime - now > 0 ==>
        && countdownActive && notice == Some(Running(FormatTime(Quot(endTime - now, 1000))))
        && pendingStops == old(pendingStops) && rings == old(rings)
    {
      if countdownActive {
        var remainingMillis := endTime - now;
        if remainingMillis <= 0 {
          notice := Some(Finished(FINISHED_SCREEN));
          rings := rings + 1;
          pendingStops := pendingStops + [now + AUTO_STOP_DELAY_MS];
          countdownActive := false;
        } else {
          notice := Some(Running(FormatTime(Quot(remainingMillis, 1000))));
        }
      }
    }

    /**
     * The countdown loop run over successive clock readings: it rings at most
     * once, and it has rung exactly when some reading reached the end instant.
     */
    method RunCountdown(readings: seq<int>)
      modifies this
      ensures endTime == old(endTime) && wakeLockUntil == old(wakeLockUntil)
      ensures rings <= old(rings) + 1
      ensures old(countdownActive) ==>
        (rings == old(rings) + 1 <==> exists i :: 0 <= i < |readings| && readings[i] >= endTime)
      ensures countdownActive ==> old(countdownActive) && forall i :: 0 <= i < |readings| ==> readings[i] < endTime
      ensures !old(countdownActive) ==> rings == old(rings) && !countdownActive
    {
      var k := 0;
      while k < |readings|
        invariant 0 <= k <= |readings|
        invariant endTime == old(endTime) && wakeLockUntil == old(wakeLockUntil)
        invariant countdownActive ==> old(countdownActive) && forall i :: 0 <= i < k ==> readings[i] < endTime
        invariant rings == old(rings) + (if old(countdownActive) && !countdownActive then 1 else 0)
        invariant old(countdownActive) && !countdownActive ==> exists i :: 0 <= i < k && readings[i] >= endTime
      {
        Tick(readings[k]);
        k := k + 1;
      }
    }

    /** The delayed stop due first, when it has come due at `now`. */
    method StopDelayElapsed(now: int)
      modifies this
      ensures |old(pendingStops)| > 0 && now >= old(pendingStops)[0] ==>
        && pendingStops == old(pendingStops)[1..]
        && !countdownActive && notice == None && stopSelfRequested
        && wakeLockUntil == (if old(WakeLockHeld(now)) then None else old(wakeLockUntil))
        && endTime == old(endTime) && rings == old(rings)
      ensures !(|old(pendingStops)| > 0 && now >= old(pendingStops)[0]) ==>
        && pendingStops == old(pendingStops) && countdownActive == old(countdownActive) && notice == old(notice)
        && stopSelfRequested == old(stopSelfRequested) && wakeLockUntil == old(wakeLockUntil)
        && endTime == old(endTime) && rings == old(rings)
    {
      if |pendingStops| > 0 && now >= pendingStops[0] {
        pendingStops := pendingStops[1..];
        StopTimer(now);
      }
    }

    /** `onDestroy`: cancel every coroutine of the service and release the wake lock if held. */
    method OnDestroy(now: int)
      modifies this
      ensures !countdownActive && pendingStops == []
      ensures wakeLockUntil == if old(WakeLockHeld(now)) then None else old(wakeLockUntil)
      ensures endTime == old(endTime) && notice == old(notice) && rings == old(rings)
      ensures stopSelfRequested == old(stopSelfRequested)
    {
      countdownActive := false;
      pendingStops := [];
      if WakeLockHeld(now) {
        wakeLockUntil := None;
      }
    }
  }
}
