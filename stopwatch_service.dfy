/**
 * The stopwatch's foreground service: a notification that follows the
 * stopwatch once a second while it runs and shows the paused total when it
 * is paused. Each pass of its update loop is a `Tick` at the clock reading `now`.
 */
module StopwatchForeground {
  import opened Common
  import opened Text
  import opened Intents
  import StopwatchFormat

  const ACTION_START: string := "ACTION_START"
  const ACTION_PAUSE: string := "ACTION_PAUSE"
  const ACTION_STOP: string := "ACTION_STOP"
  const EXTRA_START_TIME: string := "EXTRA_START_TIME"
  const EXTRA_ACCUMULATED: string := "EXTRA_ACCUMULATED"

  /** The notification's `formatStopwatch`: "%02d:%02d" of minutes and seconds, without hundredths. */
  function FormatStopwatch(millis: int): (r: string)
    ensures millis >= 0 ==> |r| < |StopwatchFormat.FormatStopwatch(millis)| && r == StopwatchFormat.FormatStopwatch(millis)[..|r|]
  {
    var (m, s, _) := StopwatchFormat.StopwatchFields(millis);
    Pad2(m) + ":" + Pad2(s)
  }

  /** The notification drops exactly the ".hh" the screen shows after the seconds. */
  lemma NotificationIsScreenWithoutHundredths(millis: int)
    requires millis >= 0
    ensures StopwatchFormat.FormatStopwatch(millis) == FormatStopwatch(millis) + "." + Pad2(StopwatchFormat.StopwatchFields(millis).2)
  {
  }

  /** A notification that shows under 100 minutes is exactly "MM:SS". */
  lemma NotificationWidth(millis: int)
    requires 0 <= millis && StopwatchFormat.StopwatchFields(millis).0 < 100
    ensures |FormatStopwatch(millis)| == 5
  {
    var (m, s, _) := StopwatchFormat.StopwatchFields(millis);
    Pad2Value(m);
    Pad2Value(s);
  }

  class StopwatchService {
    /** Whether `job` is a live update loop, and the start instant and total it counts from. */
    var loopActive: bool
    var loopStart: int
    var loopAccumulated: int
    /** The notification text; None once the notification is removed. */
    var text: Option<string>
    var stopSelfRequested: bool

    constructor()
      ensures !loopActive && loopStart == 0 && loopAccumulated == 0 && text == None && !stopSelfRequested
    {
      loopActive, loopStart, loopAccumulated := false, 0, 0;
      text := None;
      stopSelfRequested := false;
    }

    /** `onStartCommand` at `now`; every command asks to be restarted if the service is killed. */
    method OnStartCommand(intent: Option<Intent>, now: int) returns (code: int)
      modifies this
      ensures code == START_STICKY
      ensures intent.Some? && intent.value.action == Some(ACTION_START) ==>
        && loopActive && loopStart == GetLongExtra(intent.value, EXTRA_START_TIME, now)
        && loopAccumulated == GetLongExtra(intent.value, EXTRA_ACCUMULATED, 0)
        && text == Some("Stopwatch Running") && stopSelfRequested == old(stopSelfRequested)
      ensures intent.Some? && intent.value.action == Some(ACTION_PAUSE) ==>
        && !loopActive && text == Some("Paused: " + FormatStopwatch(GetLongExtra(intent.value, EXTRA_ACCUMULATED, 0)))
        && loopStart == old(loopStart) && loopAccumulated == old(loopAccumulated)
        && stopSelfRequested == old(stopSelfRequested)
      ensures intent.Some? && intent.value.action == Some(ACTION_STOP) ==>
        && !loopActive && text == None && stopSelfRequested
        && loopStart == old(loopStart) && loopAccumulated == old(loopAccumulated)
      ensures intent.None? || intent.value.action !in {Some(ACTION_START), Some(ACTION_PAUSE), Some(ACTION_STOP)} ==>
        && loopActive == old(loopActive) && loopStart == old(loopStart) && loopAccumulated == old(loopAccumulated)
        && text == old(text) && stopSelfRequested == old(stopSelfRequested)
    {
      if intent.Some? && intent.value.action == Some(ACTION_START) {
        var startTime := GetLongExtra(intent.value, EXTRA_START_TIME, now);
        var accumulated := GetLongExtra(intent.value, EXTRA_ACCUMULATED, 0);
        text := Some("Stopwatch Running");
        loopActive, loopStart, loopAccumulated := true, startTime, accumulated;
      } else if intent.Some? && intent.value.action == Some(ACTION_PAUSE) {
        var elapsed := GetLongExtra(intent.value, EXTRA_ACCUMULATED, 0);
        text := Some("Paused: " + FormatStopwatch(elapsed));
        loopActive := false;
      } else if intent.Some? && intent.value.action == Some(ACTION_STOP) {
        loopActive := false;
        text := None;
        stopSelfRequested := true;
      }
      code := START_STICKY;
    }

    /** One pass of the update loop: show the elapsed time at `now`. */
    method Tick(now: int)
      modifies this
      ensures loopActive == old(loopActive) && loopStart == old(loopStart) && loopAccumulated == old(loopAccumulated)
      ensures stopSelfRequested == old(stopSelfRequested)
      ensures text == if loopActive then Some(FormatStopwatch(StopwatchFormat.ElapsedAt(loopStart, loopAccumulated, now))) else old(text)
    {
      if loopActive {
        text := Some(FormatStopwatch(StopwatchFormat.ElapsedAt(loopStart, loopAccumulated, now)));
      }
    }

    /** `onDestroy`: the update loop is cancelled with the service's scope. */
    method OnDestroy()
      modifies this
      ensures !loopActive && loopStart == old(loopStart) && loopAccumulated == old(loopAccumulated)
      ensures text == old(text) && stopSelfRequested == old(stopSelfRequested)
    {
      loopActive := false;
    }
  }
}
