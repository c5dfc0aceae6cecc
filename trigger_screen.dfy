/**
 * The full-screen alarm activity: it sanitises the label from its intent,
 * shows the label pill and the snooze button by simple rules, and sends one
 * command to the ringing service for each user action before finishing.
 */
module TriggerScreen {
  import opened Common
  import opened Text
  import opened Intents
  import opened Ringing
  import TimerForeground

  const MAX_LABEL_LENGTH: int := 50

  /** Replaces each newline, carriage return and tab by a space (`Regex("[\n\r\t]")`). */
  function Flatten(s: string): (r: string)
    ensures |r| == |s|
    ensures forall i :: 0 <= i < |s| ==> r[i] == if s[i] in "\n\r\t" then ' ' else s[i]
  {
    ReplaceChar(ReplaceChar(ReplaceChar(s, '\n', ' '), '\r', ' '), '\t', ' ')
  }

  /**
   * The label shown: a missing label or one over 50 characters becomes
   * "Alarm"; otherwise line breaks and tabs become spaces and the result is
   * trimmed, so a blank label becomes "".
   */
  function SanitiseLabel(raw: Option<string>): (r: string)
    ensures raw.None? || |raw.value| > MAX_LABEL_LENGTH ==> r == "Alarm"
    ensures |r| <= MAX_LABEL_LENGTH
    ensures '\n' !in r && '\r' !in r && '\t' !in r
    ensures r == [] || (!IsWhitespace(r[0]) && !IsWhitespace(r[|r| - 1]))
    ensures raw.Some? && |raw.value| <= MAX_LABEL_LENGTH ==>
      && (r == [] <==> IsBlank(raw.value))
      && forall k :: 0 <= k < |r| ==> r[k] == ' ' || r[k] in raw.value
  {
    if raw.Some? && |raw.value| <= MAX_LABEL_LENGTH then
      FlattenedTrimmed(raw.value);
      Trim(Flatten(raw.value))
    else "Alarm"
  }

  lemma FlattenedTrimmed(s: string)
    ensures var r := Trim(Flatten(s));
      && '\n' !in r && '\r' !in r && '\t' !in r
      && (r == [] <==> IsBlank(s))
      && forall k :: 0 <= k < |r| ==> r[k] == ' ' || r[k] in s
  {
    var f := Flatten(s);
    var r := Trim(f);
    FlattenKeepsBlankness(s);
    FlattenedChars(s);
    forall k | 0 <= k < |r|
      ensures r[k] == ' ' || r[k] in s
      ensures r[k] != '\n' && r[k] != '\r' && r[k] != '\t'
    {
      assert r[k] in f;
    }
  }

  lemma FlattenKeepsBlankness(s: string)
    ensures IsBlank(Flatten(s)) <==> IsBlank(s)
  {
    var f := Flatten(s);
    forall i | 0 <= i < |s|
      ensures IsWhitespace(f[i]) <==> IsWhitespace(s[i])
    {
      if s[i] in "\n\r\t" {
        assert IsWhitespace(s[i]) && f[i] == ' ';
      }
    }
  }

  lemma FlattenedChars(s: string)
    ensures forall c :: c in Flatten(s) ==> c != '\n' && c != '\r' && c != '\t' && (c == ' ' || c in s)
  {
    var f := Flatten(s);
    forall c | c in f
      ensures c != '\n' && c != '\r' && c != '\t' && (c == ' ' || c in s)
    {
      var i :| 0 <= i < |f| && f[i] == c;
    }
  }

  /** What the activity shows, read from its intent. */
  datatype Screen = Screen(shownLabel: string, canSnooze: bool)

  function ReadScreen(intent: Intent): (s: Screen)
    ensures s.canSnooze == GetBooleanExtra(intent, "ALARM_SNOOZE", true)
    ensures s.shownLabel == SanitiseLabel(GetStringExtra(intent, "ALARM_LABEL"))
  {
    Screen(SanitiseLabel(GetStringExtra(intent, "ALARM_LABEL")), GetBooleanExtra(intent, "ALARM_SNOOZE", true))
  }

  /** Opened from the ringing notification, the screen shows that notification's label and snooze choice. */
  lemma OpenedFromNotification(alarmLabel: string, canSnooze: bool)
    ensures var s := ReadScreen(CreateNotification(alarmLabel, canSnooze).fullScreen);
      s.canSnooze == canSnooze && s.shownLabel == SanitiseLabel(Some(alarmLabel))
  {
  }

  predicate ShowsLabelPill(s: Screen) {
    s.shownLabel != []
  }

  predicate ShowsSnoozeButton(s: Screen) {
    s.canSnooze
  }

  /**
   * The timer's "Timer Finished" notification opens this same screen with
   * only a timer flag, which it does not read: it shows "Alarm" and offers
   * "Snooze", and both buttons address the alarm service rather than the
   * timer service.
   */
  lemma TimerFinishedScreen()
    ensures ReadScreen(TimerForeground.FINISHED_SCREEN) == Screen("Alarm", true)
    ensures ShowsSnoozeButton(ReadScreen(TimerForeground.FINISHED_SCREEN))
    ensures Route(SnoozePressed).target == AlarmServiceComponent && Route(DismissSwiped).target == AlarmServiceComponent
  {
    var i := TimerForeground.FINISHED_SCREEN;
    assert "ALARM_LABEL" !in i.extras && "ALARM_SNOOZE" !in i.extras;
  }

  /** A whitespace-only label of at most 50 characters is shown as nothing: no pill, not "Alarm". */
  lemma BlankLabelHidesPill(intent: Intent, raw: string)
    requires GetStringExtra(intent, "ALARM_LABEL") == Some(raw)
    requires |raw| <= MAX_LABEL_LENGTH && IsBlank(raw)
    ensures ReadScreen(intent).shownLabel == "" && !ShowsLabelPill(ReadScreen(intent))
  {
  }

  datatype UserAction = SnoozePressed | DismissSwiped

  /** The command an action sends to the ringing service; the activity then finishes. */
  function Route(action: UserAction): (command: Intent)
    ensures command.target == AlarmServiceComponent && command.extras == map[]
    ensures command.action == Some(if action == SnoozePressed then SNOOZE_ALARM else STOP_ALARM)
  {
    match action
    case SnoozePressed => WithAction(AlarmServiceComponent, SNOOZE_ALARM)
    case DismissSwiped => WithAction(AlarmServiceComponent, STOP_ALARM)
  }

  /** The snooze from this screen carries no extras either: the service snoozes alarm 0 as "Alarm". */
  lemma ScreenSnoozeUsesIdZero()
    ensures ReadCommand(Some(Route(SnoozePressed))) == Command(Some(SNOOZE_ALARM), "Alarm", 0, true, true)
  {
  }

  /** The snooze button's promise, in minutes. */
  const ADVERTISED_SNOOZE_MINUTES: int := 5

  /** The service waits twice as long as the button says. */
  lemma SnoozeWaitsTwiceTheAdvertisedTime()
    ensures SNOOZE_DELAY_MS == 2 * ADVERTISED_SNOOZE_MINUTES * MINUTE_MS
  {
  }
}
