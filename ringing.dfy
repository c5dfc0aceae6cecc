/**
 * The ringing service. A command with action STOP_ALARM ends the session, one
 * with SNOOZE_ALARM re-registers the alarm ten minutes ahead and ends the
 * session, and any other command (START_ALARM, no action at all) starts the
 * ringtone, the vibration when asked for, and the foreground notification.
 */
module Ringing {
  import opened Common
  import opened Intents
  import opened AlarmPlatform
  import opened Receiving

  /** The snooze delay, 10 * 60 * 1000 ms. */
  const SNOOZE_DELAY_MS: int := 600_000

  /** A vibration waveform: segment lengths in ms and the index to repeat from. */
  datatype Waveform = Waveform(timings: seq<int>, repeat: int)

  /** Off 0 ms, on 1000 ms, off 1000 ms, repeating from the start. */
  const ALARM_WAVEFORM: Waveform := Waveform([0, 1000, 1000], 0)

  /** What the platform does when the default alarm ringtone is asked for. */
  datatype RingtoneLookup =
    | Found
    /** `getRingtone` returns null. */
    | NotFound
    /** `getDefaultUri` or `getRingtone` throws before the field is assigned. */
    | LookupThrows
    /** The ringtone is obtained but `play()` throws. */
    | PlayThrows

  datatype NotificationAction = NotificationAction(title: string, operation: Intent)

  datatype Notification = Notification(
    title: string, text: string, fullScreen: Intent, ongoing: bool, actions: seq<NotificationAction>)

  /** The fields `onStartCommand` reads from its intent, with their defaults. */
  datatype Command = Command(action: Option<string>, alarmLabel: string, alarmId: int, shouldVibrate: bool, canSnooze: bool)

  function ReadCommand(intent: Option<Intent>): (c: Command)
    ensures intent.None? ==> c == Command(None, "Alarm", 0, true, true)
    ensures intent.Some? ==>
      var i := intent.value;
      && c.action == i.action
      && c.alarmLabel == (if GetStringExtra(i, "ALARM_LABEL").Some? then GetStringExtra(i, "ALARM_LABEL").value else "Alarm")
      && c.alarmId == GetIntExtra(i, "ALARM_ID", 0)
      && c.shouldVibrate == GetBooleanExtra(i, "ALARM_VIBRATE", true)
      && c.canSnooze == GetBooleanExtra(i, "ALARM_SNOOZE", true)
  {
    match intent
    case None => Command(None, "Alarm", 0, true, true)
    case Some(i) =>
      var labelText := match GetStringExtra(i, "ALARM_LABEL") case Some(s) => s case None => "Alarm";
      Command(i.action, labelText, GetIntExtra(i, "ALARM_ID", 0),
        GetBooleanExtra(i, "ALARM_VIBRATE", true), GetBooleanExtra(i, "ALARM_SNOOZE", true))
  }

  /** A command carrying no extras gets label "Alarm", id 0, and vibration and snooze on. */
  lemma MissingExtrasDefault(intent: Intent)
    requires intent.extras == map[]
    ensures ReadCommand(Some(intent)) == Command(intent.action, "Alarm", 0, true, true)
  {
  }

  /** What the receiver sends arrives with the defaults: the forwarded long "alarm_id" is not the int "ALARM_ID". */
  lemma ForwardedCommandUsesDefaults(event: Option<Intent>)
    requires OnReceive(event).Some?
    ensures ReadCommand(OnReceive(event)) == Command(Some(START_ALARM), "Alarm", 0, true, true)
  {
    var c := OnReceive(event).value;
    assert "ALARM_ID" !in c.extras && "ALARM_LABEL" !in c.extras;
    assert "ALARM_VIBRATE" !in c.extras && "ALARM_SNOOZE" !in c.extras;
  }

  /** The wake-up snoozing registers: to AlarmReceiver, vibration and snooze forced on. */
  function SnoozeIntent(id: int, alarmLabel: string): Intent {
    var i := Explicit(AlarmReceiverComponent);
    var i := Put(i, "ALARM_ID", IntExtra(id));
    var i := Put(i, "ALARM_LABEL", StringExtra(alarmLabel));
    var i := Put(i, "ALARM_VIBRATE", BoolExtra(true));
    Put(i, "ALARM_SNOOZE", BoolExtra(true))
  }

  const STOP_INTENT: Intent := WithAction(AlarmServiceComponent, STOP_ALARM)
  const SNOOZE_INTENT: Intent := WithAction(AlarmServiceComponent, SNOOZE_ALARM)

  /** The foreground notification for a ringing alarm. */
  function CreateNotification(alarmLabel: string, canSnooze: bool): (n: Notification)
    ensures n.title == "Alarm" && n.text == alarmLabel && n.ongoing
    ensures |n.actions| >= 1 && n.actions[0] == NotificationAction("Dismiss", STOP_INTENT)
    ensures |n.actions| == (if canSnooze then 2 else 1)
    ensures canSnooze ==> n.actions[1] == NotificationAction("Snooze", SNOOZE_INTENT)
    ensures n.fullScreen.target == AlarmTriggerActivityComponent
    ensures GetStringExtra(n.fullScreen, "ALARM_LABEL") == Some(alarmLabel)
    ensures GetBooleanExtra(n.fullScreen, "ALARM_SNOOZE", true) == canSnooze
  {
    var fullScreen := Put(Put(Explicit(AlarmTriggerActivityComponent), "ALARM_LABEL", StringExtra(alarmLabel)),
      "ALARM_SNOOZE", BoolExtra(canSnooze));
    var dismiss := [NotificationAction("Dismiss", STOP_INTENT)];
    Notification("Alarm", alarmLabel, fullScreen, true,
      if canSnooze then dismiss + [NotificationAction("Snooze", SNOOZE_INTENT)] else dismiss)
  }

  /** The notification's snooze action carries no extras, so it snoozes alarm 0 under the label "Alarm". */
  lemma NotificationSnoozeUsesIdZero(alarmLabel: string)
    ensures var n := CreateNotification(alarmLabel, true);
      ReadCommand(Some(n.actions[1].operation)) == Command(Some(SNOOZE_ALARM), "Alarm", 0, true, true)
  {
  }

  datatype StartResult = Returned(code: int) | Crashed

  class AlarmService {
    const manager: AlarmManager
    /** The `ringtone` field: None for null, otherwise whether it is playing. */
    var ringtone: Option<bool>
    /** Ringtones that were playing when the field was overwritten; nothing stops them. */
    var strayRingtones: nat
    /** The vibration under way, if any. */
    var vibration: Option<Waveform>
    /** The foreground notification, if the service is in the foreground. */
    var notification: Option<Notification>
    /** Whether `stopSelf()` has been called. */
    var stopRequested: bool

    constructor(manager: AlarmManager)
      ensures this.manager == manager
      ensures ringtone == None && strayRingtones == 0 && vibration == None
      ensures notification == None && !stopRequested
    {
      this.manager := manager;
      ringtone := None;
      strayRingtones := 0;
      vibration := None;
      notification := None;
      stopRequested := false;
    }

    /** `snoozeAlarm`: registers id ten minutes ahead; a SecurityException is not caught. */
    method SnoozeAlarm(id: int, alarmLabel: string, now: int) returns (thrown: bool)
      modifies manager
      ensures thrown == manager.refusesExact
      ensures manager.wakeups == if thrown then old(manager.wakeups)
        else old(manager.wakeups)[id := Wakeup(ExactRtcWakeupWhileIdle, now + SNOOZE_DELAY_MS, SnoozeIntent(id, alarmLabel))]
    {
      thrown := manager.SetExactAndAllowWhileIdle(id, now + SNOOZE_DELAY_MS, SnoozeIntent(id, alarmLabel));
    }

    /** Starts the default alarm ringtone (the `try` block). */
    method StartRingtone(lookup: RingtoneLookup)
      modifies this
      ensures lookup == LookupThrows ==> ringtone == old(ringtone) && strayRingtones == old(strayRingtones)
      ensures lookup != LookupThrows ==>
        && ringtone == (if lookup == Found then Some(true) else if lookup == PlayThrows then Some(false) else None)
        && strayRingtones == old(strayRingtones) + (if old(ringtone) == Some(true) then 1 else 0)
      ensures vibration == old(vibration) && notification == old(notification) && stopRequested == old(stopRequested)
    {
      if lookup == LookupThrows {
        return;
      }
      if ringtone == Some(true) {
        strayRingtones := strayRingtones + 1;
      }
      ringtone := if lookup == Found then Some(true) else if lookup == PlayThrows then Some(false) else None;
    }

    method OnStartCommand(intent: Option<Intent>, lookup: RingtoneLookup, now: int) returns (result: StartResult)
      modifies this, manager
      ensures var c := ReadCommand(intent);
        c.action == Some(STOP_ALARM) ==>
          && result == Returned(START_NOT_STICKY) && stopRequested
          && manager.wakeups == old(manager.wakeups)
          && ringtone == old(ringtone) && vibration == old(vibration) && notification == old(notification)
          && strayRingtones == old(strayRingtones)
      ensures var c := ReadCommand(intent);
        c.action == Some(SNOOZE_ALARM) ==>
          && ringtone == old(ringtone) && vibration == old(vibration) && notification == old(notification)
          && strayRingtones == old(strayRingtones)
          && (manager.refusesExact ==>
            result == Crashed && manager.wakeups == old(manager.wakeups) && stopRequested == old(stopRequested))
          && (!manager.refusesExact ==>
            && result == Returned(START_NOT_STICKY) && stopRequested
            && manager.wakeups == old(manager.wakeups)[c.alarmId :=
                 Wakeup(ExactRtcWakeupWhileIdle, now + SNOOZE_DELAY_MS, SnoozeIntent(c.alarmId, c.alarmLabel))])
      ensures var c := ReadCommand(intent);
        c.action != Some(STOP_ALARM) && c.action != Some(SNOOZE_ALARM) ==>
          && result == Returned(START_STICKY)
          && manager.wakeups == old(manager.wakeups)
          && (lookup == LookupThrows ==> ringtone == old(ringtone) && strayRingtones == old(strayRingtones))
          && (lookup != LookupThrows ==>
            && ringtone == (if lookup == Found then Some(true) else if lookup == PlayThrows then Some(false) else None)
            && strayRingtones == old(strayRingtones) + (if old(ringtone) == Some(true) then 1 else 0))
          && vibration == (if c.shouldVibrate then Some(ALARM_WAVEFORM) else old(vibration))
          && notification == Some(CreateNotification(c.alarmLabel, c.canSnooze))
          && stopRequested == old(stopRequested)
      ensures strayRingtones >= old(strayRingtones)
    {
      var c := ReadCommand(intent);
      if c.action == Some(STOP_ALARM) {
        stopRequested := true;
        return Returned(START_NOT_STICKY);
      } else if c.action == Some(SNOOZE_ALARM) {
        var thrown := SnoozeAlarm(c.alarmId, c.alarmLabel, now);
        if thrown {
          return Crashed;
        }
        stopRequested := true;
        return Returned(START_NOT_STICKY);
      }
      StartRingtone(lookup);
      if c.shouldVibrate {
        vibration := Some(ALARM_WAVEFORM);
      }
      notification := Some(CreateNotification(c.alarmLabel, c.canSnooze));
      result := Returned(START_STICKY);
    }

    /** `onDestroy`: stops the ringtone the field refers to and cancels vibration; the notification goes with the service. */
    method OnDestroy()
      modifies this
      ensures ringtone == if old(ringtone).Some? then Some(false) else None
      ensures vibration == None && notification == None
      ensures strayRingtones == old(strayRingtones) && stopRequested == old(stopRequested)
    {
      if ringtone.Some? {
        ringtone := Some(false);
      }
      vibration := None;
      notification := None;
    }
  }
}
