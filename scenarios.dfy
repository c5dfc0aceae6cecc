/**
 * Runs that go through several components, from freshly created objects:
 * what the user ends up with when the pieces are put together as the app
 * puts them together.
 */
module Scenarios {
  import opened Common
  import opened Text
  import opened Intents
  import opened AlarmData
  import opened AlarmPlatform
  import Scheduling
  import Receiving
  import Ringing
  import Timer
  import TriggerScreen
  import AlarmStore
  import TimerForeground

  /**
   * `snoozeAlarm` registers under the id it is given, so called with the
   * alarm's own id after the alarm was scheduled it takes the place of the
   * daily wake-up, and once the snooze has fired the table is empty. No path
   * in the app passes that id: both snooze commands carry no extras, so the
   * service snoozes id 0 (see `ScreenSnoozeAddsWakeupZero`).
   */
  method SnoozeUnderAlarmIdReplacesWakeup(a: Alarm, now: int, snoozeAt: int)
    returns (afterSchedule: map<int, Wakeup>, afterSnooze: map<int, Wakeup>, afterFiring: map<int, Wakeup>)
    requires Scheduling.ParseAlarmTime(a.time).Some?
    ensures afterSchedule == map[a.id := Wakeup(AlarmClock,
      Scheduling.NextTrigger(now, Scheduling.ParseAlarmTime(a.time).value), Scheduling.AlarmIntent(a))]
    ensures afterSnooze == map[a.id := Wakeup(ExactRtcWakeupWhileIdle,
      snoozeAt + Ringing.SNOOZE_DELAY_MS, Ringing.SnoozeIntent(a.id, a.labelText))]
    ensures afterFiring == map[]
  {
    var manager := new AlarmManager(true, false);
    var scheduler := new Scheduling.AlarmScheduler(manager, true);
    var outcome := scheduler.Schedule(a, now);
    afterSchedule := manager.wakeups;
    var service := new Ringing.AlarmService(manager);
    var thrown := service.SnoozeAlarm(a.id, a.labelText, snoozeAt);
    afterSnooze := manager.wakeups;
    var broadcast := manager.Fire(a.id);
    afterFiring := manager.wakeups;
  }

  /**
   * A new alarm is stored (it gets id 1 in an empty table) and scheduled;
   * then "Snooze" on the ringing screen sends its command to the alarm
   * service. The command carries no id, so the snooze is registered under
   * key 0 beside the daily wake-up, which stays as it was.
   */
  method ScreenSnoozeAddsWakeupZero(a: Alarm, now: int, snoozeAt: int)
    returns (stored: Alarm, afterSchedule: map<int, Wakeup>, afterSnooze: map<int, Wakeup>)
    requires Scheduling.ParseAlarmTime(a.time).Some?
    ensures stored == a.(id := 1)
    ensures afterSchedule == map[1 := Wakeup(AlarmClock,
      Scheduling.NextTrigger(now, Scheduling.ParseAlarmTime(a.time).value), Scheduling.AlarmIntent(stored))]
    ensures afterSnooze == afterSchedule[0 := Wakeup(ExactRtcWakeupWhileIdle,
      snoozeAt + Ringing.SNOOZE_DELAY_MS, Ringing.SnoozeIntent(0, "Alarm"))]
    ensures 1 in afterSnooze && afterSnooze[1] == afterSchedule[1]
  {
    var dao := new AlarmStore.AlarmDao();
    var inserted := dao.InsertAlarm(a.(id := 0));
    stored := dao.rows[inserted.id];
    var manager := new AlarmManager(true, false);
    var scheduler := new Scheduling.AlarmScheduler(manager, true);
    var outcome := scheduler.Schedule(stored, now);
    afterSchedule := manager.wakeups;
    var service := new Ringing.AlarmService(manager);
    var command := TriggerScreen.Route(TriggerScreen.SnoozePressed);
    TriggerScreen.ScreenSnoozeUsesIdZero();
    var result := service.OnStartCommand(Some(command), Ringing.Found, snoozeAt);
    afterSnooze := manager.wakeups;
  }

  /**
   * The wake-up the scheduler registers is delivered by the system, and the
   * receiver answers it with no command: the alarm never reaches the
   * ringing service.
   */
  method ScheduledAlarmNeverRings(a: Alarm, now: int) returns (broadcast: Option<Intent>, command: Option<Intent>)
    requires Scheduling.ParseAlarmTime(a.time).Some?
    ensures broadcast == Some(Scheduling.AlarmIntent(a))
    ensures command == None
  {
    var manager := new AlarmManager(true, false);
    var scheduler := new Scheduling.AlarmScheduler(manager, true);
    var outcome := scheduler.Schedule(a, now);
    broadcast := manager.Fire(a.id);
    command := Receiving.OnReceive(broadcast);
    Receiving.ScheduledBroadcastIsDropped(a);
  }

  /**
   * A 90-second timer is started and "+1m" is pressed at once. The screen
   * moves its end a minute later, but nothing tells the service; when the
   * original 90 seconds are up the service rings while the screen still
   * counts a minute.
   */
  method AddedMinuteIsNotHeardByService(now: int) returns (serviceRings: nat, screenRunning: bool, screenSeconds: int)
    ensures serviceRings == 1
    ensures screenRunning && screenSeconds == 60
  {
    var screen := new Timer.TimerViewModel();
    screen.OnNumberClick('9');
    screen.OnNumberClick('0');
    assert screen.input == "90";
    Timer.NinetySeconds();
    screen.StartTimer(now);
    assert screen.sent == [Timer.StartCommand(90)];
    var service := new TimerForeground.TimerService(now);
    var code := service.OnStartCommand(Some(screen.sent[0]), now);
    Timer.ServiceEndsWithScreen(90, now);
    screen.AddMinute();
    assert screen.sent == [Timer.StartCommand(90)];
    var elapsed := now + 90_000;
    service.Tick(elapsed);
    screen.Tick(elapsed);
    serviceRings := service.rings;
    screenRunning := screen.isRunning;
    screenSeconds := screen.remainingTime;
  }

  /**
   * "+1m" stays available while paused, since pausing keeps the running
   * flag; it raises the total, but resuming restarts from the time left at
   * the pause, so the added minute is lost.
   */
  method AddedMinuteLostWhilePaused(now: int, resumeAt: int) returns (total: int, endsAt: int)
    ensures total == 150
    ensures endsAt == resumeAt + 80_000
  {
    var screen := new Timer.TimerViewModel();
    screen.OnNumberClick('9');
    screen.OnNumberClick('0');
    assert screen.input == "90";
    Timer.NinetySeconds();
    screen.StartTimer(now);
    screen.TogglePause(now + 10_000);
    screen.AddMinute();
    screen.TogglePause(resumeAt);
    total := screen.totalTime;
    endsAt := screen.timerEndTime;
  }
}
