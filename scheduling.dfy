/**
 * The alarm scheduler: turns a stored alarm into one exact wake-up in the
 * AlarmManager table, under the alarm's id as request code.
 */
module Scheduling {
  import opened Common
  import opened Text
  import opened Intents
  import opened AlarmData
  import opened AlarmPlatform

  datatype TimeOfDay = TimeOfDay(hour: int, minute: int)

  predicate ValidTimeOfDay(t: TimeOfDay) {
    0 <= t.hour < 24 && 0 <= t.minute < 60
  }

  /** Milliseconds from midnight to t. */
  function MillisOfDay(t: TimeOfDay): int {
    t.hour * HOUR_MS + t.minute * MINUTE_MS
  }

  /**
   * How the scheduler reads `alarm.time`: split on ':', `toInt()` the first two
   * fields and build `LocalTime.of(hour, minute)`. Fewer than two fields, a
   * field that is not an integer, or an hour or minute out of range throws;
   * that is None here. Fields after the second are ignored.
   */
  function ParseAlarmTime(time: string): (r: Option<TimeOfDay>)
    ensures r.Some? ==> ValidTimeOfDay(r.value)
  {
    var parts := Split(time, ':');
    if |parts| < 2 then None
    else match (ToInt(parts[0]), ToInt(parts[1]))
      case (Some(h), Some(m)) =>
        var t := TimeOfDay(h, m);
        if ValidTimeOfDay(t) then Some(t) else None
      case _ => None
  }

  /** `String.format("%02d:%02d", hour, minute)`, the form every screen stores. */
  function FormatAlarmTime(hour: int, minute: int): string {
    Pad2(hour) + ":" + Pad2(minute)
  }

  /** Reading back a stored time gives the picker's hour and minute. */
  lemma ParseFormatted(t: TimeOfDay)
    requires ValidTimeOfDay(t)
    ensures ParseAlarmTime(FormatAlarmTime(t.hour, t.minute)) == Some(t)
  {
    var a, b := Pad2(t.hour), Pad2(t.minute);
    Pad2Value(t.hour);
    Pad2Value(t.minute);
    assert ':' !in a && ':' !in b by {
      assert forall i :: 0 <= i < |a| ==> IsDigit(a[i]);
      assert forall i :: 0 <= i < |b| ==> IsDigit(b[i]);
    }
    assert FormatAlarmTime(t.hour, t.minute) == Join([a, b], ':');
    SplitOfJoin([a, b], ':');
    ToIntOfPad2(t.hour);
    ToIntOfPad2(t.minute);
  }

  /**
   * The next trigger instant for time of day t seen at `now`: today at t when
   * that is not before now, otherwise tomorrow at t.
   */
  function NextTrigger(now: int, t: TimeOfDay): (r: int)
    requires ValidTimeOfDay(t)
    ensures now <= r < now + DAY_MS
    ensures r % DAY_MS == MillisOfDay(t)
    ensures forall x :: now <= x && x % DAY_MS == MillisOfDay(t) ==> r <= x
  {
    var today := now - now % DAY_MS + MillisOfDay(t);
    var r := if today < now then today + DAY_MS else today;
    assert r % DAY_MS == MillisOfDay(t) by {
      assert today == (now / DAY_MS) * DAY_MS + MillisOfDay(t);
      DayAligned(now / DAY_MS, MillisOfDay(t));
      DayAligned(now / DAY_MS + 1, MillisOfDay(t));
    }
    forall x | now <= x && x % DAY_MS == MillisOfDay(t)
      ensures r <= x
    {
      SameTimeOfDay(x, r);
    }
    r
  }

  /** d whole days plus a time of day has that time of day. */
  lemma DayAligned(d: int, tod: int)
    requires 0 <= tod < DAY_MS
    ensures (d * DAY_MS + tod) % DAY_MS == tod
  {
  }

  /** Two instants with the same time of day are a whole number of days apart. */
  lemma SameTimeOfDay(x: int, r: int)
    requires x % DAY_MS == r % DAY_MS
    ensures x < r ==> x <= r - DAY_MS
  {
    assert x == (x / DAY_MS) * DAY_MS + x % DAY_MS;
    assert r == (r / DAY_MS) * DAY_MS + r % DAY_MS;
    if x < r {
      assert x / DAY_MS < r / DAY_MS;
      assert (r / DAY_MS - x / DAY_MS) * DAY_MS >= DAY_MS;
    }
  }

  /** An alarm whose time is exactly now stays today: it fires now, not tomorrow. */
  lemma EqualityStaysToday(now: int, t: TimeOfDay)
    requires ValidTimeOfDay(t) && now % DAY_MS == MillisOfDay(t)
    ensures NextTrigger(now, t) == now
  {
  }

  /** The broadcast the scheduler registers: to AlarmReceiver, with no action. */
  function AlarmIntent(a: Alarm): Intent {
    var i := Explicit(AlarmReceiverComponent);
    var i := Put(i, "ALARM_ID", IntExtra(a.id));
    var i := Put(i, "ALARM_LABEL", StringExtra(a.labelText));
    var i := Put(i, "ALARM_VIBRATE", BoolExtra(a.isVibrationEnabled));
    Put(i, "ALARM_SNOOZE", BoolExtra(a.isSnoozeEnabled))
  }

  /** The registered broadcast carries the alarm's id, label, vibration and snooze flags, and no action. */
  lemma AlarmIntentCarriesFields(a: Alarm)
    ensures var i := AlarmIntent(a);
      && i.target == AlarmReceiverComponent && i.action == None
      && GetIntExtra(i, "ALARM_ID", 0) == a.id
      && GetStringExtra(i, "ALARM_LABEL") == Some(a.labelText)
      && GetBooleanExtra(i, "ALARM_VIBRATE", true) == a.isVibrationEnabled
      && GetBooleanExtra(i, "ALARM_SNOOZE", true) == a.isSnoozeEnabled
  {
  }

  /** The settings screen that lets the user grant exact alarms (`ACTION_REQUEST_SCHEDULE_EXACT_ALARM`). */
  const PERMISSION_PROMPT: Intent := Explicit(ExactAlarmSettingsScreen)

  datatype ScheduleOutcome =
    | Registered(triggerAtMillis: int)
    /** Exact alarms are not allowed: the settings screen is opened instead. */
    | PromptedForPermission
    /** setAlarmClock threw SecurityException, which is caught and reported in a toast. */
    | PermissionDenied
    /** The time did not parse; the exception leaves `schedule` uncaught. */
    | MalformedTime

  /**
   * What `schedule(a)` does at `now`: the outcome and the new wake-up table,
   * given whether it stops at the permission gate and whether registering
   * throws SecurityException.
   */
  function ScheduleEffect(gated: bool, refusesExact: bool, wakeups: map<int, Wakeup>, a: Alarm, now: int)
    : (r: (ScheduleOutcome, map<int, Wakeup>))
    ensures gated ==> r.0 == PromptedForPermission
    ensures !gated && ParseAlarmTime(a.time).None? ==> r.0 == MalformedTime
    ensures !gated && ParseAlarmTime(a.time).Some? && refusesExact ==> r.0 == PermissionDenied
    ensures r.0.Registered? <==> !gated && ParseAlarmTime(a.time).Some? && !refusesExact
    ensures !r.0.Registered? ==> r.1 == wakeups
    ensures r.0.Registered? ==>
      && r.0.triggerAtMillis == NextTrigger(now, ParseAlarmTime(a.time).value)
      && a.id in r.1 && r.1[a.id] == Wakeup(AlarmClock, r.0.triggerAtMillis, AlarmIntent(a))
    ensures forall k :: k != a.id ==> (k in r.1 <==> k in wakeups) && (k in r.1 ==> r.1[k] == wakeups[k])
    ensures r.1.Keys <= wakeups.Keys + {a.id}
  {
    if gated then (PromptedForPermission, wakeups)
    else match ParseAlarmTime(a.time)
      case None => (MalformedTime, wakeups)
      case Some(t) =>
        if refusesExact then (PermissionDenied, wakeups)
        else
          var at := NextTrigger(now, t);
          (Registered(at), wakeups[a.id := Wakeup(AlarmClock, at, AlarmIntent(a))])
  }

  /** A registered trigger lies in the coming day, at the alarm's time of day to the millisecond. */
  lemma RegisteredTriggerIsNext(gated: bool, refusesExact: bool, wakeups: map<int, Wakeup>, a: Alarm, now: int)
    requires ScheduleEffect(gated, refusesExact, wakeups, a, now).0.Registered?
    ensures var at := ScheduleEffect(gated, refusesExact, wakeups, a, now).0.triggerAtMillis;
      && now <= at < now + DAY_MS
      && at % DAY_MS == MillisOfDay(ParseAlarmTime(a.time).value)
  {
  }

  /** Scheduling twice leaves one registration under the id, the later one. */
  lemma RescheduleReplaces(wakeups: map<int, Wakeup>, a: Alarm, b: Alarm, now1: int, now2: int)
    requires a.id == b.id
    requires ParseAlarmTime(b.time).Some?
    ensures var w1 := ScheduleEffect(false, false, wakeups, a, now1).1;
      var w2 := ScheduleEffect(false, false, w1, b, now2).1;
      && w2 == wakeups[b.id := Wakeup(AlarmClock, NextTrigger(now2, ParseAlarmTime(b.time).value), AlarmIntent(b))]
  {
  }

  class AlarmScheduler {
    const manager: AlarmManager
    /** Whether the device runs Android 12 (API level 31) or later. */
    const atLeastS: bool
    /** Activities launched by the scheduler, oldest first. */
    var launched: seq<Intent>

    constructor(manager: AlarmManager, atLeastS: bool)
      ensures this.manager == manager && this.atLeastS == atLeastS && launched == []
    {
      this.manager := manager;
      this.atLeastS := atLeastS;
      launched := [];
    }

    /** Whether `schedule` stops at the exact-alarm permission gate. */
    predicate Gated()
      reads this, manager
    {
      atLeastS && !manager.canScheduleExact
    }

    method Schedule(a: Alarm, now: int) returns (outcome: ScheduleOutcome)
      modifies this, manager
      ensures (outcome, manager.wakeups) == ScheduleEffect(Gated(), manager.refusesExact, old(manager.wakeups), a, now)
      ensures launched == if Gated() then old(launched) + [PERMISSION_PROMPT] else old(launched)
    {
      if atLeastS && !manager.canScheduleExact {
        launched := launched + [PERMISSION_PROMPT];
        return PromptedForPermission;
      }
      var intent := AlarmIntent(a);
      var parsed := ParseAlarmTime(a.time);
      if parsed.None? {
        return MalformedTime;
      }
      var at := NextTrigger(now, parsed.value);
      var thrown := manager.SetAlarmClock(a.id, at, intent);
      if thrown {
        outcome := PermissionDenied;
      } else {
        outcome := Registered(at);
      }
    }

    method Cancel(a: Alarm)
      modifies manager
      ensures manager.wakeups == old(manager.wakeups) - {a.id}
    {
      manager.Cancel(a.id);
    }
  }
}
