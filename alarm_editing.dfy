/**
 * The "Edit Alarm" screen: its picker and option state, loading that state
 * from the stored alarm, and the save and delete sequences against the store
 * and the scheduler.
 */
module AlarmEditing {
  import opened Common
  import opened Text
  import opened AlarmData
  import opened AlarmStore
  import opened Scheduling

  /** What loading does to the time picker with a stored `time`. */
  datatype PickerLoad =
    /** The time does not split into exactly two fields: the picker keeps its value. */
    | KeepPicker
    | SetPicker(hour: int, minute: int)
    /** The first field is not an integer: `toInt()` throws before anything is assigned. */
    | FailsAtHour
    /** The second field is not an integer: the hour is already assigned when `toInt()` throws. */
    | FailsAtMinute(hour: int)

  function ReadPickerTime(time: string): (r: PickerLoad)
    ensures r.KeepPicker? <==> |Split(time, ':')| != 2
    ensures r.SetPicker? ==> ToInt(Split(time, ':')[0]) == Some(r.hour) && ToInt(Split(time, ':')[1]) == Some(r.minute)
    ensures r.FailsAtMinute? ==> ToInt(Split(time, ':')[0]) == Some(r.hour) && ToInt(Split(time, ':')[1]).None?
    ensures r.FailsAtHour? ==> ToInt(Split(time, ':')[0]).None?
  {
    var parts := Split(time, ':');
    if |parts| != 2 then KeepPicker
    else match ToInt(parts[0])
      case None => FailsAtHour
      case Some(h) =>
        match ToInt(parts[1])
        case None => FailsAtMinute(h)
        case Some(m) => SetPicker(h, m)
  }

  /** A time written by any save button loads back into the picker unchanged. */
  lemma LoadsSavedTime(t: TimeOfDay)
    requires ValidTimeOfDay(t)
    ensures ReadPickerTime(FormatAlarmTime(t.hour, t.minute)) == SetPicker(t.hour, t.minute)
  {
    var a, b := Pad2(t.hour), Pad2(t.minute);
    Pad2Value(t.hour);
    Pad2Value(t.minute);
    assert ':' !in a && ':' !in b by {
      assert forall i :: 0 <= i < |a| ==> IsDigit(a[i]);
      assert forall i :: 0 <= i < |b| ==> IsDigit(b[i]);
    }
    assert FormatAlarmTime(t.hour, t.minute) == Join([a, b], ':');
    SplitOfJoin([a, b], ':');
    ToIntOfPad2(t.hour);
    ToIntOfPad2(t.minute);
  }

  /** When loading sets a valid picker time, the scheduler reads the same time of day. */
  lemma LoadAgreesWithScheduler(time: string)
    requires ReadPickerTime(time).SetPicker?
    requires ValidTimeOfDay(TimeOfDay(ReadPickerTime(time).hour, ReadPickerTime(time).minute))
    ensures ParseAlarmTime(time) == Some(TimeOfDay(ReadPickerTime(time).hour, ReadPickerTime(time).minute))
  {
  }

  /** A time with more than two fields is scheduled by its first two but ignored by the editor. */
  lemma ExtraFieldsDivergeFromScheduler(time: string)
    requires |Split(time, ':')| > 2 && ParseAlarmTime(time).Some?
    ensures ReadPickerTime(time) == KeepPicker
  {
  }

  class AlarmEditor {
    /** The id from the route (`edit_alarm/{alarmId}`). */
    const alarmId: int
    /** The time picker (`rememberTimePickerState()`, which starts at 00:00). */
    var hour: int
    var minute: int
    var labelText: string
    var isVibrationEnabled: bool
    var isSnoozeEnabled: bool
    var showLabelDialog: bool
    /** Whether `onSave` has been called (the screen navigates back). */
    var navigatedBack: bool

    constructor(alarmId: int)
      ensures this.alarmId == alarmId && hour == 0 && minute == 0 && labelText == ""
      ensures isVibrationEnabled && isSnoozeEnabled && !showLabelDialog && !navigatedBack
    {
      this.alarmId := alarmId;
      hour, minute := 0, 0;
      labelText := "";
      isVibrationEnabled, isSnoozeEnabled := true, true;
      showLabelDialog, navigatedBack := false, false;
    }

    /** The value shown in the "Label" row. */
    function LabelValue(): (r: string)
      reads this
      ensures IsBlank(labelText) ==> r == "Alarm"
      ensures !IsBlank(labelText) ==> r == labelText
    {
      IfBlank(labelText, "Alarm")
    }

    /**
     * The launched effect: read the alarm by id and copy its time, label and
     * flags into the screen's state. `crashed` is an uncaught `toInt()` failure,
     * which stops the effect after whatever it already assigned.
     */
    method Load(dao: AlarmDao) returns (crashed: bool)
      requires dao.Valid()
      modifies this
      ensures unchanged(dao)
      ensures showLabelDialog == old(showLabelDialog) && navigatedBack == old(navigatedBack)
      ensures alarmId !in dao.rows ==>
        !crashed && hour == old(hour) && minute == old(minute) && labelText == old(labelText)
        && isSnoozeEnabled == old(isSnoozeEnabled) && isVibrationEnabled == old(isVibrationEnabled)
      ensures alarmId in dao.rows ==>
        var a := dao.rows[alarmId];
        match ReadPickerTime(a.time)
        case KeepPicker =>
          !crashed && hour == old(hour) && minute == old(minute)
          && labelText == a.labelText && isSnoozeEnabled == a.isSnoozeEnabled && isVibrationEnabled == a.isVibrationEnabled
        case SetPicker(h, m) =>
          !crashed && hour == h && minute == m
          && labelText == a.labelText && isSnoozeEnabled == a.isSnoozeEnabled && isVibrationEnabled == a.isVibrationEnabled
        case FailsAtHour =>
          crashed && hour == old(hour) && minute == old(minute) && labelText == old(labelText)
          && isSnoozeEnabled == old(isSnoozeEnabled) && isVibrationEnabled == old(isVibrationEnabled)
        case FailsAtMinute(h) =>
          crashed && hour == h && minute == old(minute) && labelText == old(labelText)
          && isSnoozeEnabled == old(isSnoozeEnabled) && isVibrationEnabled == old(isVibrationEnabled)
    {
      crashed := false;
      var found := dao.GetAlarmById(alarmId);
      if found.Some? {
        var a := found.value;
        var parts := Split(a.time, ':');
        if |parts| == 2 {
          var h := ToInt(parts[0]);
          if h.None? {
            return true;
          }
          hour := h.value;
          var m := ToInt(parts[1]);
          if m.None? {
            return true;
          }
          minute := m.value;
        }
        labelText := a.labelText;
        isSnoozeEnabled := a.isSnoozeEnabled;
        isVibrationEnabled := a.isVibrationEnabled;
      }
    }

    method SetSnoozeEnabled(b: bool)
      modifies this
      ensures isSnoozeEnabled == b
      ensures hour == old(hour) && minute == old(minute) && labelText == old(labelText)
      ensures isVibrationEnabled == old(isVibrationEnabled) && showLabelDialog == old(showLabelDialog)
      ensures navigatedBack == old(navigatedBack)
    {
      isSnoozeEnabled := b;
    }

    method SetVibrationEnabled(b: bool)
      modifies this
      ensures isVibrationEnabled == b
      ensures hour == old(hour) && minute == old(minute) && labelText == old(labelText)
      ensures isSnoozeEnabled == old(isSnoozeEnabled) && showLabelDialog == old(showLabelDialog)
      ensures navigatedBack == old(navigatedBack)
    {
      isVibrationEnabled := b;
    }

    method OpenLabelDialog()
      modifies this
      ensures showLabelDialog
      ensures hour == old(hour) && minute == old(minute) && labelText == old(labelText)
      ensures isSnoozeEnabled == old(isSnoozeEnabled) && isVibrationEnabled == old(isVibrationEnabled)
      ensures navigatedBack == old(navigatedBack)
    {
      showLabelDialog := true;
    }

    /** "OK" in the label dialog: the typed text is taken as it is, untrimmed, and the dialog closes. */
    method ConfirmLabel(text: string)
      modifies this
      ensures labelText == text && !showLabelDialog
      ensures hour == old(hour) && minute == old(minute)
      ensures isSnoozeEnabled == old(isSnoozeEnabled) && isVibrationEnabled == old(isVibrationEnabled)
      ensures navigatedBack == old(navigatedBack)
    {
      labelText := text;
      showLabelDialog := false;
    }

    /** "Cancel" in the label dialog, or a tap outside it. */
    method DismissLabelDialog()
      modifies this
      ensures !showLabelDialog
      ensures hour == old(hour) && minute == old(minute) && labelText == old(labelText)
      ensures isSnoozeEnabled == old(isSnoozeEnabled) && isVibrationEnabled == old(isVibrationEnabled)
      ensures navigatedBack == old(navigatedBack)
    {
      showLabelDialog := false;
    }

    /** The stored row as the save button rewrites it: id, tag and colour are kept. */
    function Edited(original: Alarm): (r: Alarm)
      reads this
      ensures r.id == original.id && r.tag == original.tag && r.colorArgb == original.colorArgb
      ensures r.time == FormatAlarmTime(hour, minute) && r.labelText == labelText && r.isActive
      ensures r.isSnoozeEnabled == isSnoozeEnabled && r.isVibrationEnabled == isVibrationEnabled
    {
      original.(time := FormatAlarmTime(hour, minute), labelText := labelText, isActive := true,
        isSnoozeEnabled := isSnoozeEnabled, isVibrationEnabled := isVibrationEnabled)
    }

    /**
     * "Save": re-read the alarm, store the edited copy and schedule it, then
     * navigate back. A missing alarm changes nothing. A time the scheduler cannot
     * parse (a picker value out of range) throws out of the coroutine before the
     * screen navigates back.
     */
    method Save(dao: AlarmDao, scheduler: AlarmScheduler, now: int) returns (scheduled: Option<ScheduleOutcome>)
      requires dao.Valid()
      modifies this, dao, scheduler, scheduler.manager
      ensures dao.Valid() && dao.nextId == old(dao.nextId)
      ensures hour == old(hour) && minute == old(minute) && labelText == old(labelText)
      ensures isSnoozeEnabled == old(isSnoozeEnabled) && isVibrationEnabled == old(isVibrationEnabled)
      ensures showLabelDialog == old(showLabelDialog)
      ensures alarmId !in old(dao.rows) ==>
        scheduled == None && dao.rows == old(dao.rows)
        && scheduler.manager.wakeups == old(scheduler.manager.wakeups) && navigatedBack
      ensures alarmId in old(dao.rows) ==>
        var updated := Edited(old(dao.rows)[alarmId]);
        var effect := ScheduleEffect(scheduler.Gated(), scheduler.manager.refusesExact, old(scheduler.manager.wakeups), updated, now);
        && dao.rows == old(dao.rows)[alarmId := updated]
        && scheduled == Some(effect.0) && scheduler.manager.wakeups == effect.1
        && (navigatedBack <==> effect.0 != MalformedTime || old(navigatedBack))
      ensures scheduler.launched ==
        if alarmId in old(dao.rows) && scheduler.Gated() then old(scheduler.launched) + [PERMISSION_PROMPT]
        else old(scheduler.launched)
    {
      var original := dao.GetAlarmById(alarmId);
      if original.Some? {
        var updated := Edited(original.value);
        dao.UpdateAlarm(updated);
        var outcome := scheduler.Schedule(updated, now);
        scheduled := Some(outcome);
        if outcome == MalformedTime {
          return;
        }
      } else {
        scheduled := None;
      }
      navigatedBack := true;
    }

    /** "Delete Alarm": cancel the wake-up, then remove the row, then navigate back. */
    method Delete(dao: AlarmDao, scheduler: AlarmScheduler)
      requires dao.Valid()
      modifies this, dao, scheduler.manager
      ensures dao.Valid() && dao.nextId == old(dao.nextId)
      ensures hour == old(hour) && minute == old(minute) && labelText == old(labelText)
      ensures isSnoozeEnabled == old(isSnoozeEnabled) && isVibrationEnabled == old(isVibrationEnabled)
      ensures showLabelDialog == old(showLabelDialog) && navigatedBack
      ensures alarmId !in old(dao.rows) ==>
        dao.rows == old(dao.rows) && scheduler.manager.wakeups == old(scheduler.manager.wakeups)
      ensures alarmId in old(dao.rows) ==>
        dao.rows == old(dao.rows) - {alarmId} && scheduler.manager.wakeups == old(scheduler.manager.wakeups) - {alarmId}
    {
      var found := dao.GetAlarmById(alarmId);
      if found.Some? {
        scheduler.Cancel(found.value);
        dao.DeleteAlarm(found.value);
      }
      navigatedBack := true;
    }
  }
}
