/**
 * The alarm list screen: the "Alarm in …" headline computed from the stored
 * alarms, and the two handlers that write to the store and then to the
 * scheduler (the switch on a card, and saving the "New Alarm" sheet).
 */
module AlarmList {
  import opened Common
  import opened Text
  import opened AlarmData
  import opened AlarmStore
  import opened AlarmPlatform
  import opened Scheduling
  import opened AlarmCardView
  import opened AddAlarm

  /**
   * The instant the headline counts down to for time of day t: today at t when
   * that is strictly after now, otherwise tomorrow at t.
   */
  function Candidate(now: int, t: TimeOfDay): (r: int)
    requires ValidTimeOfDay(t)
    ensures now < r <= now + DAY_MS
    ensures r % DAY_MS == MillisOfDay(t)
    ensures forall x :: now < x && x % DAY_MS == MillisOfDay(t) ==> r <= x
  {
    var today := now - now % DAY_MS + MillisOfDay(t);
    var r := if today > now then today else today + DAY_MS;
    assert r % DAY_MS == MillisOfDay(t) by {
      assert today == (now / DAY_MS) * DAY_MS + MillisOfDay(t);
      DayAligned(now / DAY_MS, MillisOfDay(t));
      DayAligned(now / DAY_MS + 1, MillisOfDay(t));
    }
    forall x | now < x && x % DAY_MS == MillisOfDay(t)
      ensures r <= x
    {
      SameTimeOfDay(x, r);
    }
    r
  }

  /** The headline's candidate is the scheduler's trigger one millisecond later. */
  lemma CandidateIsTriggerAfterNow(now: int, t: TimeOfDay)
    requires ValidTimeOfDay(t)
    ensures Candidate(now, t) == NextTrigger(now + 1, t)
  {
    var c, n := Candidate(now, t), NextTrigger(now + 1, t);
    assert c <= n && n <= c;
  }

  /** At the very millisecond of an alarm, the scheduler fires it now but the headline waits a day. */
  lemma EqualityPolicyDiffers(now: int, t: TimeOfDay)
    requires ValidTimeOfDay(t) && now % DAY_MS == MillisOfDay(t)
    ensures NextTrigger(now, t) == now
    ensures Candidate(now, t) == now + DAY_MS
  {
    var c := Candidate(now, t);
    assert (now + DAY_MS) % DAY_MS == MillisOfDay(t) by {
      DayAligned(now / DAY_MS + 1, MillisOfDay(t));
    }
  }

  datatype NextAlarm =
    | NoActive
    /** An active alarm's time does not parse: the exception escapes the composition. */
    | Unparseable
    | At(instant: int)

  predicate ParsesAsClockTime(a: Alarm) {
    ParseClockTime(a.time).Some?
  }

  /** The earliest candidate over the active alarms (`filter`, `map`, `minOrNull`). */
  function Earliest(alarms: seq<Alarm>, now: int): NextAlarm
    decreases |alarms|
  {
    if alarms == [] then NoActive
    else
      var rest := Earliest(alarms[1..], now);
      var a := alarms[0];
      if !a.isActive then rest
      else match ParseClockTime(a.time)
        case None => Unparseable
        case Some(t) =>
          var c := Candidate(now, t);
          match rest
          case NoActive => At(c)
          case Unparseable => Unparseable
          case At(x) => At(if c <= x then c else x)
  }

  /**
   * There is no next alarm exactly when no alarm is active; the computation
   * throws exactly when some active alarm's time does not parse; otherwise the
   * result is the candidate of some active alarm and no later than any.
   */
  lemma {:induction false} EarliestMeaning(alarms: seq<Alarm>, now: int)
    ensures Earliest(alarms, now) == NoActive <==> forall i :: 0 <= i < |alarms| ==> !alarms[i].isActive
    ensures Earliest(alarms, now) == Unparseable <==>
      exists i :: 0 <= i < |alarms| && alarms[i].isActive && !ParsesAsClockTime(alarms[i])
    ensures Earliest(alarms, now).At? ==>
      && (exists i :: 0 <= i < |alarms| && alarms[i].isActive && ParsesAsClockTime(alarms[i])
            && Earliest(alarms, now).instant == Candidate(now, ParseClockTime(alarms[i].time).value))
      && (forall i :: 0 <= i < |alarms| && alarms[i].isActive ==>
            ParsesAsClockTime(alarms[i]) && Earliest(alarms, now).instant <= Candidate(now, ParseClockTime(alarms[i].time).value))
    decreases |alarms|
  {
    if alarms != [] {
      var tail := alarms[1..];
      EarliestMeaning(tail, now);
      assert forall i :: 1 <= i < |alarms| ==> alarms[i] == tail[i - 1];
      var r := Earliest(alarms, now);
      if r.At? && alarms[0].isActive {
        var c := Candidate(now, ParseClockTime(alarms[0].time).value);
        if Earliest(tail, now).At? && r.instant != c {
          var j :| 0 <= j < |tail| && tail[j].isActive && ParsesAsClockTime(tail[j])
            && Earliest(tail, now).instant == Candidate(now, ParseClockTime(tail[j].time).value);
          assert alarms[j + 1] == tail[j];
        }
      } else if r.At? {
        var j :| 0 <= j < |tail| && tail[j].isActive && ParsesAsClockTime(tail[j])
          && Earliest(tail, now).instant == Candidate(now, ParseClockTime(tail[j].time).value);
        assert alarms[j + 1] == tail[j];
      }
      if r == Unparseable && !(alarms[0].isActive && !ParsesAsClockTime(alarms[0])) {
        var j :| 0 <= j < |tail| && tail[j].isActive && !ParsesAsClockTime(tail[j]);
        assert alarms[j + 1] == tail[j];
      }
    }
  }

  /** An inactive alarm, wherever it sits in the list, does not affect the headline. */
  lemma {:induction false} InactiveIsIgnored(xs: seq<Alarm>, a: Alarm, ys: seq<Alarm>, now: int)
    requires !a.isActive
    ensures Earliest(xs + [a] + ys, now) == Earliest(xs + ys, now)
    decreases |xs|
  {
    if xs == [] {
      assert (xs + [a] + ys)[1..] == ys;
      assert xs + ys == ys;
    } else {
      InactiveIsIgnored(xs[1..], a, ys, now);
      assert (xs + [a] + ys)[1..] == xs[1..] + [a] + ys;
      assert (xs + ys)[1..] == xs[1..] + ys;
    }
  }

  /** Whole hours and the minutes past them in a duration (`toHours()`, `toMinutes() % 60`). */
  function HoursAndMinutes(durationMs: int): (r: (int, int))
    requires durationMs >= 0
    ensures r.0 >= 0 && 0 <= r.1 < 60
    ensures r.0 * 60 + r.1 == durationMs / MINUTE_MS
  {
    (durationMs / HOUR_MS, (durationMs / MINUTE_MS) % 60)
  }

  function HeadlineFor(durationMs: int): string
    requires durationMs >= 0
  {
    var (h, m) := HoursAndMinutes(durationMs);
    if h > 0 then "Alarm in " + IntToString(h) + "h " + IntToString(m) + "m"
    else "Alarm in " + IntToString(m) + "m"
  }

  /** A next alarm always lies after now and at most a day later. */
  lemma {:induction false} EarliestWithinADay(alarms: seq<Alarm>, now: int)
    ensures Earliest(alarms, now).At? ==> now < Earliest(alarms, now).instant <= now + DAY_MS
    decreases |alarms|
  {
    if alarms != [] {
      EarliestWithinADay(alarms[1..], now);
    }
  }

  datatype Headline = Hidden | Shown(text: string) | Throws

  /** `calculateNextAlarmText` at `now`. */
  function NextAlarmText(alarms: seq<Alarm>, now: int): (r: Headline)
    ensures r == Hidden <==> Earliest(alarms, now) == NoActive
    ensures r == Throws <==> Earliest(alarms, now) == Unparseable
    ensures Earliest(alarms, now).At? ==>
      var d := Earliest(alarms, now).instant - now;
      0 < d <= DAY_MS && r == Shown(HeadlineFor(d))
  {
    EarliestWithinADay(alarms, now);
    match Earliest(alarms, now)
    case NoActive => Hidden
    case Unparseable => Throws
    case At(x) => Shown(HeadlineFor(x - now))
  }

  /** The headline is at most a day away: at most "Alarm in 24h 0m". */
  lemma HeadlineWithinADay(alarms: seq<Alarm>, now: int)
    requires Earliest(alarms, now).At?
    ensures var d := Earliest(alarms, now).instant - now;
      0 < d <= DAY_MS && HoursAndMinutes(d).0 <= 24
  {
    EarliestWithinADay(alarms, now);
  }

  /**
   * The card switch: store `isActive = isChecked` on the card's copy of the
   * row, then schedule that copy when checked and cancel it otherwise.
   */
  method OnToggle(dao: AlarmDao, scheduler: AlarmScheduler, alarm: Alarm, isChecked: bool, now: int)
    returns (scheduled: Option<ScheduleOutcome>)
    requires dao.Valid()
    modifies dao, scheduler, scheduler.manager
    ensures dao.Valid() && dao.nextId == old(dao.nextId)
    ensures var updated := alarm.(isActive := isChecked);
      dao.rows == if updated.id in old(dao.rows) then old(dao.rows)[updated.id := updated] else old(dao.rows)
    ensures var updated := alarm.(isActive := isChecked);
      isChecked ==>
        var effect := ScheduleEffect(scheduler.Gated(), scheduler.manager.refusesExact, old(scheduler.manager.wakeups), updated, now);
        scheduled == Some(effect.0) && scheduler.manager.wakeups == effect.1
    ensures !isChecked ==> scheduled == None && scheduler.manager.wakeups == old(scheduler.manager.wakeups) - {alarm.id}
    ensures scheduler.launched ==
      if isChecked && scheduler.Gated() then old(scheduler.launched) + [PERMISSION_PROMPT] else old(scheduler.launched)
  {
    var updated := alarm.(isActive := isChecked);
    dao.UpdateAlarm(updated);
    if isChecked {
      var outcome := scheduler.Schedule(updated, now);
      scheduled := Some(outcome);
    } else {
      scheduler.Cancel(updated);
      scheduled := None;
    }
  }

  /**
   * Saving the "New Alarm" sheet: insert an active alarm with the sheet's
   * arguments, read back the latest row and schedule it, then close the sheet.
   * The latest row is the one just inserted, because its assigned id is the
   * largest. An exception from scheduling leaves the sheet open.
   */
  method OnAdd(dao: AlarmDao, scheduler: AlarmScheduler, args: SaveArguments, now: int)
    returns (inserted: Alarm, scheduled: ScheduleOutcome, sheetClosed: bool)
    requires dao.Valid()
    modifies dao, scheduler, scheduler.manager
    ensures dao.Valid() && dao.nextId == old(dao.nextId) + 1
    ensures inserted == Alarm(id := old(dao.nextId), time := args.time, labelText := args.labelText, tag := args.tag,
      colorArgb := args.colorArgb, isActive := true)
    ensures inserted.id !in old(dao.rows) && dao.rows == old(dao.rows)[inserted.id := inserted]
    ensures forall id :: id in old(dao.rows) ==> id < inserted.id
    ensures var effect := ScheduleEffect(scheduler.Gated(), scheduler.manager.refusesExact, old(scheduler.manager.wakeups), inserted, now);
      scheduled == effect.0 && scheduler.manager.wakeups == effect.1
    ensures scheduler.launched == if scheduler.Gated() then old(scheduler.launched) + [PERMISSION_PROMPT] else old(scheduler.launched)
    ensures forall l :: ListedDescending(l, old(dao.rows)) ==> ListedDescending([inserted] + l, dao.rows)
    ensures sheetClosed <==> scheduled != MalformedTime
  {
    ghost var rows0, next0 := dao.rows, dao.nextId;
    var newAlarm := Alarm(time := args.time, labelText := args.labelText, tag := args.tag, colorArgb := args.colorArgb,
      isActive := true);
    var outcome := dao.InsertAlarm(newAlarm);
    inserted := newAlarm.(id := outcome.id);
    forall l | ListedDescending(l, rows0)
      ensures ListedDescending([inserted] + l, dao.rows)
    {
      InsertedIsListedFirst(l, rows0, next0, inserted);
    }
    var latest := dao.GetLatestAlarm();
    assert latest == Some(inserted) by {
      assert inserted.id in dao.rows;
      assert latest.value.id <= inserted.id && inserted.id <= latest.value.id;
    }
    scheduled := scheduler.Schedule(latest.value, now);
    sheetClosed := scheduled != MalformedTime;
  }
}
