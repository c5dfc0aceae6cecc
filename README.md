# Clock app core, modelled in Dafny

A model of the logic layer of an Android clock app: alarms (the Room table of
alarms, the scheduler that registers one wake-up per alarm with the system
alarm manager, the receiver that turns a delivered broadcast into a command,
the ringing service, the full-screen ringing activity, and the screens that
list, add, edit and delete alarms), the countdown timer and the stopwatch
(their view models, their foreground services and their text formats), the
world-clock list (add, remove, the zone picker's filter, sort and search, the
card's city name and hour offset), the app shell's navigation rules and the
appearance settings.

Time is epoch milliseconds as an unbounded `int`, with the local zone taken
as UTC and every day 86 400 000 ms long. Strings are sequences of characters.
The Android alarm manager is a map from request code to a pending wake-up;
intents are a target, an optional action and typed extras, read with the
getters' documented defaults.

Where an object of the app changes its own fields (the DAO, the scheduler, the
services, the view models, the world-clock list, the editor's screen state, the
appearance settings) the model is a class whose methods state the whole new
state; everything else is functions and lemmas.

Behaviour of the code worth knowing, each stated as a proved lemma:

- The scheduler keeps an alarm for today when its time equals now, while the
  "Alarm in ..." headline rolls it to tomorrow (`AlarmList.EqualityPolicyDiffers`).
- The broadcast the scheduler registers has no action, so the receiver drops
  it, and the receiver reads a long `"alarm_id"` while the scheduler writes an
  int `"ALARM_ID"`; a scheduled alarm therefore never rings
  (`Receiving.ScheduledBroadcastIsDropped`, `Receiving.ScheduledIdIsNotForwarded`,
  `Ringing.ForwardedCommandUsesDefaults`, `Scenarios.ScheduledAlarmNeverRings`).
- `snoozeAlarm(id)` registers under the id it is given, so with the alarm's
  own id it would replace the daily wake-up
  (`Scenarios.SnoozeUnderAlarmIdReplacesWakeup`); no path in the app passes
  that id, so an in-app snooze is added under key 0 beside the daily wake-up
  (`Scenarios.ScreenSnoozeAddsWakeupZero`).
- The timer's "Timer Finished" screen is the alarm's ringing screen: it shows
  "Alarm", offers Snooze, and its buttons go to the alarm service
  (`TriggerScreen.TimerFinishedScreen`).
- The notification's and the ringing screen's snooze commands carry no extras,
  so the service snoozes alarm 0 under the label "Alarm"
  (`Ringing.NotificationSnoozeUsesIdZero`, `TriggerScreen.ScreenSnoozeUsesIdZero`).
- The snooze button says five minutes, the service waits ten
  (`TriggerScreen.SnoozeWaitsTwiceTheAdvertisedTime`).
- The timer's "+1m" is never sent to the timer service, so the service rings
  when the original time is up (`Scenarios.AddedMinuteIsNotHeardByService`),
  and pressed while paused it is lost on resume (`Scenarios.AddedMinuteLostWhilePaused`).
- The card reads "24:00" as midnight while the scheduler rejects it
  (`AlarmCardView.TwentyFourHundred`).
- The `?: -1` fallback for the editor's id (ui/ClockApp.kt:200) applies only
  when there is no argument bundle at all; `Bundle.getInt` already returns 0
  for a missing key (`AppShell.EditAlarmId`).

## Model

| member | source | states |
|---|---|---|
| AlarmData.Defaults | app/src/main/java/in/visheshraghuvanshi/clock/features/alarm/data/AlarmEntity.kt:7-15 | a record built from time, label and colour has id 0, an empty tag, and is active with snooze and vibration on |
| AlarmStore.MaxOf | app/src/main/java/in/visheshraghuvanshi/clock/features/alarm/data/AlarmDao.kt:12-13 | the chosen id is in the set and no id in it is larger |
| AlarmStore.AlarmDao.constructor | app/src/main/java/in/visheshraghuvanshi/clock/features/alarm/data/AlarmDao.kt:12-28 | a new table is empty, valid, and its next id is 1 |
| AlarmStore.AlarmDao.GetAllAlarms | app/src/main/java/in/visheshraghuvanshi/clock/features/alarm/data/AlarmDao.kt:12-13 | the listing holds every row exactly once, each as stored, in strictly descending id order |
| AlarmStore.AlarmDao.GetAlarmById | app/src/main/java/in/visheshraghuvanshi/clock/features/alarm/data/AlarmDao.kt:15-16 | a row is returned exactly when the id is stored, and it is the stored row |
| AlarmStore.AlarmDao.GetLatestAlarm | app/src/main/java/in/visheshraghuvanshi/clock/features/alarm/data/AlarmDao.kt:18-19 | null exactly for an empty table; otherwise a stored row whose id is the largest |
| AlarmStore.AlarmDao.InsertAlarm | app/src/main/java/in/visheshraghuvanshi/clock/features/alarm/data/AlarmDao.kt:21-22 | id 0 gets the next id; a taken id fails and changes nothing; otherwise exactly one row is added under a fresh id and the table stays valid |
| AlarmStore.AlarmDao.UpdateAlarm | app/src/main/java/in/visheshraghuvanshi/clock/features/alarm/data/AlarmDao.kt:27-28 | the row with the same id is replaced, an absent id changes nothing, other rows are kept |
| AlarmStore.AlarmDao.DeleteAlarm | app/src/main/java/in/visheshraghuvanshi/clock/features/alarm/data/AlarmDao.kt:24-25 | exactly the row with that id is removed, whatever the other fields of the argument hold |
| AlarmStore.ListingStep | app/src/main/java/in/visheshraghuvanshi/clock/features/alarm/data/AlarmDao.kt:12-13 | taking the largest remaining id extends a partial descending listing |
| AlarmStore.InsertedIsListedFirst | app/src/main/java/in/visheshraghuvanshi/clock/features/alarm/data/AlarmDao.kt:12-22 | a row inserted under the next assigned id heads the new descending listing, with the earlier listing below it unchanged |
| AlarmStore.ListingUnique | app/src/main/java/in/visheshraghuvanshi/clock/features/alarm/data/AlarmDao.kt:12-13 | any two descending listings of the same table are equal |
| AlarmStore.TailListed | app/src/main/java/in/visheshraghuvanshi/clock/features/alarm/data/AlarmDao.kt:12-13 | dropping the head of a listing lists the table without that row |
| AlarmStore.ListingHead | app/src/main/java/in/visheshraghuvanshi/clock/features/alarm/data/AlarmDao.kt:12-13 | a listing is empty exactly when the table is, and its head has the largest id |
| AlarmStore.LatestIsHeadOfAll | app/src/main/java/in/visheshraghuvanshi/clock/features/alarm/data/AlarmDao.kt:18-19 | the latest alarm is null for an empty listing and otherwise the listing's head |
| AlarmPlatform.AlarmManager.constructor | app/src/main/java/in/visheshraghuvanshi/clock/features/alarm/logic/AlarmScheduler.kt:20-29 | the wake-up table starts empty; the exact-alarm permission and refusal are fixed |
| AlarmPlatform.AlarmManager.SetAlarmClock | app/src/main/java/in/visheshraghuvanshi/clock/features/alarm/logic/AlarmScheduler.kt:57-65 | when the system refuses it throws and the table is unchanged, otherwise the request code maps to the new alarm-clock wake-up, replacing any earlier one |
| AlarmPlatform.AlarmManager.SetExactAndAllowWhileIdle | app/src/main/java/in/visheshraghuvanshi/clock/features/alarm/logic/AlarmService.kt:90-94 | the same for an exact wake-up allowed while idle |
| AlarmPlatform.AlarmManager.Cancel | app/src/main/java/in/visheshraghuvanshi/clock/features/alarm/logic/AlarmScheduler.kt:68-77 | the pending wake-up under the code is removed, and nothing happens when there is none |
| AlarmPlatform.AlarmManager.Fire | app/src/main/java/in/visheshraghuvanshi/clock/features/alarm/logic/AlarmReceiver.kt:9 | delivering a code hands out its broadcast once, or nothing when none is pending, and removes it |
| Scheduling.ParseAlarmTime | app/src/main/java/in/visheshraghuvanshi/clock/features/alarm/logic/AlarmScheduler.kt:38-40 | a parsed time has hour 0-23 and minute 0-59; anything else is rejected |
| Scheduling.ParseFormatted | app/src/main/java/in/visheshraghuvanshi/clock/features/alarm/logic/AlarmScheduler.kt:38-40 | every "HH:mm" the screens store parses back to its hour and minute |
| Scheduling.FormatAlarmTime | app/src/main/java/in/visheshraghuvanshi/clock/features/alarm/components/AddAlarmSheet.kt:86 | the stored "%02d:%02d" of the picker's hour and minute; ParseFormatted reads it back (defined, no contract) |
| Scheduling.NextTrigger | app/src/main/java/in/visheshraghuvanshi/clock/features/alarm/logic/AlarmScheduler.kt:42-46 | the trigger lies in [now, now + 24 h), has the alarm's time of day with zero seconds, and is the earliest such instant |
| Scheduling.MillisOfDay | app/src/main/java/in/visheshraghuvanshi/clock/features/alarm/logic/AlarmScheduler.kt:43 | the offset into a UTC day of a time of day, hour·3 600 000 + minute·60 000 (defined, no contract) |
| Scheduling.DayAligned | app/src/main/java/in/visheshraghuvanshi/clock/features/alarm/logic/AlarmScheduler.kt:42-46 | whole days plus a time of day keep that time of day |
| Scheduling.SameTimeOfDay | app/src/main/java/in/visheshraghuvanshi/clock/features/alarm/logic/AlarmScheduler.kt:42-46 | two instants with the same time of day are at least a day apart when they differ |
| Scheduling.EqualityStaysToday | app/src/main/java/in/visheshraghuvanshi/clock/features/alarm/logic/AlarmScheduler.kt:44 | an alarm whose time is exactly now fires now, not tomorrow |
| Scheduling.AlarmIntentCarriesFields | app/src/main/java/in/visheshraghuvanshi/clock/features/alarm/logic/AlarmScheduler.kt:31-36 | the registered broadcast goes to the receiver with no action and carries the alarm's id, label, vibration and snooze flags |
| Scheduling.AlarmIntent | app/src/main/java/in/visheshraghuvanshi/clock/features/alarm/logic/AlarmScheduler.kt:31-36 | the broadcast to the receiver with the alarm's id, label and flags; stated by AlarmIntentCarriesFields (defined, no contract) |
| Scheduling.ScheduleEffect | app/src/main/java/in/visheshraghuvanshi/clock/features/alarm/logic/AlarmScheduler.kt:20-65 | without permission the settings are prompted and nothing is registered; a malformed time and a refused registration leave the table unchanged; otherwise exactly the key a.id is set to the next trigger, other keys untouched |
| Scheduling.RegisteredTriggerIsNext | app/src/main/java/in/visheshraghuvanshi/clock/features/alarm/logic/AlarmScheduler.kt:42-46 | a registered trigger is within the coming day at the alarm's time of day |
| Scheduling.RescheduleReplaces | app/src/main/java/in/visheshraghuvanshi/clock/features/alarm/logic/AlarmScheduler.kt:50-55 | scheduling the same id twice leaves only the second registration |
| Scheduling.AlarmScheduler.constructor | app/src/main/java/in/visheshraghuvanshi/clock/features/alarm/logic/AlarmScheduler.kt:20-29 | the scheduler uses the given alarm manager and system version, and has launched nothing |
| Scheduling.AlarmScheduler.Gated | app/src/main/java/in/visheshraghuvanshi/clock/features/alarm/logic/AlarmScheduler.kt:21-22 | scheduling stops at the permission gate iff the device runs Android 12 or later and exact alarms are not allowed (defined, no contract) |
| Scheduling.AlarmScheduler.Schedule | app/src/main/java/in/visheshraghuvanshi/clock/features/alarm/logic/AlarmScheduler.kt:20-65 | outcome and new table are exactly ScheduleEffect; the permission prompt is launched exactly when gated |
| Scheduling.AlarmScheduler.Cancel | app/src/main/java/in/visheshraghuvanshi/clock/features/alarm/logic/AlarmScheduler.kt:68-77 | the registration under a.id is removed if there is one and every other is kept |
| Receiving.OnReceive | app/src/main/java/in/visheshraghuvanshi/clock/features/alarm/logic/AlarmReceiver.kt:9-24 | a command is produced iff the event exists with BOOT_COMPLETED or ALARM_TRIGGERED; it is START_ALARM to the service, carries only alarm_id, and carries it iff the id read is not -1 |
| Receiving.Accepted | app/src/main/java/in/visheshraghuvanshi/clock/features/alarm/logic/AlarmReceiver.kt:12-15 | the receiver acts only on BOOT_COMPLETED and ALARM_TRIGGERED (defined, no contract) |
| Receiving.ScheduledBroadcastIsDropped | app/src/main/java/in/visheshraghuvanshi/clock/features/alarm/logic/AlarmReceiver.kt:12-15 | the scheduler's own broadcast produces no command |
| Receiving.ScheduledIdIsNotForwarded | app/src/main/java/in/visheshraghuvanshi/clock/features/alarm/logic/AlarmReceiver.kt:20-22 | even with an accepted action the scheduler's broadcast forwards no id, since the keys differ |
| Ringing.ReadCommand | app/src/main/java/in/visheshraghuvanshi/clock/features/alarm/logic/AlarmService.kt:27-31 | action, label, id and flags are read with defaults "Alarm", 0, true and true, also without an intent |
| Ringing.MissingExtrasDefault | app/src/main/java/in/visheshraghuvanshi/clock/features/alarm/logic/AlarmService.kt:27-31 | an intent without extras yields exactly the defaults |
| Ringing.ForwardedCommandUsesDefaults | app/src/main/java/in/visheshraghuvanshi/clock/features/alarm/logic/AlarmService.kt:28-31 | every command the receiver sends is read as START_ALARM with all defaults |
| Ringing.CreateNotification | app/src/main/java/in/visheshraghuvanshi/clock/features/alarm/logic/AlarmService.kt:97-138 | titled "Alarm" with the label, ongoing; Dismiss first, followed by Snooze when snoozing is allowed and by nothing otherwise (two actions or one); opening the ringing screen with the label and snooze flag |
| Ringing.NotificationSnoozeUsesIdZero | app/src/main/java/in/visheshraghuvanshi/clock/features/alarm/logic/AlarmService.kt:111 | the notification's snooze action is read as snoozing alarm 0 as "Alarm" |
| Ringing.AlarmService.constructor | app/src/main/java/in/visheshraghuvanshi/clock/features/alarm/logic/AlarmService.kt:21-24 | no ringtone, no vibration, no notification, no stop requested |
| Ringing.AlarmService.SnoozeAlarm | app/src/main/java/in/visheshraghuvanshi/clock/features/alarm/logic/AlarmService.kt:76-95 | key id is registered at now + 600 000 ms with vibration and snooze forced on, replacing what was there; a refusal throws |
| Ringing.SnoozeIntent | app/src/main/java/in/visheshraghuvanshi/clock/features/alarm/logic/AlarmService.kt:78-83 | the snooze broadcast to the receiver with the id and label and vibration and snooze forced on (defined, no contract) |
| Ringing.AlarmService.StartRingtone | app/src/main/java/in/visheshraghuvanshi/clock/features/alarm/logic/AlarmService.kt:45-51 | a failed lookup changes nothing; otherwise the new ringtone replaces the field, and one still playing is left playing unreferenced |
| Ringing.AlarmService.OnStartCommand | app/src/main/java/in/visheshraghuvanshi/clock/features/alarm/logic/AlarmService.kt:26-74 | STOP stops with no registration; SNOOZE registers the snooze and stops, or crashes on a refusal without requesting a stop; anything else rings, vibrates iff asked, shows the notification whether or not the ringtone started, and is sticky; the ringtone field follows the lookup (playing, not playing, null, or unchanged when the lookup throws), and a ringtone still playing when it is replaced is left playing with nothing referring to it |
| Ringing.AlarmService.OnDestroy | app/src/main/java/in/visheshraghuvanshi/clock/features/alarm/logic/AlarmService.kt:140-144 | the ringtone stops and vibration and notification end |
| TriggerScreen.Flatten | app/src/main/java/in/visheshraghuvanshi/clock/features/alarm/ui/AlarmTriggerActivity.kt:79 | the same length, each newline, return and tab replaced by a space and nothing else changed |
| TriggerScreen.SanitiseLabel | app/src/main/java/in/visheshraghuvanshi/clock/features/alarm/ui/AlarmTriggerActivity.kt:78-80 | a missing label or one over 50 characters is "Alarm"; the result is at most 50 long, has no newline, return or tab, no outer whitespace, is empty iff the label is blank, and uses only the label's characters and spaces |
| TriggerScreen.FlattenedTrimmed | app/src/main/java/in/visheshraghuvanshi/clock/features/alarm/ui/AlarmTriggerActivity.kt:79 | trimming the flattened label removes every control character and is empty iff the label is blank |
| TriggerScreen.FlattenKeepsBlankness | app/src/main/java/in/visheshraghuvanshi/clock/features/alarm/ui/AlarmTriggerActivity.kt:79 | a label is blank exactly when its flattened form is |
| TriggerScreen.FlattenedChars | app/src/main/java/in/visheshraghuvanshi/clock/features/alarm/ui/AlarmTriggerActivity.kt:79 | the flattened label holds only spaces and characters of the label, none of them control characters |
| TriggerScreen.ReadScreen | app/src/main/java/in/visheshraghuvanshi/clock/features/alarm/ui/AlarmTriggerActivity.kt:78-81 | the screen shows the sanitised label and offers snooze as the intent says, defaulting to yes |
| TriggerScreen.OpenedFromNotification | app/src/main/java/in/visheshraghuvanshi/clock/features/alarm/logic/AlarmService.kt:114-118 | opened from the ringing notification the screen shows its sanitised label and its snooze choice |
| TriggerScreen.BlankLabelHidesPill | app/src/main/java/in/visheshraghuvanshi/clock/features/alarm/ui/AlarmTriggerActivity.kt:163 | a blank label of at most 50 characters shows as nothing, so no pill |
| TriggerScreen.ShowsLabelPill | app/src/main/java/in/visheshraghuvanshi/clock/features/alarm/ui/AlarmTriggerActivity.kt:163-177 | the label pill is drawn iff the shown label is non-empty (defined, no contract) |
| TriggerScreen.ShowsSnoozeButton | app/src/main/java/in/visheshraghuvanshi/clock/features/alarm/ui/AlarmTriggerActivity.kt:185-187 | the Snooze button is drawn iff the screen was told snoozing is allowed (defined, no contract) |
| TriggerScreen.Route | app/src/main/java/in/visheshraghuvanshi/clock/features/alarm/ui/AlarmTriggerActivity.kt:92-99 | snooze sends exactly SNOOZE_ALARM and dismiss exactly STOP_ALARM, with no extras |
| TriggerScreen.ScreenSnoozeUsesIdZero | app/src/main/java/in/visheshraghuvanshi/clock/features/alarm/ui/AlarmTriggerActivity.kt:92-95 | the screen's snooze is read by the service as snoozing alarm 0 as "Alarm" |
| TriggerScreen.TimerFinishedScreen | app/src/main/java/in/visheshraghuvanshi/clock/features/timer/logic/TimerService.kt:71-76 | the timer's finished screen reads no label or snooze flag, so it shows "Alarm" with a Snooze button, and both buttons address the alarm service |
| TriggerScreen.SnoozeWaitsTwiceTheAdvertisedTime | app/src/main/java/in/visheshraghuvanshi/clock/features/alarm/ui/AlarmTriggerActivity.kt:243 | the service's snooze delay is twice the advertised five minutes |
| AlarmCardView.ParseClockTime | app/src/main/java/in/visheshraghuvanshi/clock/features/alarm/components/AlarmCard.kt:37-43 | an accepted time is five characters with a colon in the middle and a valid hour and minute |
| AlarmCardView.ParseClockTimeFormatted | app/src/main/java/in/visheshraghuvanshi/clock/features/alarm/components/AlarmCard.kt:37-40 | every stored "HH:mm" is accepted with its hour and minute |
| AlarmCardView.ClockTimeAgreesWithScheduler | app/src/main/java/in/visheshraghuvanshi/clock/features/alarm/components/AlarmCard.kt:37-40 | what the card accepts the scheduler reads as the same time, except "24:00" |
| AlarmCardView.TwoDigitsBelow100 | app/src/main/java/in/visheshraghuvanshi/clock/features/alarm/components/AlarmCard.kt:37-40 | two digits read as a number below 100 |
| AlarmCardView.TwentyFourHundred | app/src/main/java/in/visheshraghuvanshi/clock/features/alarm/components/AlarmCard.kt:37-43 | the card shows "24:00" as midnight while the scheduler rejects it |
| AlarmCardView.Hour12 | app/src/main/java/in/visheshraghuvanshi/clock/features/alarm/components/AlarmCard.kt:39-40 | the 12-hour face: 0 becomes 12, 1-12 stay, 13-23 lose 12 |
| AlarmCardView.Marker | app/src/main/java/in/visheshraghuvanshi/clock/features/alarm/components/AlarmCard.kt:39-40 | pattern "a": "AM" before noon, "PM" from noon (defined, no contract) |
| AlarmCardView.Hour24 | app/src/main/java/in/visheshraghuvanshi/clock/features/alarm/components/AlarmCard.kt:39-40 | reads a 12-hour face and marker back as a 24-hour hour, the inverse used by TwelveHourFaceIsFaithful (defined, no contract) |
| AlarmCardView.TwelveHourFaceIsFaithful | app/src/main/java/in/visheshraghuvanshi/clock/features/alarm/components/AlarmCard.kt:39-40 | the face together with its marker determines the 24-hour hour |
| AlarmCardView.CardTime | app/src/main/java/in/visheshraghuvanshi/clock/features/alarm/components/AlarmCard.kt:37-43 | an unparsable time is shown raw with an empty marker; a parsed one as its 12-hour face and marker |
| AlarmCardView.CardShowsStoredTime | app/src/main/java/in/visheshraghuvanshi/clock/features/alarm/components/AlarmCard.kt:37-43 | a stored time shows as its 12-hour face with two-digit minutes and a shown marker |
| AlarmCardView.StoredTimeMarker | app/src/main/java/in/visheshraghuvanshi/clock/features/alarm/components/AlarmCard.kt:37-40 | the card of a stored time shows "am" before noon and "pm" from noon on |
| AlarmCardView.ShowsMarker | app/src/main/java/in/visheshraghuvanshi/clock/features/alarm/components/AlarmCard.kt:121 | the marker is drawn only when there is one (defined, no contract) |
| AlarmCardView.DisplayedMarker | app/src/main/java/in/visheshraghuvanshi/clock/features/alarm/components/AlarmCard.kt:123 | the marker is displayed lowercased (defined, no contract) |
| AlarmCardView.Title | app/src/main/java/in/visheshraghuvanshi/clock/features/alarm/components/AlarmCard.kt:76 | the title is "Alarm" only for an empty label and the label otherwise |
| AlarmCardView.ShowsTagBadge | app/src/main/java/in/visheshraghuvanshi/clock/features/alarm/components/AlarmCard.kt:85-88 | the tag badge is drawn iff the tag is non-empty (defined, no contract) |
| AddAlarm.SaveArgumentsOf | app/src/main/java/in/visheshraghuvanshi/clock/features/alarm/components/AddAlarmSheet.kt:86-87 | the tag is empty and the colour the default; a blank label becomes "Alarm", any other passes untrimmed |
| AddAlarm.SavedTimeReadsBack | app/src/main/java/in/visheshraghuvanshi/clock/features/alarm/components/AddAlarmSheet.kt:86 | the saved time reads back in the scheduler as the picker's hour and minute |
| AddAlarm.DefaultColorBits | app/src/main/java/in/visheshraghuvanshi/clock/features/alarm/components/AddAlarmSheet.kt:39 | the default colour is the 32-bit pattern 0xFFE0F7FA held as a signed Int |
| AlarmList.Candidate | app/src/main/java/in/visheshraghuvanshi/clock/features/alarm/AlarmScreen.kt:220-225 | the headline's candidate lies in (now, now + 24 h], at the alarm's time of day, and is the earliest such instant |
| AlarmList.CandidateIsTriggerAfterNow | app/src/main/java/in/visheshraghuvanshi/clock/features/alarm/AlarmScreen.kt:220-225 | the candidate is the scheduler's trigger computed one millisecond later |
| AlarmList.EqualityPolicyDiffers | app/src/main/java/in/visheshraghuvanshi/clock/features/alarm/AlarmScreen.kt:221 | at the alarm's exact millisecond the scheduler fires now but the headline waits a day |
| AlarmList.EarliestMeaning | app/src/main/java/in/visheshraghuvanshi/clock/features/alarm/AlarmScreen.kt:212-228 | no candidate iff no alarm is active; failure iff an active time does not parse; otherwise some active alarm's candidate that is no later than any other |
| AlarmList.Earliest | app/src/main/java/in/visheshraghuvanshi/clock/features/alarm/AlarmScreen.kt:212-228 | the headline's target: none without active alarms, a failure on an unparsable active time, otherwise the first minimal candidate; its meaning is stated by EarliestMeaning (defined, no contract) |
| AlarmList.InactiveIsIgnored | app/src/main/java/in/visheshraghuvanshi/clock/features/alarm/AlarmScreen.kt:212 | an inactive alarm anywhere in the list does not change the result |
| AlarmList.HoursAndMinutes | app/src/main/java/in/visheshraghuvanshi/clock/features/alarm/AlarmScreen.kt:230-238 | whole hours and minutes past them, minutes below 60, adding up to the whole minutes of the duration |
| AlarmList.EarliestWithinADay | app/src/main/java/in/visheshraghuvanshi/clock/features/alarm/AlarmScreen.kt:218-228 | the chosen instant lies after now and at most a day later |
| AlarmList.NextAlarmText | app/src/main/java/in/visheshraghuvanshi/clock/features/alarm/AlarmScreen.kt:212-238 | hidden iff no alarm is active; "Alarm in Hh Mm" with hours, else "Alarm in Mm", for the time to the earliest candidate |
| AlarmList.HeadlineFor | app/src/main/java/in/visheshraghuvanshi/clock/features/alarm/AlarmScreen.kt:230-238 | "Alarm in Hh Mm" from one hour up, "Alarm in Mm" below, from the whole minutes of the duration (defined, no contract) |
| AlarmList.HeadlineWithinADay | app/src/main/java/in/visheshraghuvanshi/clock/features/alarm/AlarmScreen.kt:230-238 | the headline is at most "Alarm in 24h 0m" |
| AlarmList.OnToggle | app/src/main/java/in/visheshraghuvanshi/clock/features/alarm/AlarmScreen.kt:150-154 | the row is stored with the new active flag, then scheduled when checked (the permission prompt launched exactly when that scheduling is gated) and cancelled otherwise, launching nothing |
| AlarmList.OnAdd | app/src/main/java/in/visheshraghuvanshi/clock/features/alarm/AlarmScreen.kt:171-173 | an active row is inserted under the next assigned id, above all existing ones, the counter advances by one, and the row goes to the top of the listing; that row is scheduled, and the permission prompt is launched exactly when the scheduler is gated |
| AlarmEditing.ReadPickerTime | app/src/main/java/in/visheshraghuvanshi/clock/features/alarm/EditAlarmScreen.kt:82-86 | the picker is left alone unless the time splits into exactly two fields; the fields are read as integers, failing at the hour or the minute |
| AlarmEditing.LoadsSavedTime | app/src/main/java/in/visheshraghuvanshi/clock/features/alarm/EditAlarmScreen.kt:82-86 | a saved "HH:mm" loads back into the picker unchanged |
| AlarmEditing.LoadAgreesWithScheduler | app/src/main/java/in/visheshraghuvanshi/clock/features/alarm/EditAlarmScreen.kt:82-86 | a valid loaded time is the time the scheduler reads |
| AlarmEditing.ExtraFieldsDivergeFromScheduler | app/src/main/java/in/visheshraghuvanshi/clock/features/alarm/EditAlarmScreen.kt:83 | a time with more than two fields is scheduled by its first two but ignored by the editor |
| AlarmEditing.AlarmEditor.constructor | app/src/main/java/in/visheshraghuvanshi/clock/features/alarm/EditAlarmScreen.kt:67-73 | the picker at 00:00, an empty label, vibration and snooze on, dialog closed |
| AlarmEditing.AlarmEditor.LabelValue | app/src/main/java/in/visheshraghuvanshi/clock/features/alarm/EditAlarmScreen.kt:150 | a blank label is shown as "Alarm", any other as it is |
| AlarmEditing.AlarmEditor.Load | app/src/main/java/in/visheshraghuvanshi/clock/features/alarm/EditAlarmScreen.kt:79-91 | a missing id changes nothing; otherwise the picker is set as ReadPickerTime says and label and flags are copied, unless the time fails to parse first |
| AlarmEditing.AlarmEditor.SetSnoozeEnabled | app/src/main/java/in/visheshraghuvanshi/clock/features/alarm/EditAlarmScreen.kt:161 | only the snooze flag changes |
| AlarmEditing.AlarmEditor.SetVibrationEnabled | app/src/main/java/in/visheshraghuvanshi/clock/features/alarm/EditAlarmScreen.kt:169 | only the vibration flag changes |
| AlarmEditing.AlarmEditor.OpenLabelDialog | app/src/main/java/in/visheshraghuvanshi/clock/features/alarm/EditAlarmScreen.kt:153 | only the dialog opens |
| AlarmEditing.AlarmEditor.ConfirmLabel | app/src/main/java/in/visheshraghuvanshi/clock/features/alarm/EditAlarmScreen.kt:207-210 | the typed label is taken untrimmed and the dialog closes |
| AlarmEditing.AlarmEditor.DismissLabelDialog | app/src/main/java/in/visheshraghuvanshi/clock/features/alarm/EditAlarmScreen.kt:206 | only the dialog closes |
| AlarmEditing.AlarmEditor.Edited | app/src/main/java/in/visheshraghuvanshi/clock/features/alarm/EditAlarmScreen.kt:108-114 | id, tag and colour are kept; the time is the picker's "HH:mm", the row is active with the edited label and flags |
| AlarmEditing.AlarmEditor.Save | app/src/main/java/in/visheshraghuvanshi/clock/features/alarm/EditAlarmScreen.kt:104-118 | a missing id changes nothing, launches nothing and navigates back; otherwise the row is replaced by the edited one, which is then scheduled, with the permission prompt launched exactly when gated |
| AlarmEditing.AlarmEditor.Delete | app/src/main/java/in/visheshraghuvanshi/clock/features/alarm/EditAlarmScreen.kt:176-186 | the wake-up is cancelled before the row is removed, and the screen navigates back; a missing id changes nothing |
| Timer.ParseInputToSeconds | app/src/main/java/in/visheshraghuvanshi/clock/features/timer/TimerViewModel.kt:114-121 | the empty buffer is 0 and six digits give at most 99 h 99 min 99 s |
| Timer.StartsWithWhatIsShown | app/src/main/java/in/visheshraghuvanshi/clock/features/timer/TimerViewModel.kt:114-121 | the seconds started are HH·3600 + MM·60 + SS of the fields the keypad display shows |
| Timer.NinetySeconds | app/src/main/java/in/visheshraghuvanshi/clock/features/timer/TimerViewModel.kt:114-121 | typing 9 0 gives 90 seconds, shown as "00h 00m 90s" |
| Timer.ServiceEndsWithScreen | app/src/main/java/in/visheshraghuvanshi/clock/features/timer/TimerViewModel.kt:80-86 | the service reads the sent duration and ends where the screen's countdown ends |
| Timer.StartCommand | app/src/main/java/in/visheshraghuvanshi/clock/features/timer/TimerViewModel.kt:80-86 | ACTION_START to the timer service with the duration as a long; the service reads it back (ServiceEndsWithScreen) (defined, no contract) |
| Timer.TimerViewModel.constructor | app/src/main/java/in/visheshraghuvanshi/clock/features/timer/TimerViewModel.kt:16-33 | empty buffer, zero times, not running, not paused, no ticker, nothing sent |
| Timer.TimerViewModel.OnNumberClick | app/src/main/java/in/visheshraghuvanshi/clock/features/timer/TimerViewModel.kt:35-37 | a digit is appended only below six characters, otherwise nothing changes |
| Timer.TimerViewModel.OnBackspace | app/src/main/java/in/visheshraghuvanshi/clock/features/timer/TimerViewModel.kt:39-41 | the last digit is removed; an empty buffer stays empty |
| Timer.TimerViewModel.StartTicker | app/src/main/java/in/visheshraghuvanshi/clock/features/timer/TimerViewModel.kt:95-112 | running, ending the duration from now, with a fresh ticker |
| Timer.TimerViewModel.StartTimer | app/src/main/java/in/visheshraghuvanshi/clock/features/timer/TimerViewModel.kt:43-50 | with a positive parsed duration the total is set, the service is started with it and the ticker runs; otherwise nothing changes |
| Timer.TimerViewModel.StopTimer | app/src/main/java/in/visheshraghuvanshi/clock/features/timer/TimerViewModel.kt:52-58 | not running, not paused, empty buffer, ticker cancelled, stop sent |
| Timer.TimerViewModel.TogglePause | app/src/main/java/in/visheshraghuvanshi/clock/features/timer/TimerViewModel.kt:60-71 | pausing records end minus now and cancels the ticker; resuming restarts from that time, in whole seconds |
| Timer.TimerViewModel.AddMinute | app/src/main/java/in/visheshraghuvanshi/clock/features/timer/TimerViewModel.kt:73-78 | while running 60 s are added to the total and 60 000 ms to the end, and nothing is sent |
| Timer.TimerViewModel.Tick | app/src/main/java/in/visheshraghuvanshi/clock/features/timer/TimerViewModel.kt:101-110 | time up: remaining 0 and the timer stops; otherwise remaining is the milliseconds left in whole seconds |
| Timer.TimerViewModel.RunTicker | app/src/main/java/in/visheshraghuvanshi/clock/features/timer/TimerViewModel.kt:95-112 | the ticker stops at the first reading at or after the end and shows 0, and otherwise shows the last reading's seconds left |
| TimerFormat.Padded | app/src/main/java/in/visheshraghuvanshi/clock/features/timer/TimerContent.kt:252 | left-padded to six digits with the same value |
| TimerFormat.InputFields | app/src/main/java/in/visheshraghuvanshi/clock/features/timer/TimerContent.kt:252-256 | three two-digit fields |
| TimerFormat.InputIsHhmmss | app/src/main/java/in/visheshraghuvanshi/clock/features/timer/TimerContent.kt:252-256 | the fields are the HHMMSS digits of the buffer's value |
| TimerFormat.FormatInputPremium | app/src/main/java/in/visheshraghuvanshi/clock/features/timer/TimerContent.kt:250-257 | up to six digits always render in 11 characters |
| TimerFormat.PremiumShowsFields | app/src/main/java/in/visheshraghuvanshi/clock/features/timer/TimerContent.kt:250-257 | the text is "HHh MMm SSs" of the same three fields the timer starts from |
| TimerFormat.Hms | app/src/main/java/in/visheshraghuvanshi/clock/features/timer/TimerContent.kt:260-262 | hours, minutes and seconds add back up to the input, with minutes and seconds in 0..59 for a non-negative input |
| TimerFormat.SameMinuteRemainder | app/src/main/java/in/visheshraghuvanshi/clock/features/timer/TimerContent.kt:260-262 | the seconds field is determined by the input |
| TimerFormat.FormatSeconds | app/src/main/java/in/visheshraghuvanshi/clock/features/timer/TimerContent.kt:263-267 | under an hour the text is five characters |
| TimerFormat.FormatSecondsReadsBack | app/src/main/java/in/visheshraghuvanshi/clock/features/timer/TimerContent.kt:263-267 | "MM:SS" under an hour and "H:MM:SS" from an hour up, reading back to the input |
| TimerFormat.MinutesReadBack | app/src/main/java/in/visheshraghuvanshi/clock/features/timer/TimerContent.kt:263-267 | under an hour the text splits at ":" into two digit fields reading back as minutes·60 + seconds |
| TimerFormat.HoursReadBack | app/src/main/java/in/visheshraghuvanshi/clock/features/timer/TimerContent.kt:263-267 | from an hour up the text splits into three digit fields reading back as hours·3600 + minutes·60 + seconds |
| TimerForeground.FormatTime | app/src/main/java/in/visheshraghuvanshi/clock/features/timer/logic/TimerService.kt:187-191 | under 100 hours the text is eight characters |
| TimerForeground.FormatTimeReadsBack | app/src/main/java/in/visheshraghuvanshi/clock/features/timer/logic/TimerService.kt:187-191 | three fields padded to at least two digits, reading back to the input |
| TimerForeground.ServiceAndScreenShowSameClock | app/src/main/java/in/visheshraghuvanshi/clock/features/timer/logic/TimerService.kt:187-191 | from one to ten hours the notification is the screen's text with a leading zero |
| TimerForeground.TimerService.constructor | app/src/main/java/in/visheshraghuvanshi/clock/features/timer/logic/TimerService.kt:29-34 | the wake lock is taken for 20 minutes, with no countdown and no notification |
| TimerForeground.TimerService.StopTimer | app/src/main/java/in/visheshraghuvanshi/clock/features/timer/logic/TimerService.kt:114-122 | the countdown ends, the wake lock is released only if held, the notification goes, the service stops |
| TimerForeground.TimerService.StartForegroundTimer | app/src/main/java/in/visheshraghuvanshi/clock/features/timer/logic/TimerService.kt:47-68 | any countdown is replaced by one ending the duration after now, under "Timer Started" |
| TimerForeground.TimerService.OnStartCommand | app/src/main/java/in/visheshraghuvanshi/clock/features/timer/logic/TimerService.kt:36-45 | start reads the duration defaulting to 0, stop stops, other actions do nothing, and the answer is always NOT_STICKY |
| TimerForeground.TimerService.Tick | app/src/main/java/in/visheshraghuvanshi/clock/features/timer/logic/TimerService.kt:55-66 | time up rings once and ends the loop; otherwise the notification shows the seconds left |
| TimerForeground.TimerService.RunCountdown | app/src/main/java/in/visheshraghuvanshi/clock/features/timer/logic/TimerService.kt:55-66 | a run of readings rings at most once, and the loop is still active only if every reading was before the end |
| TimerForeground.TimerService.StopDelayElapsed | app/src/main/java/in/visheshraghuvanshi/clock/features/timer/logic/TimerService.kt:100-103 | the delayed stop due first stops the service ten minutes after ringing |
| TimerForeground.TimerService.OnDestroy | app/src/main/java/in/visheshraghuvanshi/clock/features/timer/logic/TimerService.kt:194-200 | every coroutine is cancelled and the wake lock released only if held |
| Stopwatch.ServiceCountsLikeScreen | app/src/main/java/in/visheshraghuvanshi/clock/features/timer/StopwatchViewModel.kt:41-45 | the service reads back the start and total the screen sent, so both show the same elapsed time |
| Stopwatch.StartCommand | app/src/main/java/in/visheshraghuvanshi/clock/features/timer/StopwatchViewModel.kt:41-45 | ACTION_START to the stopwatch service with the start instant and total as longs; read back by ServiceCountsLikeScreen (defined, no contract) |
| Stopwatch.StopwatchViewModel.constructor | app/src/main/java/in/visheshraghuvanshi/clock/features/timer/StopwatchViewModel.kt:16-27 | zero elapsed, not running, no laps, nothing sent |
| Stopwatch.StopwatchViewModel.Start | app/src/main/java/in/visheshraghuvanshi/clock/features/timer/StopwatchViewModel.kt:37-49 | running from now, the service told the start and the total |
| Stopwatch.StopwatchViewModel.Pause | app/src/main/java/in/visheshraghuvanshi/clock/features/timer/StopwatchViewModel.kt:51-65 | exactly now minus the start is added to the total, which the display then shows and the service is sent |
| Stopwatch.StopwatchViewModel.ToggleStartPause | app/src/main/java/in/visheshraghuvanshi/clock/features/timer/StopwatchViewModel.kt:29-35 | the running flag flips, pausing or starting |
| Stopwatch.StopwatchViewModel.LapOrReset | app/src/main/java/in/visheshraghuvanshi/clock/features/timer/StopwatchViewModel.kt:67-83 | while running the displayed time goes on top of the laps and nothing else changes; stopped, everything is zeroed and the service stopped |
| Stopwatch.StopwatchViewModel.Tick | app/src/main/java/in/visheshraghuvanshi/clock/features/timer/StopwatchViewModel.kt:88-90 | while running the display is now minus start plus the total |
| Stopwatch.StopwatchViewModel.PressStartPause | app/src/main/java/in/visheshraghuvanshi/clock/features/timer/StopwatchViewModel.kt:29-65 | over any run of presses the total grows by exactly the running stretches, which a non-decreasing clock keeps non-negative, and the running flag follows the parity of the presses |
| Stopwatch.RunningStretches | app/src/main/java/in/visheshraghuvanshi/clock/features/timer/StopwatchViewModel.kt:51-56 | the time run over a sequence of presses: each pausing press adds the stretch since the press that started it (defined, no contract) |
| Stopwatch.RunningStretchesNonNegative | app/src/main/java/in/visheshraghuvanshi/clock/features/timer/StopwatchViewModel.kt:51-56 | with a clock that does not go back the running stretches add up to a non-negative time |
| StopwatchFormat.ElapsedAt | app/src/main/java/in/visheshraghuvanshi/clock/features/timer/StopwatchViewModel.kt:90 | while the clock is past the start the elapsed time is at least the total |
| StopwatchFormat.StopwatchFields | app/src/main/java/in/visheshraghuvanshi/clock/features/timer/StopwatchContent.kt:229-231 | seconds in 0..59 and hundredths in 0..99 |
| StopwatchFormat.FieldsAddUp | app/src/main/java/in/visheshraghuvanshi/clock/features/timer/StopwatchContent.kt:229-231 | minutes·60000 + seconds·1000 + hundredths·10 + the last digit is the input |
| StopwatchFormat.StopwatchWidth | app/src/main/java/in/visheshraghuvanshi/clock/features/timer/StopwatchContent.kt:229-232 | eight characters under 100 minutes, wider from then on |
| StopwatchFormat.StopwatchReadsBack | app/src/main/java/in/visheshraghuvanshi/clock/features/timer/StopwatchContent.kt:232 | the display reads back as the time to the hundredth |
| StopwatchFormat.FormatStopwatch | app/src/main/java/in/visheshraghuvanshi/clock/features/timer/StopwatchContent.kt:228-233 | "%02d:%02d.%02d" of whole minutes, seconds and hundredths; its fields and round trip are stated by StopwatchFields and StopwatchReadsBack (defined, no contract) |
| StopwatchFormat.LapLabelInjective | app/src/main/java/in/visheshraghuvanshi/clock/features/timer/StopwatchContent.kt:199-200 | different lap numbers get different labels |
| StopwatchFormat.LapLabel | app/src/main/java/in/visheshraghuvanshi/clock/features/timer/StopwatchContent.kt:209 | "Lap " followed by the decimal lap number (defined, no contract) |
| StopwatchFormat.LapRows | app/src/main/java/in/visheshraghuvanshi/clock/features/timer/StopwatchContent.kt:199-216 | row i is lap n-i of n with the i-th lap's time, which the row shows as its label and `formatStopwatch` of that time |
| StopwatchFormat.Shown | app/src/main/java/in/visheshraghuvanshi/clock/features/timer/StopwatchContent.kt:205-222 | a lap row displays its label on the left and its formatted time on the right (defined, no contract) |
| StopwatchFormat.LapNumbersDistinct | app/src/main/java/in/visheshraghuvanshi/clock/features/timer/StopwatchContent.kt:199-200 | numbers fall by one per row from n at the top to 1 at the bottom, so no two rows share a number or a label |
| StopwatchFormat.FirstLapLabel | app/src/main/java/in/visheshraghuvanshi/clock/features/timer/StopwatchContent.kt:200 | the bottom row reads "Lap 1" |
| StopwatchFormat.NewLapKeepsRows | app/src/main/java/in/visheshraghuvanshi/clock/features/timer/StopwatchContent.kt:199-216 | a new lap goes on top showing its number and time, and every earlier row keeps its number and time |
| StopwatchForeground.FormatStopwatch | app/src/main/java/in/visheshraghuvanshi/clock/features/timer/logic/StopwatchService.kt:129-133 | a proper prefix of the screen's text |
| StopwatchForeground.NotificationIsScreenWithoutHundredths | app/src/main/java/in/visheshraghuvanshi/clock/features/timer/logic/StopwatchService.kt:129-133 | the screen's text is the notification's followed by "." and the hundredths |
| StopwatchForeground.NotificationWidth | app/src/main/java/in/visheshraghuvanshi/clock/features/timer/logic/StopwatchService.kt:129-133 | under 100 minutes the notification is five characters |
| StopwatchForeground.StopwatchService.constructor | app/src/main/java/in/visheshraghuvanshi/clock/features/timer/logic/StopwatchService.kt:20-21 | no loop and no notification |
| StopwatchForeground.StopwatchService.OnStartCommand | app/src/main/java/in/visheshraghuvanshi/clock/features/timer/logic/StopwatchService.kt:23-38 | start replaces the loop with one from the sent start (default now) and total (default 0), pause shows "Paused: " and the total and stops the loop, stop stops; always STICKY |
| StopwatchForeground.StopwatchService.Tick | app/src/main/java/in/visheshraghuvanshi/clock/features/timer/logic/StopwatchService.kt:46-51 | a live loop shows the elapsed time by the screen's rule |
| StopwatchForeground.StopwatchService.OnDestroy | app/src/main/java/in/visheshraghuvanshi/clock/features/timer/logic/StopwatchService.kt:124-127 | the loop is cancelled |
| WorldClockCardView.CityName | app/src/main/java/in/visheshraghuvanshi/clock/features/clock/components/WorldClockCard.kt:58 | the text after the last "/", each "_" shown as a space, so it holds neither |
| WorldClockCardView.DiffHours | app/src/main/java/in/visheshraghuvanshi/clock/features/clock/components/WorldClockCard.kt:60-62 | the offset difference in hours, truncated toward zero |
| WorldClockCardView.OffsetLabel | app/src/main/java/in/visheshraghuvanshi/clock/features/clock/components/WorldClockCard.kt:64-68 | ahead iff positive, behind iff negative, "Same" iff zero |
| WorldClockCardView.BadgeReadsBack | app/src/main/java/in/visheshraghuvanshi/clock/features/clock/components/WorldClockCard.kt:64-68 | a non-zero badge is the signed hours followed by " h" and reads back as them |
| WorldClockCardView.WithinAnHourIsSame | app/src/main/java/in/visheshraghuvanshi/clock/features/clock/components/WorldClockCard.kt:62-67 | offsets less than an hour apart, either way, show "Same" and no others |
| WorldClockCardView.Badge | app/src/main/java/in/visheshraghuvanshi/clock/features/clock/components/WorldClockCard.kt:60-68 | the card's badge is the label of the truncated hour difference between the zone's and the local offset (defined, no contract) |
| WorldClockList.RemoveFirst | app/src/main/java/in/visheshraghuvanshi/clock/features/clock/ClockScreen.kt:116 | the first occurrence goes: absent leaves the list, present shortens it by one, order kept |
| WorldClockList.RemoveFromNoDup | app/src/main/java/in/visheshraghuvanshi/clock/features/clock/ClockScreen.kt:116 | without duplicates exactly the zone is removed and the others stay |
| WorldClockList.WorldClocks.constructor | app/src/main/java/in/visheshraghuvanshi/clock/features/clock/ClockScreen.kt:40-43 | the saved cities, or New York and London, each once |
| WorldClockList.WorldClocks.OpenAddCitySheet | app/src/main/java/in/visheshraghuvanshi/clock/features/clock/ClockScreen.kt:63 | only the sheet opens |
| WorldClockList.WorldClocks.DismissAddCitySheet | app/src/main/java/in/visheshraghuvanshi/clock/features/clock/ClockScreen.kt:167 | only the sheet closes |
| WorldClockList.WorldClocks.Remove | app/src/main/java/in/visheshraghuvanshi/clock/features/clock/ClockScreen.kt:156 | exactly the zone is removed, the others kept in order |
| WorldClockList.WorldClocks.SelectCity | app/src/main/java/in/visheshraghuvanshi/clock/features/clock/ClockScreen.kt:168-173 | a zone is appended only when absent, so no duplicates; the sheet closes either way |
| WorldClockList.Filter | app/src/main/java/in/visheshraghuvanshi/clock/features/clock/ClockScreen.kt:213 | exactly the elements satisfying the test, in order |
| WorldClockList.BelowTotal | app/src/main/java/in/visheshraghuvanshi/clock/features/clock/ClockScreen.kt:215 | string order is total |
| WorldClockList.BelowTransitive | app/src/main/java/in/visheshraghuvanshi/clock/features/clock/ClockScreen.kt:215 | string order is transitive |
| WorldClockList.BelowAntisymmetric | app/src/main/java/in/visheshraghuvanshi/clock/features/clock/ClockScreen.kt:215 | string order is antisymmetric |
| WorldClockList.Insert | app/src/main/java/in/visheshraghuvanshi/clock/features/clock/ClockScreen.kt:215 | into a sorted list, sorted with one more element |
| WorldClockList.Sort | app/src/main/java/in/visheshraghuvanshi/clock/features/clock/ClockScreen.kt:215 | sorted ascending and a permutation of the input |
| WorldClockList.SortedUnique | app/src/main/java/in/visheshraghuvanshi/clock/features/clock/ClockScreen.kt:215 | two sorted permutations of each other are equal |
| WorldClockList.AllZonesMeaning | app/src/main/java/in/visheshraghuvanshi/clock/features/clock/ClockScreen.kt:212-216 | sorted, without duplicates, and holding exactly the zones with "/" not starting with "Etc" or "System" |
| WorldClockList.AllZonesIgnoreOrder | app/src/main/java/in/visheshraghuvanshi/clock/features/clock/ClockScreen.kt:212-216 | the picker does not depend on the order the system lists zones in |
| WorldClockList.AllZones | app/src/main/java/in/visheshraghuvanshi/clock/features/clock/ClockScreen.kt:212-216 | the picker's catalogue: the selectable zone ids, sorted; stated by AllZonesMeaning (defined, no contract) |
| WorldClockList.Selectable | app/src/main/java/in/visheshraghuvanshi/clock/features/clock/ClockScreen.kt:214 | a zone is offered iff it contains "/" and starts with neither "Etc" nor "System" (defined, no contract) |
| WorldClockList.Search | app/src/main/java/in/visheshraghuvanshi/clock/features/clock/ClockScreen.kt:222-224 | the order-preserving subsequence of zones containing the query ignoring case, all of them for an empty query |
| WorldClockList.EmptyQueryFiltersNothing | app/src/main/java/in/visheshraghuvanshi/clock/features/clock/ClockScreen.kt:222 | an empty query returns every zone |
| WorldClockList.RowFor | app/src/main/java/in/visheshraghuvanshi/clock/features/clock/ClockScreen.kt:270-272 | the region is the text before the first "/" |
| WorldClockList.RowCityIsCardTitle | app/src/main/java/in/visheshraghuvanshi/clock/features/clock/ClockScreen.kt:272 | the picker row's city is the card's city name |
| WorldClockList.DividerAllButLast | app/src/main/java/in/visheshraghuvanshi/clock/features/clock/ClockScreen.kt:303 | a divider follows every row except the last |
| WorldClockList.HasDivider | app/src/main/java/in/visheshraghuvanshi/clock/features/clock/ClockScreen.kt:303 | a row has a divider iff its zone differs from the last zone shown (defined, no contract) |
| Routes.RoutesDistinct | app/src/main/java/in/visheshraghuvanshi/clock/navigation/Screen.kt:20-24 | the five routes are pairwise distinct and no tab route starts with "edit_alarm" |
| Routes.Route | app/src/main/java/in/visheshraghuvanshi/clock/navigation/Screen.kt:20-24 | the route patterns "clock", "alarm", "timer", "settings" and "edit_alarm/{alarmId}" (defined, no contract) |
| Routes.Label | app/src/main/java/in/visheshraghuvanshi/clock/navigation/Screen.kt:20-24 | the labels "Clock", "Alarm", "Timer", "Settings" and "Edit" (defined, no contract) |
| Routes.CreateRoute | app/src/main/java/in/visheshraghuvanshi/clock/navigation/Screen.kt:25 | starts with "edit_alarm/" and is none of the five patterns |
| Routes.EditArgument | app/src/main/java/in/visheshraghuvanshi/clock/navigation/Screen.kt:25 | an argument is read only after "edit_alarm/" and is an Int |
| Routes.CreateRouteReadsBack | app/src/main/java/in/visheshraghuvanshi/clock/navigation/Screen.kt:25 | the route's argument reads back as the id |
| Routes.CreateRouteInjective | app/src/main/java/in/visheshraghuvanshi/clock/navigation/Screen.kt:25 | different ids get different routes |
| AppShell.IsDarkTheme | app/src/main/java/in/visheshraghuvanshi/clock/ui/ClockApp.kt:73-77 | "dark" is dark, "light" is light, any other mode follows the system |
| AppShell.IsNavVisible | app/src/main/java/in/visheshraghuvanshi/clock/ui/ClockApp.kt:102 | visible iff there is a route and it does not start with "edit_alarm" |
| AppShell.UseNavRail | app/src/main/java/in/visheshraghuvanshi/clock/ui/ClockApp.kt:99-101 | a side rail iff the device is in landscape or at least 600 dp wide, a bottom bar otherwise (defined, no contract) |
| AppShell.NavVisibleOnTabsOnly | app/src/main/java/in/visheshraghuvanshi/clock/ui/ClockApp.kt:102 | visible on the four tabs, hidden on the editor pattern, every editor route and before the first |
| AppShell.TabIndex | app/src/main/java/in/visheshraghuvanshi/clock/ui/ClockApp.kt:242-243 | the position of the tab with that route, -1 iff none |
| AppShell.IndexIn | app/src/main/java/in/visheshraghuvanshi/clock/ui/ClockApp.kt:242-243 | the first position whose route matches, -1 iff none |
| AppShell.TabIndexOfTab | app/src/main/java/in/visheshraghuvanshi/clock/ui/ClockApp.kt:242-243 | each tab finds its own position |
| AppShell.SlideOffset | app/src/main/java/in/visheshraghuvanshi/clock/ui/ClockApp.kt:239-245 | from the right iff the target tab lies further right, from the left otherwise, also on equal positions |
| AppShell.SlideDirections | app/src/main/java/in/visheshraghuvanshi/clock/ui/ClockApp.kt:244 | going right between tabs comes from the right, coming back from the left |
| AppShell.LeavingEditorComesFromRight | app/src/main/java/in/visheshraghuvanshi/clock/ui/ClockApp.kt:242-244 | leaving the editor for any tab slides in from the right |
| AppShell.ActiveIndex | app/src/main/java/in/visheshraghuvanshi/clock/ui/ClockApp.kt:249 | the route's tab, or the first tab when the route is no tab |
| AppShell.OneTabHighlighted | app/src/main/java/in/visheshraghuvanshi/clock/ui/ClockApp.kt:282 | a tab is highlighted iff it is the route's tab, or it is Clock on a non-tab route |
| AppShell.EditAlarmId | app/src/main/java/in/visheshraghuvanshi/clock/ui/ClockApp.kt:200 | -1 without arguments; the Int under "alarmId" when present; 0 for a bundle without it |
| AppShell.EditArguments | app/src/main/java/in/visheshraghuvanshi/clock/ui/ClockApp.kt:196 | the editor receives a bundle holding the parsed Int under "alarmId", or no bundle when the route does not match (defined, no contract) |
| AppShell.EditorGetsCreatedId | app/src/main/java/in/visheshraghuvanshi/clock/ui/ClockApp.kt:200 | the editor opened through createRoute(id) edits alarm id |
| AppShell.ExitOppositeToEnter | app/src/main/java/in/visheshraghuvanshi/clock/ui/ClockApp.kt:149-168 | the leaving destination slides the opposite way to the one coming in |
| SettingsScreen.FormatThemeName | app/src/main/java/in/visheshraghuvanshi/clock/features/settings/SettingsScreen.kt:298-302 | "Light" iff "light", "Dark" iff "dark", "System Default" for every other mode |
| SettingsScreen.ThemeNameDescribesTheme | app/src/main/java/in/visheshraghuvanshi/clock/features/settings/SettingsScreen.kt:298-302 | the name shown matches the theme the shell applies for the mode |
| SettingsScreen.AtMostOneThemeSelected | app/src/main/java/in/visheshraghuvanshi/clock/features/settings/SettingsScreen.kt:265-278 | at most one row is highlighted, one iff the mode is one of the three, and it carries the name the item shows |
| SettingsScreen.IsSelected | app/src/main/java/in/visheshraghuvanshi/clock/features/settings/SettingsScreen.kt:278 | a dialog row is highlighted iff its mode is the current one (defined, no contract) |
| SettingsScreen.SelectedRows | app/src/main/java/in/visheshraghuvanshi/clock/features/settings/SettingsScreen.kt:265-278 | the positions of the highlighted dialog rows; AtMostOneThemeSelected bounds them (defined, no contract) |
| SettingsScreen.AtMostOneSwatchSelected | app/src/main/java/in/visheshraghuvanshi/clock/features/settings/SettingsScreen.kt:225-232 | no two swatches are checked at once |
| SettingsScreen.AppearanceSettings.constructor | app/src/main/java/in/visheshraghuvanshi/clock/ui/ClockApp.kt:66-71 | the saved values, defaulting to "system", wallpaper colours on, AMOLED off and blue |
| SettingsScreen.AppearanceSettings.ThemeItemValue | app/src/main/java/in/visheshraghuvanshi/clock/features/settings/SettingsScreen.kt:97-103 | the "App Theme" item shows the name of the current mode (defined, no contract) |
| SettingsScreen.AppearanceSettings.AccentPickerVisible | app/src/main/java/in/visheshraghuvanshi/clock/features/settings/SettingsScreen.kt:127-128 | the accent picker is shown iff wallpaper colours are off (defined, no contract) |
| SettingsScreen.AppearanceSettings.OpenThemeDialog | app/src/main/java/in/visheshraghuvanshi/clock/features/settings/SettingsScreen.kt:102 | only the dialog opens |
| SettingsScreen.AppearanceSettings.SelectTheme | app/src/main/java/in/visheshraghuvanshi/clock/features/settings/SettingsScreen.kt:202-205 | the chosen mode becomes the theme and the dialog closes |
| SettingsScreen.AppearanceSettings.DismissThemeDialog | app/src/main/java/in/visheshraghuvanshi/clock/features/settings/SettingsScreen.kt:199-207 | only the dialog closes |
| SettingsScreen.AppearanceSettings.SetDynamicColors | app/src/main/java/in/visheshraghuvanshi/clock/features/settings/SettingsScreen.kt:127-128 | only the switch changes, and the accent picker shows iff it is off |
| SettingsScreen.AppearanceSettings.SetAmoled | app/src/main/java/in/visheshraghuvanshi/clock/ui/ClockApp.kt:171-190 | only the AMOLED switch changes |
| SettingsScreen.AppearanceSettings.SelectColor | app/src/main/java/in/visheshraghuvanshi/clock/features/settings/SettingsScreen.kt:225-232 | the tapped swatch becomes the accent |
| SettingsScreen.ChosenRowIsShown | app/src/main/java/in/visheshraghuvanshi/clock/features/settings/SettingsScreen.kt:265-278 | after choosing a row the item shows its name and only that row is highlighted |
| Scenarios.SnoozeUnderAlarmIdReplacesWakeup | app/src/main/java/in/visheshraghuvanshi/clock/features/alarm/logic/AlarmService.kt:76-95 | `snoozeAlarm` called with the alarm's own id after scheduling leaves only the snooze under that id, and firing it empties the table; the app never passes that id |
| Scenarios.ScreenSnoozeAddsWakeupZero | app/src/main/java/in/visheshraghuvanshi/clock/features/alarm/ui/AlarmTriggerActivity.kt:92-95 | a stored and scheduled alarm snoozed from the ringing screen keeps its daily wake-up under its id 1, and the snooze is added under key 0 |
| Scenarios.ScheduledAlarmNeverRings | app/src/main/java/in/visheshraghuvanshi/clock/features/alarm/logic/AlarmReceiver.kt:12-15 | the delivered scheduled broadcast yields no service command |
| Scenarios.AddedMinuteIsNotHeardByService | app/src/main/java/in/visheshraghuvanshi/clock/features/timer/TimerViewModel.kt:73-78 | after a 90-second start and "+1m", the service rings at 90 seconds while the screen still counts 60 |
| Scenarios.AddedMinuteLostWhilePaused | app/src/main/java/in/visheshraghuvanshi/clock/features/timer/TimerViewModel.kt:60-78 | after pausing 10 s into 90 s and "+1m", the total says 150 but resuming ends 80 s later |

## Left out

- Time zones, daylight saving and locale: the local zone is UTC with 24-hour days; the world-clock offsets are integer inputs; `DateTimeFormatter` names and locale-dependent `String.format` are not modelled, and digits are ASCII.
- Sub-millisecond precision, and `Long`/`Int` overflow: integers are unbounded (the alarm and route ids are assumed to be 32-bit where a round trip needs it).
- AlarmList.NextAlarmText: `calculateNextAlarmText` reads the clock three times (`LocalTime.now()`, `LocalDate.now()`, `LocalDateTime.now()`); the model collapses the three readings into one instant `now`.
- Coroutine timing and races: every tick and delay is a step with an explicit `now`; how often loops run and races between the view models and services are not modelled.
- Notification channels, icons, priorities, PendingIntent flags, wake-lock internals, Ringtone and Vibrator objects, Toasts: only their observable effect (the wake-up table, ringing and vibrating fields, notification contents, sent commands) is modelled. The SDK-version branches around vibration and foreground start are collapsed.
- Preferences persistence (SharedPreferences in ClockApp.kt and ClockScreen.kt): settings and cities are in-memory state seeded from optional saved values; writing back is not modelled, nor the iteration order of the saved city set.
- ClockDatabase.kt is not part of this model (a Room singleton); the table is modelled through AlarmDao.
- Floating point: the timer's progress ratio, colour luminance, the swipe slider's offsets and the navigation indicator's offsets.
- The Compose layout, animation and theming (TimerScreen, TimerNumpad, TimerCircularDisplay, AlarmSettingsComponents, Theme, Type, Shape, MainActivity), the live clock faces on the clock screen, and the world card's refresh loop.
- The time picker's own range handling: Load passes through whatever integers the stored time holds.
- The navigation library's argument parsing is modelled as reading a decimal `Int` after "edit_alarm/".
- Colours are written as unsigned ARGB numbers, except the add sheet's default, which is held as the signed `Int` `toArgb()` returns.
- Unicode: no normalisation, and the case-insensitive search folds ASCII letters only; strings are sequences of code points, not UTF-16 units.
- The entity's `label` field is named `labelText` in the model, since `label` is a Dafny keyword.
- Timer.TimerViewModel.OnNumberClick: takes one digit, since the keypad only sends single digits; Timer.ParseInputToSeconds accordingly requires a buffer of digits.
- Scheduling.AlarmScheduler.Schedule: a malformed time is returned as the `MalformedTime` outcome; in the app the `NumberFormatException`, `IndexOutOfBoundsException` or `DateTimeException` escapes `schedule` inside `scope.launch` (EditAlarmScreen.kt, AlarmScreen.kt) and ends the app, which the model does not capture.
- The "Use Wallpaper Colors" switch exists only on Android 12 (API level 31) and later; SetDynamicColors is modelled without that gate.
