/**
 * The alarm broadcast receiver: it accepts only the boot-completed and
 * alarm-triggered actions and answers each with one START_ALARM command to
 * the ringing service, forwarding nothing but a long `alarm_id`.
 */
module Receiving {
  import opened Common
  import opened Intents
  import opened AlarmData
  import opened Scheduling

  predicate Accepted(action: Option<string>) {
    action == Some(ACTION_BOOT_COMPLETED) || action == Some(ACTION_ALARM_TRIGGERED)
  }

  /** `onReceive`: the service command it starts, or None when it ignores the event. */
  function OnReceive(event: Option<Intent>): (command: Option<Intent>)
    ensures command.Some? <==> event.Some? && Accepted(event.value.action)
    ensures command.Some? ==>
      && command.value.target == AlarmServiceComponent
      && command.value.action == Some(START_ALARM)
      && command.value.extras.Keys <= {"alarm_id"}
    ensures command.Some? ==>
      var id := GetLongExtra(event.value, "alarm_id", -1);
      && ("alarm_id" in command.value.extras <==> id != -1)
      && (id != -1 ==> command.value.extras["alarm_id"] == LongExtra(id))
  {
    match event
    case None => None
    case Some(intent) =>
      if !Accepted(intent.action) then None
      else
        var command := WithAction(AlarmServiceComponent, START_ALARM);
        var id := GetLongExtra(intent, "alarm_id", -1);
        Some(if id != -1 then Put(command, "alarm_id", LongExtra(id)) else command)
  }

  /** The broadcast the scheduler registers has no action, so the receiver drops it. */
  lemma ScheduledBroadcastIsDropped(a: Alarm)
    ensures OnReceive(Some(AlarmIntent(a))) == None
  {
    AlarmIntentCarriesFields(a);
  }

  /**
   * The receiver reads the id as a long under "alarm_id", but the scheduler
   * stores it as an int under "ALARM_ID": even an accepted copy of the
   * scheduled broadcast forwards no id.
   */
  lemma ScheduledIdIsNotForwarded(a: Alarm, action: string)
    requires Accepted(Some(action))
    ensures var command := OnReceive(Some(AlarmIntent(a).(action := Some(action))));
      command.Some? && command.value.extras == map[]
  {
  }
}
