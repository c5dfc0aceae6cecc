/**
 * The part of Android's AlarmManager the app depends on: a table of pending
 * wake-ups keyed by the request code of their PendingIntent.
 *
 * Every PendingIntent the alarm code registers is `getBroadcast` to
 * AlarmReceiver with no action, and two such PendingIntents are the same one
 * exactly when their request codes agree (extras do not take part in the
 * match, and FLAG_UPDATE_CURRENT installs the newest extras). So a wake-up set
 * under a request code replaces any earlier one under that code, and
 * cancelling a code removes it.
 */
module AlarmPlatform {
  import opened Common
  import opened Intents

  datatype WakeupKind = AlarmClock | ExactRtcWakeupWhileIdle

  datatype Wakeup = Wakeup(kind: WakeupKind, triggerAtMillis: int, operation: Intent)

  class AlarmManager {
    /** Pending wake-ups by request code. */
    var wakeups: map<int, Wakeup>
    /** What `canScheduleExactAlarms()` reports. */
    const canScheduleExact: bool
    /** Whether registering an exact wake-up throws SecurityException. */
    const refusesExact: bool

    constructor(canScheduleExact: bool, refusesExact: bool)
      ensures wakeups == map[]
      ensures this.canScheduleExact == canScheduleExact && this.refusesExact == refusesExact
    {
      wakeups := map[];
      this.canScheduleExact := canScheduleExact;
      this.refusesExact := refusesExact;
    }

    /** `setAlarmClock(AlarmClockInfo(at, pi), pi)`; `thrown` is the SecurityException. */
    method SetAlarmClock(code: int, at: int, operation: Intent) returns (thrown: bool)
      modifies this
      ensures thrown == refusesExact
      ensures wakeups == if thrown then old(wakeups) else old(wakeups)[code := Wakeup(AlarmClock, at, operation)]
    {
      thrown := refusesExact;
      if !thrown {
        wakeups := wakeups[code := Wakeup(AlarmClock, at, operation)];
      }
    }

    /** `setExactAndAllowWhileIdle(RTC_WAKEUP, at, pi)`; `thrown` is the SecurityException. */
    method SetExactAndAllowWhileIdle(code: int, at: int, operation: Intent) returns (thrown: bool)
      modifies this
      ensures thrown == refusesExact
      ensures wakeups == if thrown then old(wakeups) else old(wakeups)[code := Wakeup(ExactRtcWakeupWhileIdle, at, operation)]
    {
      thrown := refusesExact;
      if !thrown {
        wakeups := wakeups[code := Wakeup(ExactRtcWakeupWhileIdle, at, operation)];
      }
    }

    /** `cancel(pi)`: no effect when nothing is pending under code. */
    method Cancel(code: int)
      modifies this
      ensures wakeups == old(wakeups) - {code}
    {
      wakeups := wakeups - {code};
    }

    /**
     * The system delivers the wake-up pending under code: it is one-shot, so it
     * leaves the table, and its intent is broadcast.
     */
    method Fire(code: int) returns (broadcast: Option<Intent>)
      modifies this
      ensures code in old(wakeups) ==> broadcast == Some(old(wakeups)[code].operation)
      ensures code !in old(wakeups) ==> broadcast == None
      ensures wakeups == old(wakeups) - {code}
    {
      if code in wakeups {
        broadcast := Some(wakeups[code].operation);
      } else {
        broadcast := None;
      }
      wakeups := wakeups - {code};
    }
  }
}
