/**
 * Android intents as the app builds and reads them: a target component, an
 * optional action string and a bundle of typed extras.
 *
 * The typed getters (`getIntExtra`, `getLongExtra`, `getBooleanExtra`,
 * `getStringExtra`) return the caller's default both when the key is missing
 * and when it holds a value of another type, as Android's Bundle does.
 */
module Intents {
  import opened Common

  datatype Component =
    | AlarmReceiverComponent
    | AlarmServiceComponent
    | AlarmTriggerActivityComponent
    | ExactAlarmSettingsScreen
    | TimerServiceComponent
    | StopwatchServiceComponent

  datatype Extra = IntExtra(i: int) | LongExtra(l: int) | StringExtra(s: string) | BoolExtra(b: bool)

  datatype Intent = Intent(target: Component, action: Option<string>, extras: map<string, Extra>)

  const ACTION_BOOT_COMPLETED: string := "android.intent.action.BOOT_COMPLETED"
  const ACTION_ALARM_TRIGGERED: string := "android.intent.action.ALARM_TRIGGERED"
  const START_ALARM: string := "START_ALARM"
  const STOP_ALARM: string := "STOP_ALARM"
  const SNOOZE_ALARM: string := "SNOOZE_ALARM"

  /** What `onStartCommand` returns: restart the service after it is killed, or not. */
  const START_STICKY: int := 1
  const START_NOT_STICKY: int := 2

  /** `Intent(context, target)`: no action, no extras. */
  function Explicit(target: Component): Intent {
    Intent(target, None, map[])
  }

  /** `Intent(context, target).apply { action = a }`. */
  function WithAction(target: Component, a: string): Intent {
    Intent(target, Some(a), map[])
  }

  /** `putExtra(key, v)`: a later value under the same key replaces an earlier one. */
  function Put(it: Intent, key: string, v: Extra): Intent {
    it.(extras := it.extras[key := v])
  }

  function GetIntExtra(it: Intent, key: string, default: int): int {
    if key in it.extras && it.extras[key].IntExtra? then it.extras[key].i else default
  }

  function GetLongExtra(it: Intent, key: string, default: int): int {
    if key in it.extras && it.extras[key].LongExtra? then it.extras[key].l else default
  }

  function GetBooleanExtra(it: Intent, key: string, default: bool): bool {
    if key in it.extras && it.extras[key].BoolExtra? then it.extras[key].b else default
  }

  /** `getStringExtra(key)`: null (None) unless a string is stored under key. */
  function GetStringExtra(it: Intent, key: string): Option<string> {
    if key in it.extras && it.extras[key].StringExtra? then Some(it.extras[key].s) else None
  }
}
