/**
 * The app's navigation destinations: four tabs and the alarm editor, whose
 * route carries the alarm id as an `Int` argument.
 */
module Routes {
  import opened Common
  import opened Text

  datatype Screen = Clock | Alarm | Timer | Settings | EditAlarm

  const EDIT_ALARM_PREFIX: string := "edit_alarm/"

  /** Each destination's route pattern. */
  function Route(s: Screen): string {
    match s
    case Clock => "clock"
    case Alarm => "alarm"
    case Timer => "timer"
    case Settings => "settings"
    case EditAlarm => EDIT_ALARM_PREFIX + "{alarmId}"
  }

  /** Each destination's label. */
  function Label(s: Screen): string {
    match s
    case Clock => "Clock"
    case Alarm => "Alarm"
    case Timer => "Timer"
    case Settings => "Settings"
    case EditAlarm => "Edit"
  }

  /** The five routes are pairwise distinct, and no tab route looks like an editor route. */
  lemma RoutesDistinct(a: Screen, b: Screen)
    ensures Route(a) == Route(b) ==> a == b
    ensures a != EditAlarm ==> !StartsWith(Route(a), "edit_alarm")
  {
  }

  /** The concrete route that opens the editor for one alarm. */
  function CreateRoute(alarmId: int): (r: string)
    ensures StartsWith(r, EDIT_ALARM_PREFIX) && StartsWith(r, "edit_alarm")
    ensures forall s :: r != Route(s)
  {
    var r := EDIT_ALARM_PREFIX + IntToString(alarmId);
    assert r[..|EDIT_ALARM_PREFIX|] == EDIT_ALARM_PREFIX;
    assert r[|EDIT_ALARM_PREFIX|] == IntToString(alarmId)[0];
    assert r[0] == 'e' && r[|EDIT_ALARM_PREFIX|] != '{';
    r
  }

  /**
   * The navigation library's reading of a concrete route against the editor
   * pattern: the text after "edit_alarm/" parsed as a decimal `Int`, or no
   * match at all.
   */
  function EditArgument(route: string): (id: Option<int>)
    ensures id.Some? ==> StartsWith(route, EDIT_ALARM_PREFIX) && IsInt32(id.value)
  {
    if StartsWith(route, EDIT_ALARM_PREFIX) then ToInt(route[|EDIT_ALARM_PREFIX|..]) else None
  }

  /** The editor receives the id its route was created with. */
  lemma CreateRouteReadsBack(alarmId: int)
    requires IsInt32(alarmId)
    ensures EditArgument(CreateRoute(alarmId)) == Some(alarmId)
  {
    var r := CreateRoute(alarmId);
    assert r[|EDIT_ALARM_PREFIX|..] == IntToString(alarmId);
    ToIntOfIntToString(alarmId);
  }

  /** Different alarms get different routes. */
  lemma CreateRouteInjective(a: int, b: int)
    requires CreateRoute(a) == CreateRoute(b)
    ensures a == b
  {
    assert CreateRoute(a)[|EDIT_ALARM_PREFIX|..] == IntToString(a);
    assert CreateRoute(b)[|EDIT_ALARM_PREFIX|..] == IntToString(b);
    IntToStringInjective(a, b);
  }
}
