/**
 * ClockApp: the shell around the screens. It resolves the theme mode, decides
 * whether the tab bar or rail is shown, picks the direction of the horizontal
 * slide between tabs, highlights the current tab, and hands the editor its
 * alarm id. The current route is the destination's route pattern, absent
 * before the first destination is composed.
 */
module AppShell {
  import opened Common
  import opened Text
  import opened Intents
  import opened Routes

  /** "light" and "dark" force the theme; every other mode follows the system. */
  function IsDarkTheme(themeMode: string, isSystemDark: bool): (dark: bool)
    ensures themeMode == "dark" ==> dark
    ensures themeMode == "light" ==> !dark
    ensures themeMode != "light" && themeMode != "dark" ==> dark == isSystemDark
  {
    if themeMode == "light" then false
    else if themeMode == "dark" then true
    else isSystemDark
  }

  /** The navigation is shown on every destination except the alarm editor, and not before the first. */
  function IsNavVisible(currentRoute: Option<string>): (visible: bool)
    ensures visible <==> currentRoute.Some? && !StartsWith(currentRoute.value, "edit_alarm")
  {
    match currentRoute
    case None => false
    case Some(r) => !StartsWith(r, "edit_alarm")
  }

  /** The four tabs hide nothing; the editor's pattern and every concrete editor route hide the navigation. */
  lemma NavVisibleOnTabsOnly(s: Screen, alarmId: int)
    ensures IsNavVisible(Some(Route(s))) <==> s != EditAlarm
    ensures !IsNavVisible(Some(CreateRoute(alarmId)))
    ensures !IsNavVisible(None)
  {
    RoutesDistinct(s, s);
  }

  /** A side rail instead of a bottom bar in landscape or from 600 dp of width. */
  function UseNavRail(isLandscape: bool, screenWidthDp: int): bool {
    isLandscape || screenWidthDp >= 600
  }

  /** The tab order. */
  const TABS: seq<Screen> := [Clock, Alarm, Timer, Settings]

  /** Kotlin's `indexOfFirst { it.route == route }` over the tabs: -1 when no tab has that route. */
  function TabIndex(route: Option<string>): (i: int)
    ensures -1 <= i < |TABS|
    ensures i >= 0 ==> route == Some(Route(TABS[i]))
    ensures i == -1 <==> forall k :: 0 <= k < |TABS| ==> route != Some(Route(TABS[k]))
  {
    IndexIn(TABS, route)
  }

  function IndexIn(items: seq<Screen>, route: Option<string>): (i: int)
    ensures -1 <= i < |items|
    ensures i >= 0 ==> route == Some(Route(items[i])) && forall k :: 0 <= k < i ==> route != Some(Route(items[k]))
    ensures i == -1 <==> forall k :: 0 <= k < |items| ==> route != Some(Route(items[k]))
    decreases |items|
  {
    if items == [] then -1
    else if route == Some(Route(items[0])) then 0
    else
      var j := IndexIn(items[1..], route);
      assert forall k :: 0 < k < |items| ==> items[k] == items[1..][k - 1];
      if j == -1 then -1 else j + 1
  }

  /** Each tab finds its own position. */
  lemma TabIndexOfTab(k: int)
    requires 0 <= k < |TABS|
    ensures TabIndex(Some(Route(TABS[k]))) == k
  {
    var i := TabIndex(Some(Route(TABS[k])));
    RoutesDistinct(TABS[i], TABS[k]);
  }

  /**
   * The horizontal offset a destination slides in from: from the right when
   * the target tab lies to the right of the one left, from the left otherwise
   * (also between equal positions and between two non-tab routes).
   */
  function SlideOffset(initialRoute: Option<string>, targetRoute: Option<string>, fullWidth: int): (offset: int)
    ensures TabIndex(targetRoute) > TabIndex(initialRoute) ==> offset == fullWidth
    ensures TabIndex(targetRoute) <= TabIndex(initialRoute) ==> offset == -fullWidth
  {
    if TabIndex(targetRoute) > TabIndex(initialRoute) then fullWidth else -fullWidth
  }

  /**
   * Moving between two tabs, the way there and the way back slide in
   * opposite directions, and going right always comes from the right.
   */
  lemma SlideDirections(i: int, j: int, w: int)
    requires 0 <= i < j < |TABS|
    ensures SlideOffset(Some(Route(TABS[i])), Some(Route(TABS[j])), w) == w
    ensures SlideOffset(Some(Route(TABS[j])), Some(Route(TABS[i])), w) == -w
  {
    TabIndexOfTab(i);
    TabIndexOfTab(j);
  }

  /**
   * Leaving the alarm editor for any tab slides that tab in from the right,
   * since the editor is not a tab and counts as position -1.
   */
  lemma LeavingEditorComesFromRight(k: int, w: int)
    requires 0 <= k < |TABS|
    ensures SlideOffset(Some(Route(EditAlarm)), Some(Route(TABS[k])), w) == w
  {
    TabIndexOfTab(k);
    RoutesDistinct(EditAlarm, Clock);
    RoutesDistinct(EditAlarm, Alarm);
    RoutesDistinct(EditAlarm, Timer);
    RoutesDistinct(EditAlarm, Settings);
  }

  /** The highlighted tab: the current route's position, or the first tab when the route is not a tab. */
  function ActiveIndex(currentRoute: Option<string>): (i: int)
    ensures 0 <= i < |TABS|
    ensures TabIndex(currentRoute) >= 0 ==> i == TabIndex(currentRoute)
    ensures TabIndex(currentRoute) == -1 ==> i == 0
  {
    var k := TabIndex(currentRoute);
    if k < 0 then 0 else k
  }

  /** Exactly one tab is highlighted on every route: the route's own tab, else Clock. */
  lemma OneTabHighlighted(currentRoute: Option<string>, k: int)
    requires 0 <= k < |TABS|
    ensures k == ActiveIndex(currentRoute) <==>
      currentRoute == Some(Route(TABS[k])) || (k == 0 && TabIndex(currentRoute) == -1)
  {
    if currentRoute == Some(Route(TABS[k])) {
      TabIndexOfTab(k);
    }
  }

  /**
   * The arguments the navigation library hands the editor for a concrete
   * route: a bundle holding the parsed `Int` under "alarmId", or none when
   * the route does not match the pattern.
   */
  function EditArguments(route: string): Option<map<string, Extra>> {
    match EditArgument(route)
    case None => None
    case Some(id) => Some(map["alarmId" := IntExtra(id)])
  }

  /**
   * `arguments?.getInt("alarmId") ?: -1`: -1 without a bundle; a bundle
   * without an `Int` under the key reads as 0, `Bundle.getInt`'s default.
   */
  function EditAlarmId(arguments: Option<map<string, Extra>>): (id: int)
    ensures arguments.None? ==> id == -1
    ensures arguments.Some? && "alarmId" in arguments.value && arguments.value["alarmId"].IntExtra? ==>
      id == arguments.value["alarmId"].i
    ensures arguments.Some? && !("alarmId" in arguments.value && arguments.value["alarmId"].IntExtra?) ==> id == 0
  {
    match arguments
    case None => -1
    case Some(b) => if "alarmId" in b && b["alarmId"].IntExtra? then b["alarmId"].i else 0
  }

  /** Opening the editor through `createRoute(id)` edits exactly alarm id. */
  lemma EditorGetsCreatedId(alarmId: int)
    requires IsInt32(alarmId)
    ensures EditAlarmId(EditArguments(CreateRoute(alarmId))) == alarmId
  {
    CreateRouteReadsBack(alarmId);
  }

  /**
   * The exiting destination is asked for its offset with the width negated,
   * so it always leaves in the opposite direction to the one coming in.
   */
  lemma ExitOppositeToEnter(initialRoute: Option<string>, targetRoute: Option<string>, w: int)
    ensures SlideOffset(initialRoute, targetRoute, -w) == -SlideOffset(initialRoute, targetRoute, w)
  {
  }
}
