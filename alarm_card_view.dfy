/**
 * How an alarm card shows its alarm: the stored "HH:mm" time in 12-hour form
 * with a separate am/pm marker (or, when the time does not parse, the raw
 * string with no marker), the label as title, and a badge for a tag.
 */
module AlarmCardView {
  import opened Common
  import opened Text
  import opened Scheduling

  /**
   * `LocalTime.parse(s, DateTimeFormatter.ofPattern("HH:mm"))`: exactly two
   * ASCII digits, ':', two ASCII digits; hour 0..23 and minute 0..59, except
   * that the smart resolver reads "24:00" as midnight. None is the
   * DateTimeParseException.
   */
  function ParseClockTime(s: string): (r: Option<TimeOfDay>)
    ensures r.Some? ==> ValidTimeOfDay(r.value)
    ensures r.Some? ==> |s| == 5 && s[2] == ':'
  {
    if |s| == 5 && s[2] == ':' && AllDigits(s[..2]) && AllDigits(s[3..]) then
      var h := DigitsValue(s[..2]);
      var m := DigitsValue(s[3..]);
      if h < 24 && m < 60 then Some(TimeOfDay(h, m))
      else if h == 24 && m == 0 then Some(TimeOfDay(0, 0))
      else None
    else None
  }

  /** Every time the screens store parses back to the picker's hour and minute. */
  lemma ParseClockTimeFormatted(t: TimeOfDay)
    requires ValidTimeOfDay(t)
    ensures ParseClockTime(FormatAlarmTime(t.hour, t.minute)) == Some(t)
  {
    var a, b := Pad2(t.hour), Pad2(t.minute);
    Pad2Value(t.hour);
    Pad2Value(t.minute);
    var s := FormatAlarmTime(t.hour, t.minute);
    assert s[..2] == a && s[3..] == b;
  }

  /** What the card accepts, the scheduler reads the same way, except for the spelling "24:00". */
  lemma ClockTimeAgreesWithScheduler(s: string)
    requires ParseClockTime(s).Some? && s != "24:00"
    ensures ParseAlarmTime(s) == ParseClockTime(s)
  {
    var a, b := s[..2], s[3..];
    assert s == a + [':'] + b;
    assert ':' !in a && ':' !in b by {
      assert forall i :: 0 <= i < |a| ==> IsDigit(a[i]);
      assert forall i :: 0 <= i < |b| ==> IsDigit(b[i]);
    }
    assert Join([a, b], ':') == s;
    SplitOfJoin([a, b], ':');
    TwoDigitsBelow100(a);
    TwoDigitsBelow100(b);
  }

  lemma TwoDigitsBelow100(s: string)
    requires |s| == 2 && AllDigits(s)
    ensures DigitsValue(s) < 100
    ensures DigitsValue(s) == DigitValue(s[0]) * 10 + DigitValue(s[1])
  {
    assert s[..1][..0] == [] && s[..1][0] == s[0];
    assert DigitsValue(s[..1]) == DigitValue(s[0]);
  }

  /** "24:00" shows on the card as midnight, while the scheduler rejects it. */
  lemma TwentyFourHundred()
    ensures ParseClockTime("24:00") == Some(TimeOfDay(0, 0))
    ensures ParseAlarmTime("24:00") == None
  {
    var s := "24:00";
    assert s == "24" + [':'] + "00";
    assert ':' !in "24" && ':' !in "00";
    assert Join(["24", "00"], ':') == s;
    SplitOfJoin(["24", "00"], ':');
    TwoDigitsBelow100("24");
    TwoDigitsBelow100("00");
    assert s[..2] == "24" && s[3..] == "00";
  }

  /** The hour on a 12-hour clock face (pattern "h"). */
  function Hour12(hour: int): (r: int)
    requires 0 <= hour < 24
    ensures 1 <= r <= 12
    ensures hour == 0 ==> r == 12
    ensures 1 <= hour <= 12 ==> r == hour
    ensures 13 <= hour ==> r == hour - 12
  {
    if hour % 12 == 0 then 12 else hour % 12
  }

  /** The marker of pattern "a" (English names). */
  function Marker(hour: int): string {
    if hour < 12 then "AM" else "PM"
  }

  /** Reading a 12-hour face with its marker back as a 24-hour hour. */
  function Hour24(hour12: int, marker: string): int {
    if marker == "AM" then (if hour12 == 12 then 0 else hour12)
    else (if hour12 == 12 then 12 else hour12 + 12)
  }

  /** The 12-hour face and the marker together say which hour it is. */
  lemma TwelveHourFaceIsFaithful(hour: int)
    requires 0 <= hour < 24
    ensures Hour24(Hour12(hour), Marker(hour)) == hour
  {
  }

  /** `parsedTime`: the time text and the marker text of a card. */
  function CardTime(time: string): (r: (string, string))
    ensures ParseClockTime(time).None? ==> r == (time, "")
    ensures ParseClockTime(time).Some? ==>
      var t := ParseClockTime(time).value;
      r == (IntToString(Hour12(t.hour)) + ":" + Pad2(t.minute), Marker(t.hour))
  {
    match ParseClockTime(time)
    case None => (time, "")
    case Some(t) => (IntToString(Hour12(t.hour)) + ":" + Pad2(t.minute), Marker(t.hour))
  }

  /** A card for a stored time shows the 12-hour face and a non-empty marker. */
  lemma CardShowsStoredTime(t: TimeOfDay)
    requires ValidTimeOfDay(t)
    ensures var r := CardTime(FormatAlarmTime(t.hour, t.minute));
      && r.0 == IntToString(Hour12(t.hour)) + ":" + Pad2(t.minute)
      && r.1 == Marker(t.hour) && ShowsMarker(r.1)
  {
    ParseClockTimeFormatted(t);
  }

  /** The marker is displayed lowercased, and only when there is one. */
  predicate ShowsMarker(marker: string) {
    marker != []
  }

  function DisplayedMarker(marker: string): string {
    Lower(marker)
  }

  /** The card of a stored time shows "am" before noon and "pm" from noon on. */
  lemma StoredTimeMarker(t: TimeOfDay)
    requires ValidTimeOfDay(t)
    ensures DisplayedMarker(CardTime(FormatAlarmTime(t.hour, t.minute)).1) == if t.hour < 12 then "am" else "pm"
  {
    ParseClockTimeFormatted(t);
  }

  /** The title: "Alarm" for an empty label only (a blank one is shown as it is). */
  function Title(labelText: string): (r: string)
    ensures labelText == [] ==> r == "Alarm"
    ensures labelText != [] ==> r == labelText
  {
    if labelText == [] then "Alarm" else labelText
  }

  /** The tag badge is drawn only for a non-empty tag. */
  predicate ShowsTagBadge(tag: string) {
    tag != []
  }
}
