/**
 * The stored alarm record (the `alarms` table row).
 *
 * `time` is a time of day written "HH:mm" and carries no date. An `id` of 0
 * means "let the store assign one" when the record is inserted.
 */
module AlarmData {

  datatype Alarm = Alarm(
    id: int := 0,
    time: string,
    labelText: string,
    tag: string := "",
    colorArgb: int,
    isActive: bool := true,
    isSnoozeEnabled: bool := true,
    isVibrationEnabled: bool := true)

  /** A record built from the required fields only takes every declared default. */
  lemma Defaults(time: string, text: string, colorArgb: int)
    ensures var a := Alarm(time := time, labelText := text, colorArgb := colorArgb);
      && a.id == 0 && a.tag == ""
      && a.isActive && a.isSnoozeEnabled && a.isVibrationEnabled
      && a.time == time && a.labelText == text && a.colorArgb == colorArgb
  {
  }
}
