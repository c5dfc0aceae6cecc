/**
 * The "New Alarm" sheet: what its save button hands to the alarm list.
 */
module AddAlarm {
  import opened Common
  import opened Text
  import opened Scheduling

  /** `Color(0xFFE0F7FA).toArgb()`: the ARGB word read as a signed 32-bit `Int`. */
  const DEFAULT_COLOR_ARGB: int := 0xFFE0_F7FA - 0x1_0000_0000

  datatype SaveArguments = SaveArguments(time: string, labelText: string, tag: string, colorArgb: int)

  /** The save button: the picker's time as "%02d:%02d", a blank label replaced by "Alarm", no tag, the default colour. */
  function SaveArgumentsOf(hour: int, minute: int, labelInput: string): (r: SaveArguments)
    ensures r.tag == "" && r.colorArgb == DEFAULT_COLOR_ARGB
    ensures IsBlank(labelInput) ==> r.labelText == "Alarm"
    ensures !IsBlank(labelInput) ==> r.labelText == labelInput
  {
    SaveArguments(FormatAlarmTime(hour, minute), IfBlank(labelInput, "Alarm"), "", DEFAULT_COLOR_ARGB)
  }

  /** The saved time is read back by the scheduler as the picker's hour and minute. */
  lemma SavedTimeReadsBack(hour: int, minute: int, labelInput: string)
    requires 0 <= hour < 24 && 0 <= minute < 60
    ensures ParseAlarmTime(SaveArgumentsOf(hour, minute, labelInput).time) == Some(TimeOfDay(hour, minute))
  {
    ParseFormatted(TimeOfDay(hour, minute));
  }

  /** The default colour is the 32-bit pattern 0xFFE0F7FA. */
  lemma DefaultColorBits()
    ensures IsInt32(DEFAULT_COLOR_ARGB)
    ensures DEFAULT_COLOR_ARGB + 0x1_0000_0000 == 0xFFE0_F7FA
  {
  }
}
