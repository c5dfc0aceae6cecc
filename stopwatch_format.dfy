/**
 * The stopwatch's arithmetic and its on-screen rendering: elapsed time from a
 * start instant and an accumulated total, "MM:SS.hh" for the running display
 * and for every lap, and the lap numbering of the lap list.
 */
module StopwatchFormat {
  import opened Common
  import opened Text

  /** Elapsed time while running: the current stretch plus what earlier stretches accumulated. */
  function ElapsedAt(startTime: int, accumulated: int, now: int): (r: int)
    ensures now >= startTime ==> r >= accumulated
  {
    (now - startTime) + accumulated
  }

  /** Minutes (uncapped), seconds past the minute and hundredths of a second of `millis`. */
  function StopwatchFields(millis: int): (r: (int, int, int))
    ensures millis >= 0 ==>
      && r.0 >= 0 && 0 <= r.1 < 60 && 0 <= r.2 < 100
      && r.0 * 60_000 + r.1 * 1000 + r.2 * 10 + millis % 10 == millis
  {
    var secs := Quot(millis, 1000);
    FieldsAddUp(millis);
    (Quot(secs, 60), Rem(secs, 60), Quot(Rem(millis, 1000), 10))
  }

  lemma FieldsAddUp(millis: int)
    ensures millis >= 0 ==>
      var secs := Quot(millis, 1000);
      Quot(secs, 60) * 60_000 + Rem(secs, 60) * 1000 + Quot(Rem(millis, 1000), 10) * 10 + millis % 10 == millis
  {
    if millis >= 0 {
      var secs := Quot(millis, 1000);
      var hundreds := Quot(Rem(millis, 1000), 10);
      assert millis == secs * 1000 + Rem(millis, 1000);
      assert secs == Quot(secs, 60) * 60 + Rem(secs, 60);
      assert Rem(millis, 1000) == hundreds * 10 + Rem(Rem(millis, 1000), 10);
      assert millis % 10 == Rem(Rem(millis, 1000), 10) by {
        assert millis == (secs * 100 + hundreds) * 10 + Rem(Rem(millis, 1000), 10);
      }
    }
  }

  /** `formatStopwatch` of the stopwatch screen: "%02d:%02d.%02d" of minutes, seconds and hundredths. */
  function FormatStopwatch(millis: int): string {
    var (m, s, h) := StopwatchFields(millis);
    Pad2(m) + ":" + Pad2(s) + "." + Pad2(h)
  }

  /** Under 100 minutes the display is exactly "MM:SS.hh"; from 100 minutes on the minutes field widens. */
  lemma StopwatchWidth(millis: int)
    requires millis >= 0
    ensures var m := StopwatchFields(millis).0;
      && (m < 100 ==> |FormatStopwatch(millis)| == 8)
      && (m >= 100 ==> |Pad2(m)| >= 3 && |FormatStopwatch(millis)| >= 9)
  {
    var (m, s, h) := StopwatchFields(millis);
    Pad2Value(m);
    Pad2Value(s);
    Pad2Value(h);
  }

  /** The display reads back as the elapsed time to the hundredth of a second. */
  lemma StopwatchReadsBack(millis: int)
    requires millis >= 0
    ensures var parts := Split(FormatStopwatch(millis), ':');
      |parts| == 2 &&
      var sh := Split(parts[1], '.');
      && |sh| == 2 && AllDigits(parts[0]) && AllDigits(sh[0]) && AllDigits(sh[1])
      && DigitsValue(parts[0]) * 60_000 + DigitsValue(sh[0]) * 1000 + DigitsValue(sh[1]) * 10 == millis - millis % 10
  {
    var (m, s, h) := StopwatchFields(millis);
    Pad2Value(m);
    Pad2Value(s);
    Pad2Value(h);
    var a, b, c := Pad2(m), Pad2(s), Pad2(h);
    NoSeparatorInDigits(a);
    NoSeparatorInDigits(b);
    NoSeparatorInDigits(c);
    var rest := b + "." + c;
    assert ':' !in rest by {
      NoSeparatorInDigits(b);
      NoSeparatorInDigits(c);
      assert forall i :: 0 <= i < |rest| ==> rest[i] == (if i < |b| then b[i] else if i == |b| then '.' else c[i - |b| - 1]);
    }
    assert FormatStopwatch(millis) == Join([a, rest], ':');
    SplitOfJoin([a, rest], ':');
    assert rest == Join([b, c], '.');
    SplitOfJoin([b, c], '.');
  }

  lemma NoSeparatorInDigits(s: string)
    requires AllDigits(s)
    ensures ':' !in s && '.' !in s
  {
    assert forall i :: 0 <= i < |s| ==> IsDigit(s[i]);
  }

  /** The label of lap number k. */
  function LapLabel(k: int): string {
    "Lap " + IntToString(k)
  }

  lemma LapLabelInjective(a: int, b: int)
    requires LapLabel(a) == LapLabel(b)
    ensures a == b
  {
    assert IntToString(a) == LapLabel(a)[4..];
    assert IntToString(b) == LapLabel(b)[4..];
    IntToStringInjective(a, b);
  }

  /** A row of the lap list: its lap number and the lap's time in milliseconds. */
  datatype LapRow = LapRow(number: int, millis: int)

  /** What a row shows: its label, and its time in the stopwatch's format. */
  function Shown(row: LapRow): (string, string) {
    (LapLabel(row.number), FormatStopwatch(row.millis))
  }

  /** The lap list, newest first: row i is lap n-i of n, with the i-th lap's time. */
  function LapRows(laps: seq<int>): (rows: seq<LapRow>)
    ensures |rows| == |laps|
    ensures forall i :: 0 <= i < |laps| ==> rows[i] == LapRow(|laps| - i, laps[i])
  {
    seq(|laps|, i requires 0 <= i < |laps| => LapRow(|laps| - i, laps[i]))
  }

  /**
   * The rows are numbered n, n-1, ..., 1 from the top, so no two rows share a
   * number or a label.
   */
  lemma LapNumbersDistinct(laps: seq<int>, i: int, j: int)
    requires 0 <= i < j < |laps|
    ensures LapRows(laps)[i].number == LapRows(laps)[j].number + (j - i)
    ensures LapLabel(LapRows(laps)[i].number) != LapLabel(LapRows(laps)[j].number)
    ensures LapRows(laps)[|laps| - 1].number == 1 && LapRows(laps)[0].number == |laps|
  {
    var a, b := LapRows(laps)[i].number, LapRows(laps)[j].number;
    if LapLabel(a) == LapLabel(b) {
      LapLabelInjective(a, b);
    }
  }

  /** The bottom row's label. */
  lemma FirstLapLabel()
    ensures LapLabel(1) == "Lap 1"
  {
    assert IntToString(1) == "1";
  }

  /** A new lap goes on top, showing its time, and every earlier row keeps its number and time. */
  lemma NewLapKeepsRows(lap: int, laps: seq<int>)
    ensures LapRows([lap] + laps)[1..] == LapRows(laps)
    ensures Shown(LapRows([lap] + laps)[0]) == (LapLabel(|laps| + 1), FormatStopwatch(lap))
  {
    var l := [lap] + laps;
    var r, r' := LapRows(l), LapRows(laps);
    forall i | 0 <= i < |laps|
      ensures r[1..][i] == r'[i]
    {
      assert l[i + 1] == laps[i] && |l| - (i + 1) == |laps| - i;
    }
  }
}
