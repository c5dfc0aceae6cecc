/**
 * WorldClockCard: the derived texts of one world-clock card. The zone's live
 * offset and the device's own offset are inputs (seconds east of UTC); the
 * ticking `now` and the clock face are not part of this model.
 */
module WorldClockCardView {
  import opened Common
  import opened Text

  /**
   * The card's title: the text after the last '/' of the zone id, with every
   * underscore shown as a space.
   */
  function CityName(zoneId: string): (r: string)
    ensures |r| <= |zoneId|
    ensures '/' !in r && '_' !in r
    ensures |r| == |zoneId| || zoneId[|zoneId| - |r| - 1] == '/'
    ensures forall i :: 0 <= i < |r| ==>
      var c := zoneId[|zoneId| - |r| + i];
      c != '/' && r[i] == (if c == '_' then ' ' else c)
  {
    var tail := SubstringAfterLast(zoneId, '/');
    assert forall i :: 0 <= i < |tail| ==> tail[i] == zoneId[|zoneId| - |tail| + i];
    ReplaceChar(tail, '_', ' ')
  }

  /** `(targetOffset - localOffset) / 3600`: whole hours between the zones, truncated toward zero. */
  function DiffHours(targetOffset: int, localOffset: int): (n: int)
    ensures var d := targetOffset - localOffset;
      && (d >= 0 ==> 0 <= n * 3600 <= d < n * 3600 + 3600)
      && (d < 0 ==> n * 3600 - 3600 < d <= n * 3600 <= 0)
  {
    Quot(targetOffset - localOffset, 3600)
  }

  /** The colour the label is drawn in: yellow ahead, purple behind, grey level. */
  datatype OffsetTone = Ahead | Behind | Level

  datatype OffsetBadge = OffsetBadge(text: string, tone: OffsetTone)

  /** The badge for a difference of n hours: "+N h" ahead, "N h" (with its minus sign) behind, "Same" otherwise. */
  function OffsetLabel(n: int): (b: OffsetBadge)
    ensures n > 0 <==> b.tone == Ahead
    ensures n < 0 <==> b.tone == Behind
    ensures n == 0 <==> b.text == "Same"
  {
    if n > 0 then
      assert ("+" + IntToString(n) + " h")[0] == '+';
      OffsetBadge("+" + IntToString(n) + " h", Ahead)
    else if n < 0 then
      assert (IntToString(n) + " h")[0] == '-';
      OffsetBadge(IntToString(n) + " h", Behind)
    else OffsetBadge("Same", Level)
  }

  /** The badge of the card for these offsets. */
  function Badge(targetOffset: int, localOffset: int): OffsetBadge {
    OffsetLabel(DiffHours(targetOffset, localOffset))
  }

  /**
   * A badge other than "Same" is a signed number followed by " h", and that
   * number reads back (as Kotlin's `toInt` would) as the hour difference.
   */
  lemma BadgeReadsBack(n: int)
    requires n != 0 && IsInt32(n)
    ensures var t := OffsetLabel(n).text;
      && |t| >= 3 && t[|t| - 2..] == " h"
      && (t[0] == '+' <==> n > 0) && (t[0] == '-' <==> n < 0)
      && ToInt(t[..|t| - 2]) == Some(n)
  {
    var t := OffsetLabel(n).text;
    ToIntOfIntToString(n);
    if n > 0 {
      assert t[..|t| - 2] == "+" + IntToString(n);
      assert IntToString(n) == NatToString(n);
      assert ("+" + IntToString(n))[1..] == IntToString(n);
      NatToStringValue(n);
    } else {
      assert t[..|t| - 2] == IntToString(n);
    }
  }

  /** Offsets less than one hour apart, in either direction, show "Same". */
  lemma WithinAnHourIsSame(targetOffset: int, localOffset: int)
    ensures -3600 < targetOffset - localOffset < 3600 <==> Badge(targetOffset, localOffset) == OffsetBadge("Same", Level)
  {
  }
}
