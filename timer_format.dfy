/**
 * The timer screen's two renderings: the keypad buffer as "HHh MMm SSs" while
 * the user types, and a number of seconds as "MM:SS" or "H:MM:SS" while the
 * countdown runs. The keypad buffer is read as six digits HHMMSS after padding
 * it on the left with zeros, both here and where the timer starts.
 */
module TimerFormat {
  import opened Common
  import opened Text

  /** The buffer left-padded to six digits (`padStart(6, '0')`). */
  function Padded(input: string): (p: string)
    requires AllDigits(input)
    ensures |p| == if |input| >= 6 then |input| else 6
    ensures AllDigits(p) && DigitsValue(p) == DigitsValue(input)
  {
    DigitsValuePadStart(input, 6);
    PadStart(input, 6, '0')
  }

  /** The three two-digit fields of the padded buffer: characters 0-1, 2-3 and 4-5. */
  function InputFields(input: string): (r: (nat, nat, nat))
    requires AllDigits(input)
    ensures r.0 < 100 && r.1 < 100 && r.2 < 100
  {
    var p := Padded(input);
    DigitsValueBound(p[..2]);
    DigitsValueBound(p[2..4]);
    DigitsValueBound(p[4..6]);
    (DigitsValue(p[..2]), DigitsValue(p[2..4]), DigitsValue(p[4..6]))
  }

  /** For a buffer of at most six digits, the fields are the digits of its value read as HHMMSS. */
  lemma InputIsHhmmss(input: string)
    requires AllDigits(input) && |input| <= 6
    ensures var f := InputFields(input); f.0 * 10000 + f.1 * 100 + f.2 == DigitsValue(input)
  {
    SixDigits(Padded(input));
  }

  lemma SixDigits(p: string)
    requires |p| == 6 && AllDigits(p)
    ensures DigitsValue(p[..2]) * 10000 + DigitsValue(p[2..4]) * 100 + DigitsValue(p[4..6]) == DigitsValue(p)
  {
    var a, b, c := p[..2], p[2..4], p[4..6];
    assert p == a + b + c;
    assert Pow10(2) == 100 by {
      assert Pow10(1) == 10;
    }
    DigitsValueAppend(a, b);
    DigitsValueAppend(a + b, c);
    Regroup(DigitsValue(a), DigitsValue(b), DigitsValue(c));
  }

  lemma Regroup(x: int, y: int, z: int)
    ensures (x * 100 + y) * 100 + z == x * 10000 + y * 100 + z
  {
  }

  /** `formatInputPremium`. */
  function FormatInputPremium(input: string): (r: string)
    requires AllDigits(input)
    ensures |input| <= 6 ==> |r| == 11
  {
    if input == [] then "00h 00m 00s"
    else
      var p := Padded(input);
      p[..2] + "h " + p[2..4] + "m " + p[4..6] + "s"
  }

  /** The typed buffer is shown as its three fields, each with two digits. */
  lemma PremiumShowsFields(input: string)
    requires AllDigits(input) && |input| <= 6
    ensures var f := InputFields(input);
      FormatInputPremium(input) == Pad2(f.0) + "h " + Pad2(f.1) + "m " + Pad2(f.2) + "s"
  {
    var p := Padded(input);
    assert AllDigits(p[..2]) && AllDigits(p[2..4]) && AllDigits(p[4..6]);
    Pad2OfTwoDigits(p[..2]);
    Pad2OfTwoDigits(p[2..4]);
    Pad2OfTwoDigits(p[4..6]);
    if input == [] {
      assert p == "000000";
      assert InputFields(input) == (0, 0, 0) by {
        assert p[..2] == "00" && p[2..4] == "00" && p[4..6] == "00";
        Pad2Value(0);
      }
    }
  }

  /** Hours, minutes past the hour and seconds past the minute (`/ 3600`, `% 3600 / 60`, `% 60` on `Long`). */
  function Hms(seconds: int): (r: (int, int, int))
    ensures r.0 * 3600 + r.1 * 60 + r.2 == seconds
    ensures seconds >= 0 ==> r.0 >= 0 && 0 <= r.1 < 60 && 0 <= r.2 < 60
    ensures seconds < 0 ==> r.0 <= 0 && -60 < r.1 <= 0 && -60 < r.2 <= 0
  {
    var h, m, s := Quot(seconds, 3600), Quot(Rem(seconds, 3600), 60), Rem(seconds, 60);
    assert Rem(seconds, 3600) == m * 60 + Rem(Rem(seconds, 3600), 60);
    assert Rem(Rem(seconds, 3600), 60) == s by {
      var q := Quot(seconds, 3600);
      assert seconds == (q * 60 + m) * 60 + Rem(Rem(seconds, 3600), 60);
      assert seconds == Quot(seconds, 60) * 60 + s;
      SameMinuteRemainder(seconds, q * 60 + m, Rem(Rem(seconds, 3600), 60), Quot(seconds, 60), s);
    }
    (h, m, s)
  }

  /** Two truncating divisions of the same number by 60 with remainders of its sign agree. */
  lemma SameMinuteRemainder(a: int, q1: int, r1: int, q2: int, r2: int)
    requires a == q1 * 60 + r1 && a == q2 * 60 + r2
    requires (a >= 0 && 0 <= r1 < 60 && 0 <= r2 < 60) || (a < 0 && -60 < r1 <= 0 && -60 < r2 <= 0)
    ensures r1 == r2
  {
  }

  /** `formatSeconds`: "MM:SS" under one hour, "H:MM:SS" with unpadded hours from one hour up. */
  function FormatSeconds(seconds: int): (r: string)
    ensures 0 <= seconds < 3600 ==> |r| == 5
  {
    var (h, m, s) := Hms(seconds);
    Pad2Width(m);
    Pad2Width(s);
    if h > 0 then IntToString(h) + ":" + Pad2(m) + ":" + Pad2(s)
    else Pad2(m) + ":" + Pad2(s)
  }

  /** The rendered countdown reads back, field by field, as the number of seconds it shows. */
  lemma FormatSecondsReadsBack(seconds: int)
    requires seconds >= 0
    ensures var parts := Split(FormatSeconds(seconds), ':');
      && (forall i :: 0 <= i < |parts| ==> AllDigits(parts[i]))
      && (seconds < 3600 ==> |parts| == 2 && DigitsValue(parts[0]) * 60 + DigitsValue(parts[1]) == seconds)
      && (seconds >= 3600 ==>
            |parts| == 3 && DigitsValue(parts[0]) * 3600 + DigitsValue(parts[1]) * 60 + DigitsValue(parts[2]) == seconds)
  {
    if seconds < 3600 {
      MinutesReadBack(seconds);
    } else {
      HoursReadBack(seconds);
    }
  }

  /** Under an hour: "MM:SS". */
  lemma MinutesReadBack(seconds: int)
    requires 0 <= seconds < 3600
    ensures var parts := Split(FormatSeconds(seconds), ':');
      && |parts| == 2 && AllDigits(parts[0]) && AllDigits(parts[1])
      && DigitsValue(parts[0]) * 60 + DigitsValue(parts[1]) == seconds
  {
    var (h, m, s) := Hms(seconds);
    Pad2Value(m);
    Pad2Value(s);
    NoColonInDigits(Pad2(m));
    NoColonInDigits(Pad2(s));
    var parts := [Pad2(m), Pad2(s)];
    assert FormatSeconds(seconds) == Join(parts, ':');
    SplitOfJoin(parts, ':');
  }

  /** From an hour up: "H:MM:SS". */
  lemma HoursReadBack(seconds: int)
    requires seconds >= 3600
    ensures var parts := Split(FormatSeconds(seconds), ':');
      && |parts| == 3 && AllDigits(parts[0]) && AllDigits(parts[1]) && AllDigits(parts[2])
      && DigitsValue(parts[0]) * 3600 + DigitsValue(parts[1]) * 60 + DigitsValue(parts[2]) == seconds
  {
    var (h, m, s) := Hms(seconds);
    Pad2Value(m);
    Pad2Value(s);
    NoColonInDigits(Pad2(m));
    NoColonInDigits(Pad2(s));
    NatToStringValue(h);
    NoColonInDigits(NatToString(h));
    var parts := [NatToString(h), Pad2(m), Pad2(s)];
    assert Join(parts[1..], ':') == Pad2(m) + ":" + Pad2(s);
    assert FormatSeconds(seconds) == Join(parts, ':');
    SplitOfJoin(parts, ':');
  }


  lemma Pad2Width(n: int)
    ensures 0 <= n < 100 ==> |Pad2(n)| == 2
  {
    if 0 <= n {
      Pad2Value(n);
    }
  }

  lemma NoColonInDigits(s: string)
    requires AllDigits(s)
    ensures ':' !in s
  {
    assert forall i :: 0 <= i < |s| ==> IsDigit(s[i]);
  }
}
