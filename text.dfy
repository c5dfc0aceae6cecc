/**
 * The string operations of Kotlin's standard library that the app relies on,
 * specialised to what the app does with them: decimal rendering (`"$n"`,
 * `"%d"`, `"%02d"`), `String.toInt()`, `padStart`, `split` on one character,
 * `substringAfterLast`, `replace` of one character, `trim`, `isBlank`,
 * `startsWith` and `contains` (also ignoring case).
 *
 * Digits are ASCII; case folding is ASCII only.
 */
module Text {
  import opened Common

  predicate IsDigit(c: char) {
    '0' <= c <= '9'
  }

  predicate AllDigits(s: string) {
    forall i :: 0 <= i < |s| ==> IsDigit(s[i])
  }

  /** One key of the timer's numeric keypad. */
  type Digit = c: char | IsDigit(c) witness '0'

  function DigitValue(c: char): (d: nat)
    requires IsDigit(c)
    ensures d < 10
  {
    (c as int) - ('0' as int)
  }

  function DigitChar(d: nat): (c: char)
    requires d < 10
    ensures IsDigit(c) && DigitValue(c) == d
  {
    (('0' as int) + d) as char
  }

  /** The value of a string of decimal digits; the empty string is worth 0. */
  function DigitsValue(s: string): nat
    requires AllDigits(s)
    decreases |s|
  {
    if s == [] then 0 else DigitsValue(s[..|s| - 1]) * 10 + DigitValue(s[|s| - 1])
  }

  /** A leading zero does not change the value of a digit string. */
  lemma {:induction false} DigitsValueLeadingZero(t: string)
    requires AllDigits(t)
    ensures AllDigits("0" + t) && DigitsValue("0" + t) == DigitsValue(t)
  {
    if t != [] {
      var t' := t[..|t| - 1];
      DigitsValueLeadingZero(t');
      assert ("0" + t)[..|"0" + t| - 1] == "0" + t';
    }
  }

  function Pow10(k: nat): (p: nat)
    ensures p >= 1
  {
    if k == 0 then 1 else 10 * Pow10(k - 1)
  }

  lemma ShiftDigit(x: int, p: int, y: int, d: int)
    ensures (x * p + y) * 10 + d == x * (10 * p) + (y * 10 + d)
  {
  }

  /** The value of a concatenation of digit strings: the left part is shifted by the right part's length. */
  lemma {:induction false} DigitsValueAppend(a: string, b: string)
    requires AllDigits(a) && AllDigits(b)
    ensures AllDigits(a + b) && DigitsValue(a + b) == DigitsValue(a) * Pow10(|b|) + DigitsValue(b)
    decreases |b|
  {
    assert AllDigits(a + b) by {
      assert forall i :: 0 <= i < |a + b| ==> (a + b)[i] == if i < |a| then a[i] else b[i - |a|];
    }
    if b == [] {
      assert a + b == a;
    } else {
      var b' := b[..|b| - 1];
      var d := DigitValue(b[|b| - 1]);
      DigitsValueAppend(a, b');
      assert (a + b)[..|a + b| - 1] == a + b';
      assert DigitsValue(a + b) == DigitsValue(a + b') * 10 + d;
      ShiftDigit(DigitsValue(a), Pow10(|b'|), DigitsValue(b'), d);
    }
  }

  /** A string of zeros is worth 0. */
  lemma {:induction false} DigitsValueOfZeros(z: string)
    requires forall i :: 0 <= i < |z| ==> z[i] == '0'
    ensures AllDigits(z) && DigitsValue(z) == 0
    decreases |z|
  {
    if z != [] {
      DigitsValueOfZeros(z[..|z| - 1]);
    }
  }

  /** Zeros put in front by `padStart` do not change the value of a digit string. */
  lemma DigitsValuePadStart(s: string, len: nat)
    requires AllDigits(s)
    ensures AllDigits(PadStart(s, len, '0')) && DigitsValue(PadStart(s, len, '0')) == DigitsValue(s)
  {
    var r := PadStart(s, len, '0');
    var z := r[..|r| - |s|];
    assert r == z + r[|r| - |s|..];
    DigitsValueOfZeros(z);
    DigitsValueAppend(z, s);
  }

  /** A string of digits is worth less than 10 to the power of its length. */
  lemma {:induction false} DigitsValueBound(s: string)
    requires AllDigits(s)
    ensures DigitsValue(s) < Pow10(|s|)
    decreases |s|
  {
    if s != [] {
      DigitsValueBound(s[..|s| - 1]);
    }
  }

  /** Decimal rendering of a natural number without leading zeros. */
  function NatToString(n: nat): (s: string)
    ensures 1 <= |s| && AllDigits(s)
    ensures |s| > 1 ==> s[0] != '0'
    ensures n < 10 <==> |s| == 1
    ensures 10 <= n < 100 <==> |s| == 2
    decreases n
  {
    if n < 10 then [DigitChar(n)] else NatToString(n / 10) + [DigitChar(n % 10)]
  }

  /** Reading back a rendered number gives the number. */
  lemma {:induction false} NatToStringValue(n: nat)
    ensures DigitsValue(NatToString(n)) == n
  {
    if n >= 10 {
      var s := NatToString(n);
      NatToStringValue(n / 10);
      assert s[..|s| - 1] == NatToString(n / 10);
    }
  }

  /** Kotlin's rendering of an integer in a string template or with `%d`. */
  function IntToString(n: int): (s: string)
    ensures |s| >= 1
    ensures n >= 0 <==> IsDigit(s[0])
    ensures n < 0 <==> s[0] == '-'
  {
    if n < 0 then "-" + NatToString(-n) else NatToString(n)
  }

  /** Different integers render differently. */
  lemma IntToStringInjective(a: int, b: int)
    requires IntToString(a) == IntToString(b)
    ensures a == b
  {
    if a >= 0 && b >= 0 {
      NatToStringValue(a);
      NatToStringValue(b);
    } else if a < 0 && b < 0 {
      assert IntToString(a)[1..] == NatToString(-a);
      assert IntToString(b)[1..] == NatToString(-b);
      NatToStringValue(-a);
      NatToStringValue(-b);
    }
  }

  /** `String.format("%02d", n)`: at least two characters, zero-padded after any sign. */
  function Pad2(n: int): string {
    if 0 <= n < 10 then "0" + NatToString(n) else IntToString(n)
  }

  /** For n >= 0, `%02d` is a digit string worth n, exactly two long below 100. */
  lemma Pad2Value(n: nat)
    ensures AllDigits(Pad2(n)) && DigitsValue(Pad2(n)) == n
    ensures |Pad2(n)| >= 2 && (n < 100 <==> |Pad2(n)| == 2)
  {
    NatToStringValue(n);
    if n < 10 {
      DigitsValueLeadingZero(NatToString(n));
    }
  }

  /** Two digits rendered back with `%02d` give the same two digits. */
  lemma Pad2OfTwoDigits(s: string)
    requires |s| == 2 && AllDigits(s)
    ensures Pad2(DigitsValue(s)) == s
  {
    assert s[..1][..0] == [];
    assert DigitsValue(s[..1]) == DigitValue(s[0]);
    var v := DigitsValue(s);
    assert v == DigitValue(s[0]) * 10 + DigitValue(s[1]);
    assert DigitChar(DigitValue(s[1])) == s[1];
    if DigitValue(s[0]) == 0 {
      assert s[0] == '0';
      assert Pad2(v) == "0" + [DigitChar(v)];
    } else {
      assert DigitChar(DigitValue(s[0])) == s[0];
      assert v / 10 == DigitValue(s[0]) && v % 10 == DigitValue(s[1]);
      assert NatToString(v) == NatToString(v / 10) + [DigitChar(v % 10)];
    }
  }

  /** Kotlin's `padStart(len, c)`. */
  function PadStart(s: string, len: nat, c: char): (r: string)
    ensures |r| == if |s| >= len then |s| else len
    ensures r[|r| - |s|..] == s
    ensures forall i :: 0 <= i < |r| - |s| ==> r[i] == c
  {
    if |s| >= len then s else seq(len - |s|, _ => c) + s
  }

  /**
   * Kotlin's `String.toInt()` (java.lang.Integer.parseInt): an optional `+` or
   * `-`, then at least one digit, and the value must fit in an `Int`;
   * anything else throws NumberFormatException, modelled as None.
   */
  function ToInt(s: string): (r: Option<int>)
    ensures r.Some? ==> IsInt32(r.value)
    ensures s != [] && AllDigits(s) && DigitsValue(s) <= INT_MAX ==> r == Some(DigitsValue(s))
    ensures s == [] ==> r == None
  {
    if |s| >= 1 && (s[0] == '-' || s[0] == '+') then
      var body := s[1..];
      if body != [] && AllDigits(body) then
        var v: int := if s[0] == '-' then -(DigitsValue(body) as int) else DigitsValue(body);
        if IsInt32(v) then Some(v) else None
      else None
    else if s != [] && AllDigits(s) && DigitsValue(s) <= INT_MAX then Some(DigitsValue(s))
    else None
  }

  /** `toInt()` reads back what a string template wrote, for every `Int`. */
  lemma ToIntOfIntToString(n: int)
    requires IsInt32(n)
    ensures ToInt(IntToString(n)) == Some(n)
  {
    if n >= 0 {
      NatToStringValue(n);
    } else {
      var s := IntToString(n);
      assert s[1..] == NatToString(-n);
      NatToStringValue(-n);
    }
  }

  /** `toInt()` reads back what `%02d` wrote, for the values a time picker produces. */
  lemma ToIntOfPad2(n: nat)
    requires n < 100
    ensures ToInt(Pad2(n)) == Some(n)
  {
    Pad2Value(n);
  }

  /** Kotlin's `split(c)`: every piece between occurrences of c, empty pieces kept. */
  function Split(s: string, c: char): (parts: seq<string>)
    ensures |parts| >= 1
    ensures forall i :: 0 <= i < |parts| ==> c !in parts[i]
    decreases |s|
  {
    if s == [] then [""]
    else
      var rest := Split(s[1..], c);
      if s[0] == c then [""] + rest else [[s[0]] + rest[0]] + rest[1..]
  }

  /** Kotlin's `joinToString(c)`, the inverse of Split. */
  function Join(parts: seq<string>, c: char): string
    requires |parts| >= 1
  {
    if |parts| == 1 then parts[0] else parts[0] + [c] + Join(parts[1..], c)
  }

  lemma {:induction false} SplitNoSeparator(s: string, c: char)
    requires c !in s
    ensures Split(s, c) == [s]
    decreases |s|
  {
    if s != [] {
      SplitNoSeparator(s[1..], c);
      assert [s[0]] + s[1..] == s;
    }
  }

  lemma {:induction false} SplitAfterSeparator(a: string, rest: string, c: char)
    requires c !in a
    ensures Split(a + [c] + rest, c) == [a] + Split(rest, c)
    decreases |a|
  {
    if a == [] {
      assert (a + [c] + rest)[1..] == rest;
    } else {
      SplitAfterSeparator(a[1..], rest, c);
      assert (a + [c] + rest)[1..] == a[1..] + [c] + rest;
      assert [a[0]] + a[1..] == a;
    }
  }

  /** Splitting a join of separator-free pieces gives the pieces back. */
  lemma {:induction false} SplitOfJoin(parts: seq<string>, c: char)
    requires |parts| >= 1
    requires forall i :: 0 <= i < |parts| ==> c !in parts[i]
    ensures Split(Join(parts, c), c) == parts
  {
    if |parts| == 1 {
      SplitNoSeparator(parts[0], c);
    } else {
      SplitOfJoin(parts[1..], c);
      SplitAfterSeparator(parts[0], Join(parts[1..], c), c);
    }
  }

  /** The pieces with x appended to the last one. */
  function ExtendLast(p: seq<string>, x: char): (r: seq<string>)
    requires |p| >= 1
    ensures |r| == |p| && r[..|r| - 1] == p[..|p| - 1] && r[|r| - 1] == p[|p| - 1] + [x]
  {
    p[..|p| - 1] + [p[|p| - 1] + [x]]
  }

  /** The pieces with a prepended to the first one. */
  function ExtendFirst(a: char, p: seq<string>): seq<string>
    requires |p| >= 1
  {
    [[a] + p[0]] + p[1..]
  }

  lemma SplitCons(a: char, t: string, c: char)
    ensures Split([a] + t, c) == if a == c then [""] + Split(t, c) else ExtendFirst(a, Split(t, c))
  {
    var s := [a] + t;
    assert s[0] == a && s[1..] == t;
    assert Split(s, c) == if s[0] == c then [""] + Split(s[1..], c) else [[s[0]] + Split(s[1..], c)[0]] + Split(s[1..], c)[1..];
  }

  lemma ExtendFirstLast(a: char, p: seq<string>, x: char)
    requires |p| >= 1
    ensures ExtendFirst(a, ExtendLast(p, x)) == ExtendLast(ExtendFirst(a, p), x)
    ensures ExtendFirst(a, p + [""]) == ExtendFirst(a, p) + [""]
  {
    var q := ExtendFirst(a, p);
    if |p| == 1 {
      assert ExtendLast(p, x) == [p[0] + [x]];
      assert [a] + (p[0] + [x]) == ([a] + p[0]) + [x];
    } else {
      assert ExtendLast(p, x)[0] == p[0];
      assert ExtendLast(p, x)[1..] == ExtendLast(p[1..], x);
      assert q[..|q| - 1] == [[a] + p[0]] + p[1..][..|p| - 2];
      assert q[|q| - 1] == p[|p| - 1];
    }
    assert (p + [""])[1..] == p[1..] + [""];
  }

  /** Appending one character to a string either opens a new piece or extends the last one. */
  lemma {:induction false} SplitSnoc(s: string, x: char, c: char)
    ensures Split(s + [x], c) == if x == c then Split(s, c) + [""] else ExtendLast(Split(s, c), x)
    decreases |s|
  {
    if s == [] {
      SplitCons(x, [], c);
      assert s + [x] == [x] + [];
    } else {
      var a, t := s[0], s[1..];
      assert s == [a] + t;
      assert s + [x] == [a] + (t + [x]);
      SplitSnoc(t, x, c);
      SplitCons(a, t, c);
      SplitCons(a, t + [x], c);
      var q := Split(t, c);
      if a == c {
        assert ExtendLast([""] + q, x) == [""] + ExtendLast(q, x);
        assert ([""] + q) + [""] == [""] + (q + [""]);
      } else {
        ExtendFirstLast(a, q, x);
      }
    }
  }

  /** Kotlin's `substringAfterLast(c)`: the text after the last c, or all of s when there is none. */
  function SubstringAfterLast(s: string, c: char): (r: string)
    ensures |r| <= |s| && s[|s| - |r|..] == r
    ensures c !in r
    ensures |r| == |s| || s[|s| - |r| - 1] == c
    ensures c !in s ==> r == s
    decreases |s|
  {
    if s == [] then []
    else if s[|s| - 1] == c then []
    else SubstringAfterLast(s[..|s| - 1], c) + [s[|s| - 1]]
  }

  /** The last piece of `split(c)` is `substringAfterLast(c)`. */
  lemma {:induction false} LastPieceIsAfterLast(s: string, c: char)
    ensures var p := Split(s, c); p[|p| - 1] == SubstringAfterLast(s, c)
    decreases |s|
  {
    if s != [] {
      var s', x := s[..|s| - 1], s[|s| - 1];
      assert s == s' + [x];
      LastPieceIsAfterLast(s', c);
      SplitSnoc(s', x, c);
    }
  }

  /** Kotlin's `replace(from, to)` on characters. */
  function ReplaceChar(s: string, from: char, to: char): (r: string)
    ensures |r| == |s|
    ensures forall i :: 0 <= i < |s| ==> r[i] == if s[i] == from then to else s[i]
  {
    seq(|s|, i requires 0 <= i < |s| => if s[i] == from then to else s[i])
  }

  /**
   * Kotlin's `Char.isWhitespace()`: Java's isWhitespace or isSpaceChar, i.e. the
   * ASCII controls TAB..CR and FS..US, and the Unicode space, line and paragraph separators.
   */
  predicate IsWhitespace(c: char) {
    || '\t' <= c <= '\r'
    || '\U{1C}' <= c <= ' '
    || c == '\U{A0}' || c == '\U{1680}'
    || '\U{2000}' <= c <= '\U{200A}'
    || c == '\U{2028}' || c == '\U{2029}' || c == '\U{202F}' || c == '\U{205F}' || c == '\U{3000}'
  }

  /** Kotlin's `isBlank()`: empty or whitespace only. */
  predicate IsBlank(s: string) {
    forall i :: 0 <= i < |s| ==> IsWhitespace(s[i])
  }

  function TrimStart(s: string): (r: string)
    ensures |r| <= |s| && r == s[|s| - |r|..]
    ensures r == [] || !IsWhitespace(r[0])
    ensures forall i :: 0 <= i < |s| - |r| ==> IsWhitespace(s[i])
    decreases |s|
  {
    if s != [] && IsWhitespace(s[0]) then TrimStart(s[1..]) else s
  }

  function TrimEnd(s: string): (r: string)
    ensures |r| <= |s| && r == s[..|r|]
    ensures r == [] || !IsWhitespace(r[|r| - 1])
    ensures forall i :: |r| <= i < |s| ==> IsWhitespace(s[i])
    decreases |s|
  {
    if s != [] && IsWhitespace(s[|s| - 1]) then TrimEnd(s[..|s| - 1]) else s
  }

  /**
   * Kotlin's `trim()`: s without its leading and trailing whitespace. The result
   * is a piece of s, starts and ends with a non-blank character, and is empty
   * exactly when s is blank.
   */
  function Trim(s: string): (r: string)
    ensures |r| <= |s|
    ensures forall k :: 0 <= k < |r| ==> r[k] in s
    ensures r == [] || (!IsWhitespace(r[0]) && !IsWhitespace(r[|r| - 1]))
    ensures r == [] <==> IsBlank(s)
  {
    TrimPieces(s);
    TrimEnd(TrimStart(s))
  }

  lemma TrimPieces(s: string)
    ensures var r := TrimEnd(TrimStart(s));
      && (forall k :: 0 <= k < |r| ==> r[k] in s)
      && (r == [] <==> IsBlank(s))
  {
    var t := TrimStart(s);
    var r := TrimEnd(t);
    assert forall k :: 0 <= k < |r| ==> r[k] == s[|s| - |t| + k];
  }

  /** Kotlin's `ifBlank { d }`. */
  function IfBlank(s: string, d: string): string {
    if IsBlank(s) then d else s
  }

  predicate StartsWith(s: string, prefix: string) {
    |prefix| <= |s| && s[..|prefix|] == prefix
  }

  /** Kotlin's `contains(p)`: p occurs somewhere in s. */
  predicate Contains(s: string, p: string)
    decreases |s|
  {
    StartsWith(s, p) || (s != [] && Contains(s[1..], p))
  }

  /** An occurrence of p in s at position i witnesses `Contains(s, p)`, and conversely. */
  predicate OccursAt(s: string, p: string, i: int) {
    0 <= i <= |s| - |p| && s[i..i + |p|] == p
  }

  lemma {:induction false} ContainsAt(s: string, p: string)
    ensures Contains(s, p) <==> exists i :: OccursAt(s, p, i)
    decreases |s|
  {
    if StartsWith(s, p) {
      assert OccursAt(s, p, 0);
    }
    if s != [] {
      ContainsAt(s[1..], p);
      if exists i :: OccursAt(s, p, i) {
        var i :| OccursAt(s, p, i);
        if i > 0 {
          assert s[1..][i - 1..i - 1 + |p|] == p;
          assert OccursAt(s[1..], p, i - 1);
        }
      }
      if Contains(s[1..], p) {
        var i :| OccursAt(s[1..], p, i);
        assert s[i + 1..i + 1 + |p|] == p;
        assert OccursAt(s, p, i + 1);
      }
    } else {
      if exists i :: OccursAt(s, p, i) {
        var i :| OccursAt(s, p, i);
        assert p == [];
      }
    }
  }

  function LowerChar(c: char): char {
    if 'A' <= c <= 'Z' then (c as int + 32) as char else c
  }

  function Lower(s: string): (r: string)
    ensures |r| == |s|
  {
    seq(|s|, i requires 0 <= i < |s| => LowerChar(s[i]))
  }

  /** Kotlin's `contains(p, ignoreCase = true)`, with ASCII case folding. */
  predicate ContainsIgnoreCase(s: string, p: string) {
    Contains(Lower(s), Lower(p))
  }
}
