/**
 * The canonical date key `YYYY-MM-DD` under which calorie entries are grouped
 * (formatDateKey in app.js). The `Date` object is abstracted away: the key is
 * built from the values its local-time getters return, the full year, the
 * month index 0..11 and the day of the month 1..31.
 */
module DateKey {
  import opened Wrappers

  predicate IsDigit(c: char) {
    '0' <= c <= '9'
  }

  predicate AllDigits(s: string) {
    forall i :: 0 <= i < |s| ==> IsDigit(s[i])
  }

  function DigitValue(c: char): (d: nat)
    requires IsDigit(c)
    ensures d < 10
  {
    c as int - '0' as int
  }

  function DigitChar(d: nat): (c: char)
    requires d < 10
    ensures IsDigit(c) && DigitValue(c) == d
  {
    ('0' as int + d) as char
  }

  /** JavaScript's `String(n)` for a non-negative integer: its decimal digits, without leading zeros. */
  function NatToString(n: nat): (s: string)
    ensures 1 <= |s| && AllDigits(s)
    ensures s[0] == '0' ==> n == 0 && |s| == 1
    ensures |s| == 1 <==> n < 10
  {
    if n < 10 then [DigitChar(n)] else NatToString(n / 10) + [DigitChar(n % 10)]
  }

  /** The value of a string of decimal digits (leading zeros allowed). */
  function ParseNat(s: string): nat
    requires AllDigits(s)
  {
    if s == [] then 0 else ParseNat(s[..|s| - 1]) * 10 + DigitValue(s[|s| - 1])
  }

  /** JavaScript's `String(y)` for an integer year: a minus sign before the digits when negative. */
  function IntToString(y: int): (s: string)
    ensures 1 <= |s|
    ensures s[0] == '-' <==> y < 0
    ensures y >= 0 ==> AllDigits(s)
    ensures y < 0 ==> 2 <= |s| && AllDigits(s[1..])
  {
    if y < 0 then "-" + NatToString(-y) else NatToString(y)
  }

  function ParseInt(s: string): Option<int> {
    if 2 <= |s| && s[0] == '-' && AllDigits(s[1..]) then Some(0 - ParseNat(s[1..]))
    else if 1 <= |s| && AllDigits(s) then Some(ParseNat(s))
    else None
  }

  /** `String.prototype.padStart`: `fill` is put in front of `s` until it is `width` long. */
  function PadStart(s: string, width: nat, fill: char): (r: string)
    ensures |r| == if |s| >= width then |s| else width
    ensures r[|r| - |s|..] == s
    ensures forall i :: 0 <= i < |r| - |s| ==> r[i] == fill
  {
    if |s| >= width then s else seq(width - |s|, _ => fill) + s
  }

  /**
   * `String(v).padStart(2, '0')`, the month and day segments: digits that read
   * back as `v`, at least two of them, exactly two when `v` is below 100.
   */
  function Pad2(v: nat): (r: string)
    ensures |r| >= 2 && AllDigits(r) && ParseNat(r) == v
    ensures v < 100 ==> |r| == 2
  {
    var s := NatToString(v);
    ParseNatToString(v);
    var r := PadStart(s, 2, '0');
    assert v < 10 ==> r == ['0', s[0]] && r[..1] == ['0'] && ['0'][..0] == [];
    assert 10 <= v < 100 ==> NatToString(v / 10) == [DigitChar(v / 10)] && |s| == 2;
    r
  }

  /** The year, the month index and the day a key is built from. */
  datatype DateParts = DateParts(year: int, monthIndex: nat, day: nat)

  /** The ranges the `Date` getters return a month index and a day of the month in. */
  predicate ValidParts(monthIndex: int, day: int) {
    0 <= monthIndex <= 11 && 1 <= day <= 31
  }

  /**
   * formatDateKey: the year in decimal, then the month number (index + 1) and
   * the day, each zero-padded to two digits, separated by '-'. The key ends in
   * six fixed-width characters, behind a year of any length.
   */
  function FormatDateKey(year: int, monthIndex: int, day: int): (key: string)
    requires ValidParts(monthIndex, day)
    ensures |key| == |IntToString(year)| + 6
    ensures key[..|key| - 6] == IntToString(year)
    ensures key[|key| - 6] == '-' && key[|key| - 3] == '-'
    ensures key[|key| - 5..|key| - 3] == Pad2(monthIndex + 1) && key[|key| - 2..] == Pad2(day)
  {
    var y, m, d := IntToString(year), Pad2(monthIndex + 1), Pad2(day);
    Pad2Shape(monthIndex + 1);
    Pad2Shape(day);
    var key := y + "-" + m + "-" + d;
    KeyLayout(key, y, m, d);
    key
  }

  /** Where the year, the separators and the two segments sit in a key. */
  lemma KeyLayout(key: string, y: string, m: string, d: string)
    requires |m| == 2 && |d| == 2
    requires key == y + "-" + m + "-" + d
    ensures |key| == |y| + 6 && key[..|key| - 6] == y
    ensures key[|key| - 6] == '-' && key[|key| - 3] == '-'
    ensures key[|key| - 5..|key| - 3] == m && key[|key| - 2..] == d
  {
    var tail := "-" + m + "-" + d;
    assert key == y + tail;
    assert tail[1..3] == m;
    assert tail[4..] == d;
    assert key[|y|..] == tail;
  }

  /** The two characters of a key that hold the month, and the two that hold the day. */
  function MonthSegment(key: string): string
    requires |key| >= 6
  {
    key[|key| - 5..|key| - 3]
  }

  function DaySegment(key: string): string
    requires |key| >= 6
  {
    key[|key| - 2..]
  }

  /**
   * The month and day segments of a key are exactly two digits each, spell the
   * month number and the day, and start with '0' exactly when that number is below 10.
   */
  lemma FormatDateKeySegments(year: int, monthIndex: int, day: int, key: string)
    requires ValidParts(monthIndex, day) && key == FormatDateKey(year, monthIndex, day)
    ensures |MonthSegment(key)| == 2 && AllDigits(MonthSegment(key))
    ensures |DaySegment(key)| == 2 && AllDigits(DaySegment(key))
    ensures ParseNat(MonthSegment(key)) == monthIndex + 1 && ParseNat(DaySegment(key)) == day
    ensures MonthSegment(key)[0] == '0' <==> monthIndex + 1 < 10
    ensures DaySegment(key)[0] == '0' <==> day < 10
  {
    Pad2Shape(monthIndex + 1);
    Pad2Shape(day);
  }

  /** Reads a key back into its parts; the inverse of FormatDateKey. */
  function ParseDateKey(key: string): Option<DateParts> {
    var n := |key|;
    if n < 7 || key[n - 6] != '-' || key[n - 3] != '-' then None
    else if !AllDigits(MonthSegment(key)) || !AllDigits(DaySegment(key)) then None
    else match ParseInt(key[..n - 6])
      case None => None
      case Some(y) =>
        var month := ParseNat(MonthSegment(key));
        if month == 0 then None else Some(DateParts(y, month - 1, ParseNat(DaySegment(key))))
  }

  lemma {:induction false} ParseNatToString(n: nat)
    ensures ParseNat(NatToString(n)) == n
  {
    if n >= 10 {
      var s := NatToString(n / 10);
      ParseNatToString(n / 10);
      var t := s + [DigitChar(n % 10)];
      assert t[..|t| - 1] == s;
    }
  }

  lemma ParseIntToString(y: int)
    ensures ParseInt(IntToString(y)) == Some(y)
  {
    var s := IntToString(y);
    if y < 0 {
      var digits := NatToString(-y);
      assert s == "-" + digits && s[1..] == digits;
      ParseNatToString(-y);
      assert ParseInt(s) == Some(0 - ParseNat(digits));
    } else {
      assert s == NatToString(y) && s[0] != '-' && AllDigits(s);
      ParseNatToString(y);
      assert ParseInt(s) == Some(ParseNat(s));
    }
  }

  /** A value below 100 pads to exactly two digits, with a leading '0' exactly when it is below 10. */
  lemma Pad2Shape(v: nat)
    requires v < 100
    ensures |Pad2(v)| == 2 && AllDigits(Pad2(v))
    ensures Pad2(v)[0] == '0' <==> v < 10
    ensures ParseNat(Pad2(v)) == v
  {
    if v >= 10 {
      assert NatToString(v / 10) == [DigitChar(v / 10)];
    }
  }

  /** Every key formatDateKey builds reads back as the parts it was built from. */
  lemma ParseFormatDateKey(year: int, monthIndex: int, day: int)
    requires ValidParts(monthIndex, day)
    ensures ParseDateKey(FormatDateKey(year, monthIndex, day)) == Some(DateParts(year, monthIndex, day))
  {
    FormatDateKeySegments(year, monthIndex, day, FormatDateKey(year, monthIndex, day));
    ParseIntToString(year);
  }

  /** Two dates share a key only when they are the same date: the key is a faithful grouping identity. */
  lemma FormatDateKeyInjective(y1: int, m1: int, d1: int, y2: int, m2: int, d2: int)
    requires ValidParts(m1, d1) && ValidParts(m2, d2)
    ensures FormatDateKey(y1, m1, d1) == FormatDateKey(y2, m2, d2) <==> y1 == y2 && m1 == m2 && d1 == d2
  {
    ParseFormatDateKey(y1, m1, d1);
    ParseFormatDateKey(y2, m2, d2);
  }
}
