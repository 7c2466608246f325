/**
 * The text forms of dates and timestamps: `strftime('%Y-%m-%d')`,
 * `strftime('%Y-%m-%d %H:%M:%S')` and a strict `strptime('%Y-%m-%d')`.
 */
module DateFormat {
  import opened Calendar
  import opened Wrappers

  type Hour = h: int | 0 <= h < 24
  type Sexagesimal = v: int | 0 <= v < 60

  /** A `datetime` to the second; microseconds never reach any output and are not kept. */
  datatype DateTime = DateTime(day: Day, hour: Hour, minute: Sexagesimal, second: Sexagesimal)

  predicate IsDigit(c: char) {
    '0' <= c <= '9'
  }

  predicate AllDigits(s: string) {
    forall i :: 0 <= i < |s| ==> IsDigit(s[i])
  }

  function Pow10(w: nat): nat {
    if w == 0 then 1 else 10 * Pow10(w - 1)
  }

  function DigitChar(k: int): (c: char)
    requires 0 <= k < 10
    ensures IsDigit(c) && c as int - '0' as int == k
  {
    ('0' as int + k) as char
  }

  /** v in decimal, left-padded with zeros to exactly `width` digits (the `%02d`/`%04d` of strftime). */
  function ZeroPad(v: nat, width: nat): (s: string)
    ensures |s| == width && AllDigits(s)
  {
    if width == 0 then "" else ZeroPad(v / 10, width - 1) + [DigitChar(v % 10)]
  }

  /** The number a string of decimal digits denotes. */
  function DecimalValue(s: string): nat
    requires AllDigits(s)
  {
    if s == [] then 0 else 10 * DecimalValue(s[..|s| - 1]) + (s[|s| - 1] as int - '0' as int)
  }

  lemma {:induction false} PadThenValue(v: nat, width: nat)
    requires v < Pow10(width)
    ensures DecimalValue(ZeroPad(v, width)) == v
  {
    if width > 0 {
      var s := ZeroPad(v, width);
      assert s[..|s| - 1] == ZeroPad(v / 10, width - 1);
      PadThenValue(v / 10, width - 1);
    }
  }

  lemma {:induction false} ValueThenPad(s: string)
    requires AllDigits(s)
    ensures DecimalValue(s) < Pow10(|s|)
    ensures ZeroPad(DecimalValue(s), |s|) == s
  {
    if s != [] {
      var init := s[..|s| - 1];
      ValueThenPad(init);
      var v := DecimalValue(s);
      var last := s[|s| - 1] as int - '0' as int;
      assert v / 10 == DecimalValue(init) && v % 10 == last;
      assert s == init + [s[|s| - 1]];
    }
  }

  /** `date.strftime('%Y-%m-%d')`, the year padded to four digits. */
  function FormatDate(n: Day): (s: string)
    ensures |s| == 10 && s[4] == '-' && s[7] == '-'
  {
    var d := FromOrdinal(n);
    ZeroPad(d.year, 4) + "-" + ZeroPad(d.month, 2) + "-" + ZeroPad(d.day, 2)
  }

  /**
   * `datetime.strptime(s, '%Y-%m-%d').date()` read strictly: four digits,
   * a dash, two digits, a dash, two digits, naming a real Gregorian date.
   * None stands for the ValueError.
   */
  function ParseDate(s: string): Option<Day>
  {
    if |s| == 10 && s[4] == '-' && s[7] == '-'
       && AllDigits(s[..4]) && AllDigits(s[5..7]) && AllDigits(s[8..])
    then
      var d := Ymd(DecimalValue(s[..4]), DecimalValue(s[5..7]), DecimalValue(s[8..]));
      if ValidYmd(d) then (ToFromOrdinal(d); Some(ToOrdinal(d) as Day)) else None
    else None
  }

  /** Formatting a date and reading it back with the same pattern gives the same date. */
  lemma FormatThenParse(n: Day)
    ensures ParseDate(FormatDate(n)) == Some(n)
  {
    var d := FromOrdinal(n);
    FromToOrdinal(n);
    var s := FormatDate(n);
    assert s[..4] == ZeroPad(d.year, 4);
    assert s[5..7] == ZeroPad(d.month, 2);
    assert s[8..] == ZeroPad(d.day, 2);
    PadThenValue(d.year, 4);
    PadThenValue(d.month, 2);
    PadThenValue(d.day, 2);
  }

  /** A string the parser accepts is already in the canonical form the formatter writes. */
  lemma ParseThenFormat(s: string, n: Day)
    requires ParseDate(s) == Some(n)
    ensures FormatDate(n) == s
  {
    var d := Ymd(DecimalValue(s[..4]), DecimalValue(s[5..7]), DecimalValue(s[8..]));
    ToFromOrdinal(d);
    ValueThenPad(s[..4]);
    ValueThenPad(s[5..7]);
    ValueThenPad(s[8..]);
    assert s == s[..4] + "-" + s[5..7] + "-" + s[8..];
  }

  /** `datetime.strftime('%Y-%m-%d %H:%M:%S')`. */
  function FormatTimestamp(t: DateTime): (s: string)
    ensures |s| == 19 && s[..10] == FormatDate(t.day)
  {
    FormatDate(t.day) + " " + ZeroPad(t.hour, 2) + ":" + ZeroPad(t.minute, 2) + ":" + ZeroPad(t.second, 2)
  }

  /** A strict reading of `YYYY-MM-DD HH:MM:SS`, the inverse of FormatTimestamp. */
  function ParseTimestamp(s: string): Option<DateTime>
  {
    if |s| == 19 && s[10] == ' ' && s[13] == ':' && s[16] == ':'
       && AllDigits(s[11..13]) && AllDigits(s[14..16]) && AllDigits(s[17..])
    then
      match ParseDate(s[..10])
      case None => None
      case Some(day) =>
        var h, m, sec := DecimalValue(s[11..13]), DecimalValue(s[14..16]), DecimalValue(s[17..]);
        if h < 24 && m < 60 && sec < 60 then Some(DateTime(day, h, m, sec)) else None
    else None
  }

  /** Timestamps lose nothing in their text form: the clock fields read back unchanged. */
  lemma FormatThenParseTimestamp(t: DateTime)
    ensures ParseTimestamp(FormatTimestamp(t)) == Some(t)
  {
    var s := FormatTimestamp(t);
    FormatThenParse(t.day);
    assert s[11..13] == ZeroPad(t.hour, 2);
    assert s[14..16] == ZeroPad(t.minute, 2);
    assert s[17..] == ZeroPad(t.second, 2);
    PadThenValue(t.hour, 2);
    PadThenValue(t.minute, 2);
    PadThenValue(t.second, 2);
  }
}
