/**
 * Python datetimes with microsecond precision, their `isoformat()` text and
 * `datetime.strptime(text, "%Y-%m-%dT%H:%M:%S.%f")`.
 */
module DateTimes {
  import opened Wrappers
  import opened Digits

  /** The seven fields of a datetime, not yet checked for range. */
  datatype Timestamp = Timestamp(year: nat, month: nat, day: nat,
                                 hour: nat, minute: nat, second: nat, microsecond: nat)

  predicate IsLeapYear(y: nat) {
    y % 4 == 0 && (y % 100 != 0 || y % 400 == 0)
  }

  function DaysInMonth(y: nat, m: nat): nat
    requires 1 <= m <= 12
  {
    if m == 2 then (if IsLeapYear(y) then 29 else 28)
    else if m == 4 || m == 6 || m == 9 || m == 11 then 30
    else 31
  }

  /** The ranges the datetime constructor enforces. */
  predicate IsValid(t: Timestamp) {
    && 1 <= t.year <= 9999
    && 1 <= t.month <= 12
    && 1 <= t.day <= DaysInMonth(t.year, t.month)
    && t.hour < 24 && t.minute < 60 && t.second < 60
    && t.microsecond < 1000000
  }

  /** A value of Python's datetime type (naive, no time zone). */
  type DateTime = t: Timestamp | IsValid(t) witness Timestamp(1, 1, 1, 0, 0, 0, 0)

  /**
   * `t.isoformat(sep)`: `YYYY-MM-DD<sep>HH:MM:SS`, followed by `.ffffff`
   * only when the microsecond is not zero.  `str(t)` is `t.isoformat(' ')`.
   */
  function IsoFormat(t: DateTime, sep: char): string {
    // grouped from the right, field by field, the way the parser reads it
    ZeroPad(t.year, 4) + ("-" + (ZeroPad(t.month, 2) + ("-" + (ZeroPad(t.day, 2) + ([sep] + IsoTime(t))))))
  }

  /** The time of day as isoformat writes it. */
  function IsoTime(t: DateTime): string {
    ZeroPad(t.hour, 2) + (":" + (ZeroPad(t.minute, 2) + (":" + (ZeroPad(t.second, 2) + IsoFraction(t)))))
  }

  /** The fraction of a second, left out when it is zero. */
  function IsoFraction(t: DateTime): string {
    if t.microsecond != 0 then "." + ZeroPad(t.microsecond, 6) else ""
  }

  // ---------------------------------------------------------------------------
  // strptime with the format %Y-%m-%dT%H:%M:%S.%f
  //
  // CPython turns the format into a regular expression matched from the start
  // of the text, case-insensitively:
  //   %Y  four digits
  //   %m  1[0-2] | 0[1-9] | [1-9]
  //   %d  3[01] | [12]\d | 0[1-9] | [1-9] | ' '[1-9]
  //   %H  2[0-3] | [0-1]\d | \d
  //   %M  [0-5]\d | \d
  //   %S  6[0-1] | [0-5]\d | \d
  //   %f  [0-9]{1,6}, right-padded with zeros to six digits
  // Text left over after the match is an error, and so are field values the
  // datetime constructor refuses (a year 0, a day past the end of the month,
  // second 60 or 61).  Every field but the last is followed by a non-digit
  // separator, so a field matches exactly when the run of digits at that
  // point has an allowed width and an allowed value.  The regular expression
  // admits a few values IsValid refuses (year 0000, second 60 or 61, day 31
  // of a 30-day month), but for those the datetime constructor raises the
  // same ValueError, so the value checks are all left to IsValid.
  // ---------------------------------------------------------------------------

  /** A numeric field read off the front of the text, and what follows it. */
  datatype Scanned = Scanned(value: nat, rest: string)

  /** The length of the run of digits at the front of `s`. */
  function DigitRun(s: string): (n: nat)
    ensures n <= |s| && AllDigits(s[..n])
    ensures n < |s| ==> !IsDigit(s[n])
  {
    if s != [] && IsDigit(s[0]) then
      var n := 1 + DigitRun(s[1..]);
      assert s[..n] == [s[0]] + s[1..][..n - 1];
      n
    else 0
  }

  /** A field of `minWidth` to `maxWidth` digits. */
  function Number(s: string, minWidth: nat, maxWidth: nat): Option<Scanned> {
    var n := DigitRun(s);
    if minWidth <= n <= maxWidth then Some(Scanned(NumberValue(s[..n]), s[n..])) else None
  }

  /** %d: one or two digits, or a space followed by one digit. */
  function DayNumber(s: string): Option<Scanned> {
    if s != [] && s[0] == ' ' then
      if DigitRun(s[1..]) == 1 then Some(Scanned(DigitValue(s[1]), s[2..])) else None
    else Number(s, 1, 2)
  }

  /** %f at the end of the text: one to six digits and nothing after them. */
  function Fraction(s: string): Option<nat> {
    var n := DigitRun(s);
    if 1 <= n <= 6 && n == |s| then Some(NumberValue(s) * Pow10(6 - n)) else None
  }

  /** A literal character of the format; the match ignores case, which matters only for 'T'. */
  function Literal(s: string, c: char): Option<string> {
    if s != [] && (s[0] == c || (c == 'T' && s[0] == 't')) then Some(s[1..]) else None
  }

  /** The time of day matched after the 'T'. */
  datatype Clock = Clock(hour: nat, minute: nat, second: nat, microsecond: nat)

  /** `%H:%M:%S.%f` up to the end of the text. */
  function ScanClock(s: string): Option<Clock> {
    var hour :- Number(s, 1, 2);
    var r1 :- Literal(hour.rest, ':');
    var minute :- Number(r1, 1, 2);
    var r2 :- Literal(minute.rest, ':');
    var second :- Number(r2, 1, 2);
    var r3 :- Literal(second.rest, '.');
    var micro :- Fraction(r3);
    Some(Clock(hour.value, minute.value, second.value, micro))
  }

  /** The regular-expression match: the raw field values, or None. */
  function Scan(s: string): Option<Timestamp> {
    var year :- Number(s, 4, 4);
    var r1 :- Literal(year.rest, '-');
    var month :- Number(r1, 1, 2);
    var r2 :- Literal(month.rest, '-');
    var day :- DayNumber(r2);
    var r3 :- Literal(day.rest, 'T');
    var c :- ScanClock(r3);
    Some(Timestamp(year.value, month.value, day.value, c.hour, c.minute, c.second, c.microsecond))
  }

  /** `datetime.strptime(s, "%Y-%m-%dT%H:%M:%S.%f")`. */
  function ParseTime(s: string): (r: Result<DateTime>)
    ensures r.Err? ==> r.error == ValueError
  {
    match Scan(s)
    case Some(t) => if IsValid(t) then Ok(t) else Err(ValueError)
    case None => Err(ValueError)
  }

  // ---------------------------------------------------------------------------
  // Format and parse
  // ---------------------------------------------------------------------------

  lemma {:induction false} DigitRunOfDigits(p: string, rest: string)
    requires AllDigits(p)
    requires rest == [] || !IsDigit(rest[0])
    ensures DigitRun(p + rest) == |p|
  {
    if p != [] {
      assert (p + rest)[1..] == p[1..] + rest;
      DigitRunOfDigits(p[1..], rest);
    }
  }

  lemma NumberOfDigits(p: string, rest: string, minWidth: nat, maxWidth: nat)
    requires AllDigits(p) && minWidth <= |p| <= maxWidth
    requires rest == [] || !IsDigit(rest[0])
    ensures Number(p + rest, minWidth, maxWidth) == Some(Scanned(NumberValue(p), rest))
  {
    DigitRunOfDigits(p, rest);
    assert (p + rest)[..|p|] == p;
    assert (p + rest)[|p|..] == rest;
  }

  lemma FractionOfDigits(f: string)
    requires AllDigits(f) && |f| == 6
    ensures Fraction(f) == Some(NumberValue(f))
  {
    DigitRunOfDigits(f, []);
    assert f + [] == f;
  }

  /** The clock part of the ISO text scans back exactly when it has a fraction. */
  lemma ScanClockOfIso(t: DateTime)
    ensures ScanClock(IsoTime(t))
         == if t.microsecond != 0 then Some(Clock(t.hour, t.minute, t.second, t.microsecond)) else None
  {
    var f := IsoFraction(t);
    var r2 := ZeroPad(t.second, 2) + f;
    var r1 := ":" + r2;
    var q := ZeroPad(t.minute, 2) + r1;
    var p := ":" + q;
    NumberOfDigits(ZeroPad(t.hour, 2), p, 1, 2);
    assert Literal(p, ':') == Some(q);
    NumberOfDigits(ZeroPad(t.minute, 2), r1, 1, 2);
    assert Literal(r1, ':') == Some(r2);
    NumberOfDigits(ZeroPad(t.second, 2), f, 1, 2);
    if t.microsecond != 0 {
      assert Literal(f, '.') == Some(ZeroPad(t.microsecond, 6));
      FractionOfDigits(ZeroPad(t.microsecond, 6));
    } else {
      assert Literal(f, '.') == None;
    }
  }

  /**
   * Parsing the ISO text of a datetime gives the datetime back when its
   * microsecond is not zero, and raises ValueError when it is: isoformat
   * then leaves out the fraction that %f requires.
   */
  lemma ParseIsoFormat(t: DateTime)
    ensures ParseTime(IsoFormat(t, 'T')) == if t.microsecond != 0 then Ok(t) else Err(ValueError)
  {
    var q3 := ['T'] + IsoTime(t);
    var q2 := ZeroPad(t.day, 2) + q3;
    var q1 := "-" + q2;
    var q0 := ZeroPad(t.month, 2) + q1;
    var p := "-" + q0;
    NumberOfDigits(ZeroPad(t.year, 4), p, 4, 4);
    assert Literal(p, '-') == Some(q0);
    NumberOfDigits(ZeroPad(t.month, 2), q1, 1, 2);
    assert Literal(q1, '-') == Some(q2);
    assert q2[0] == ZeroPad(t.day, 2)[0] && IsDigit(q2[0]);
    NumberOfDigits(ZeroPad(t.day, 2), q3, 1, 2);
    assert DayNumber(q2) == Some(Scanned(t.day, q3));
    assert Literal(q3, 'T') == Some(IsoTime(t));
    ScanClockOfIso(t);
  }

  /** Text that is not a timestamp at all is refused with ValueError. */
  lemma NotADate()
    ensures ParseTime("not-a-date") == Err(ValueError)
  {
    assert DigitRun("not-a-date") == 0;
  }
}
