/**
 * Naive local date-times as `datetime.datetime.now()` produces them, and the
 * three textual forms the monitor uses: `isoformat()` (stored in a status
 * record), `strftime("%d/%m/%Y %H:%M:%S")` (shown in an alert) and the
 * logging module's default `asctime` (the head of every monitoring-log line).
 */
module Clock {
  import opened Wrappers
  import opened Text

  datatype Instant = Instant(year: nat, month: nat, day: nat, hour: nat, minute: nat, second: nat, micro: nat)

  predicate IsLeap(year: nat) {
    year % 4 == 0 && (year % 100 != 0 || year % 400 == 0)
  }

  function DaysInMonth(year: nat, month: nat): (n: nat)
    requires 1 <= month <= 12
    ensures 28 <= n <= 31
  {
    if month == 2 then (if IsLeap(year) then 29 else 28)
    else if month == 4 || month == 6 || month == 9 || month == 11 then 30
    else 31
  }

  /** The calendar checks of Python's `date` constructor. */
  predicate ValidDate(year: nat, month: nat, day: nat) {
    1 <= year <= 9999 && 1 <= month <= 12 && 1 <= day <= DaysInMonth(year, month)
  }

  /** The range checks of Python's `datetime` constructor. */
  predicate Valid(t: Instant) {
    ValidDate(t.year, t.month, t.day) && t.hour < 24 && t.minute < 60 && t.second < 60 && t.micro < 1000000
  }

  /** `YYYY-MM-DD`, the date part shared by `isoformat()` and `asctime`. */
  function DateText(t: Instant): string {
    Padded(t.year, 4) + "-" + Padded(t.month, 2) + "-" + Padded(t.day, 2)
  }

  /** `HH:MM:SS`. */
  function TimeText(t: Instant): string {
    Padded(t.hour, 2) + ":" + Padded(t.minute, 2) + ":" + Padded(t.second, 2)
  }

  /** `datetime.isoformat()` of a naive datetime: the fraction is written only
      when the microseconds are not zero. */
  function IsoFormat(t: Instant): string {
    DateText(t) + "T" + TimeText(t) + (if t.micro == 0 then "" else "." + Padded(t.micro, 6))
  }

  /** `YYYY-MM-DD?HH:MM:SS` with separator `sep` at position 10. */
  predicate DateTimeLayout(s: string, sep: char) {
    && |s| >= 19
    && DigitsAt(s, 0, 4) && s[4] == '-' && DigitsAt(s, 5, 2) && s[7] == '-' && DigitsAt(s, 8, 2)
    && s[10] == sep
    && DigitsAt(s, 11, 2) && s[13] == ':' && DigitsAt(s, 14, 2) && s[16] == ':' && DigitsAt(s, 17, 2)
  }

  /** `datetime.fromisoformat` on the two shapes `isoformat()` writes; `None`
      where Python raises `ValueError`. */
  function ParseIso(s: string): (r: Option<Instant>)
    ensures r.Some? ==> Valid(r.value)
  {
    if !DateTimeLayout(s, 'T') then None
    else if |s| != 19 && !(|s| == 26 && s[19] == '.' && DigitsAt(s, 20, 6)) then None
    else
      var t := Instant(NumberAt(s, 0, 4), NumberAt(s, 5, 2), NumberAt(s, 8, 2),
                       NumberAt(s, 11, 2), NumberAt(s, 14, 2), NumberAt(s, 17, 2),
                       if |s| == 26 then NumberAt(s, 20, 6) else 0);
      if Valid(t) then Some(t) else None
  }

  lemma DateTextParts(t: Instant)
    ensures var s := DateText(t);
      |s| == 10 && s[0..4] == Padded(t.year, 4) && s[4] == '-' && s[5..7] == Padded(t.month, 2)
      && s[7] == '-' && s[8..10] == Padded(t.day, 2)
  {
  }

  lemma TimeTextParts(t: Instant)
    ensures var s := TimeText(t);
      |s| == 8 && s[0..2] == Padded(t.hour, 2) && s[2] == ':' && s[3..5] == Padded(t.minute, 2)
      && s[5] == ':' && s[6..8] == Padded(t.second, 2)
  {
  }

  /** A date, one separator and a time, followed by anything, have the
      `YYYY-MM-DD?HH:MM:SS` layout, and its fields read back as the instant's. */
  lemma DateTimePrefix(t: Instant, sep: char, rest: string)
    requires Valid(t)
    ensures var s := DateText(t) + [sep] + TimeText(t) + rest;
      && DateTimeLayout(s, sep)
      && NumberAt(s, 0, 4) == t.year && NumberAt(s, 5, 2) == t.month && NumberAt(s, 8, 2) == t.day
      && NumberAt(s, 11, 2) == t.hour && NumberAt(s, 14, 2) == t.minute && NumberAt(s, 17, 2) == t.second
  {
    var d, tt := DateText(t), TimeText(t);
    var s := d + [sep] + tt + rest;
    DateTextParts(t);
    TimeTextParts(t);
    assert s[0..10] == d;
    assert s[11..19] == tt;
    assert s[0..4] == d[0..4] && s[5..7] == d[5..7] && s[8..10] == d[8..10];
    assert s[11..13] == tt[0..2] && s[14..16] == tt[3..5] && s[17..19] == tt[6..8];
    PaddedValue(t.year, 4);
    PaddedValue(t.month, 2);
    PaddedValue(t.day, 2);
    PaddedValue(t.hour, 2);
    PaddedValue(t.minute, 2);
    PaddedValue(t.second, 2);
  }

  /** The layout only looks at the first 19 characters. */
  lemma DateTimeLayoutHead(s: string, sep: char)
    requires DateTimeLayout(s, sep)
    ensures DateTimeLayout(s[..19], sep)
  {
    var w := s[..19];
    assert w[0..4] == s[0..4] && w[5..7] == s[5..7] && w[8..10] == s[8..10];
    assert w[11..13] == s[11..13] && w[14..16] == s[14..16] && w[17..19] == s[17..19];
  }

  /** Every valid instant survives `fromisoformat(isoformat())`. */
  lemma IsoRoundTrip(t: Instant)
    requires Valid(t)
    ensures ParseIso(IsoFormat(t)) == Some(t)
  {
    var frac := if t.micro == 0 then "" else "." + Padded(t.micro, 6);
    var s := IsoFormat(t);
    assert s == DateText(t) + ['T'] + TimeText(t) + frac;
    DateTimePrefix(t, 'T', frac);
    if t.micro != 0 {
      assert s[19..] == frac;
      assert s[20..26] == Padded(t.micro, 6);
      PaddedValue(t.micro, 6);
    }
  }

  /** `strftime("%d/%m/%Y %H:%M:%S")`, the timestamp shown in an alert. */
  function AlertTime(t: Instant): string {
    Padded(t.day, 2) + "/" + Padded(t.month, 2) + "/" + Padded(t.year, 4) + " " + TimeText(t)
  }

  /** The logging module's default `asctime`: `YYYY-MM-DD HH:MM:SS,mmm`. */
  function Asctime(t: Instant): string {
    DateText(t) + " " + TimeText(t) + "," + Padded(t.micro / 1000, 3)
  }
}
