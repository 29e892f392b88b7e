/**
 * The access log's request time, `DD/Mon/YYYY:HH:MM:SS +HHMM`, as
 * `strptime(..., "%d/%b/%Y:%H:%M:%S %z")` reads it, and the three texts the
 * aggregator derives from it: the day bucket `%Y-%m-%d`, the hour bucket
 * `%Y-%m-%d %H:00` (both in the timestamp's own offset) and `isoformat()`.
 */
module NginxTime {
  import opened Wrappers
  import opened Text
  import Clock

  /** An aware timestamp; `offset` is in minutes east of UTC. */
  datatype Stamp = Stamp(year: nat, month: nat, day: nat, hour: nat, minute: nat, second: nat, offset: int)

  const MonthNames: seq<string> :=
    ["Jan", "Feb", "Mar", "Apr", "May", "Jun", "Jul", "Aug", "Sep", "Oct", "Nov", "Dec"]

  /** What Python's `datetime` and `timezone` constructors accept: a real
      calendar date and an offset strictly inside one day. */
  predicate Valid(t: Stamp) {
    && Clock.ValidDate(t.year, t.month, t.day)
    && t.hour < 24 && t.minute < 60 && t.second < 60
    && -1440 < t.offset < 1440
  }

  /** The month number of an English month abbreviation (`%b`). */
  function MonthNumber(name: string): (r: Option<nat>)
    ensures r.Some? ==> 1 <= r.value <= 12 && MonthNames[r.value - 1] == name
    ensures r.Some? <==> name in MonthNames
  {
    if name == "Jan" then Some(1) else if name == "Feb" then Some(2) else if name == "Mar" then Some(3)
    else if name == "Apr" then Some(4) else if name == "May" then Some(5) else if name == "Jun" then Some(6)
    else if name == "Jul" then Some(7) else if name == "Aug" then Some(8) else if name == "Sep" then Some(9)
    else if name == "Oct" then Some(10) else if name == "Nov" then Some(11) else if name == "Dec" then Some(12)
    else None
  }

  /** The fixed-width layout `DD/Mon/YYYY:HH:MM:SS +HHMM` (month not yet checked). */
  predicate Layout(s: string) {
    && |s| == 26 && DigitsAt(s, 0, 2) && s[2] == '/' && s[6] == '/' && DigitsAt(s, 7, 4)
    && s[11] == ':' && DigitsAt(s, 12, 2) && s[14] == ':' && DigitsAt(s, 15, 2)
    && s[17] == ':' && DigitsAt(s, 18, 2) && s[20] == ' ' && (s[21] == '+' || s[21] == '-')
    && DigitsAt(s, 22, 2) && DigitsAt(s, 24, 2)
  }

  /** The signed offset in minutes written at positions 21-25. */
  function OffsetAt(s: string): int
    requires Layout(s)
  {
    var minutes := NumberAt(s, 22, 2) * 60 + NumberAt(s, 24, 2);
    if s[21] == '-' then -minutes else minutes
  }

  /** `strptime(s, "%d/%b/%Y:%H:%M:%S %z")` on the fixed-width shape nginx
      writes; `None` where Python raises `ValueError`. */
  function ParseTimestamp(s: string): (r: Option<Stamp>)
    ensures r.Some? ==> Valid(r.value)
  {
    if !Layout(s) || MonthNumber(s[3..6]).None? || NumberAt(s, 24, 2) >= 60 then None
    else
      var t := Stamp(NumberAt(s, 7, 4), MonthNumber(s[3..6]).value, NumberAt(s, 0, 2), NumberAt(s, 12, 2),
                     NumberAt(s, 15, 2), NumberAt(s, 18, 2), OffsetAt(s));
      if Valid(t) then Some(t) else None
  }

  lemma MonthNumberOfName(m: nat)
    requires 1 <= m <= 12
    ensures MonthNumber(MonthNames[m - 1]) == Some(m)
  {
  }

  function Abs(x: int): nat {
    if x < 0 then -x else x
  }

  /** `+HHMM` / `-HHMM`. */
  function OffsetText(offset: int): string {
    (if offset < 0 then "-" else "+") + Padded(Abs(offset) / 60, 2) + Padded(Abs(offset) % 60, 2)
  }

  function TimeText(t: Stamp): string {
    Padded(t.hour, 2) + ":" + Padded(t.minute, 2) + ":" + Padded(t.second, 2)
  }

  /** The request time as nginx writes it, the inverse of `ParseTimestamp`. */
  function Format(t: Stamp): string
    requires 1 <= t.month <= 12
  {
    Padded(t.day, 2) + "/" + MonthNames[t.month - 1] + "/" + Padded(t.year, 4) + ":" + TimeText(t)
    + " " + OffsetText(t.offset)
  }

  lemma FormatParts(t: Stamp)
    requires 1 <= t.month <= 12
    ensures var s := Format(t);
      && |s| == 26 && s[0..2] == Padded(t.day, 2) && s[2] == '/' && s[3..6] == MonthNames[t.month - 1]
      && s[6] == '/' && s[7..11] == Padded(t.year, 4) && s[11] == ':' && s[12..14] == Padded(t.hour, 2)
      && s[14] == ':' && s[15..17] == Padded(t.minute, 2) && s[17] == ':' && s[18..20] == Padded(t.second, 2)
      && s[20] == ' ' && s[21] == (if t.offset < 0 then '-' else '+')
      && s[22..24] == Padded(Abs(t.offset) / 60, 2) && s[24..26] == Padded(Abs(t.offset) % 60, 2)
  {
    var s := Format(t);
    var tt, o := TimeText(t), OffsetText(t.offset);
    var head := Padded(t.day, 2) + "/" + MonthNames[t.month - 1] + "/" + Padded(t.year, 4) + ":";
    MonthNameLength(t.month);
    HeadParts(Padded(t.day, 2), MonthNames[t.month - 1], Padded(t.year, 4));
    TimeTextParts(t);
    OffsetTextParts(t.offset);
    assert s == head + tt + " " + o;
    assert s[..12] == head;
    assert s[12..20] == tt;
    assert s[21..26] == o;
  }

  lemma MonthNameLength(m: nat)
    requires 1 <= m <= 12
    ensures |MonthNames[m - 1]| == 3
  {
  }

  lemma HeadParts(d: string, m: string, y: string)
    requires |d| == 2 && |m| == 3 && |y| == 4
    ensures var h := d + "/" + m + "/" + y + ":";
      |h| == 12 && h[0..2] == d && h[2] == '/' && h[3..6] == m && h[6] == '/' && h[7..11] == y && h[11] == ':'
  {
  }

  lemma TimeTextParts(t: Stamp)
    ensures var s := TimeText(t);
      && |s| == 8 && s[0..2] == Padded(t.hour, 2) && s[2] == ':' && s[3..5] == Padded(t.minute, 2)
      && s[5] == ':' && s[6..8] == Padded(t.second, 2)
  {
  }

  lemma OffsetTextParts(offset: int)
    ensures var s := OffsetText(offset);
      && |s| == 5 && s[0] == (if offset < 0 then '-' else '+')
      && s[1..3] == Padded(Abs(offset) / 60, 2) && s[3..5] == Padded(Abs(offset) % 60, 2)
  {
  }

  lemma FormatFields(t: Stamp)
    requires Valid(t)
    ensures var s := Format(t);
      && Layout(s) && s[3..6] == MonthNames[t.month - 1]
      && NumberAt(s, 0, 2) == t.day && NumberAt(s, 7, 4) == t.year
      && NumberAt(s, 12, 2) == t.hour && NumberAt(s, 15, 2) == t.minute && NumberAt(s, 18, 2) == t.second
      && NumberAt(s, 24, 2) < 60 && OffsetAt(s) == t.offset
  {
    var s := Format(t);
    FormatParts(t);
    PaddedValue(t.day, 2);
    PaddedValue(t.year, 4);
    PaddedValue(t.hour, 2);
    PaddedValue(t.minute, 2);
    PaddedValue(t.second, 2);
    PaddedValue(Abs(t.offset) / 60, 2);
    PaddedValue(Abs(t.offset) % 60, 2);
  }

  /** Every valid timestamp is read back from its nginx rendering. */
  lemma ParseFormat(t: Stamp)
    requires Valid(t)
    ensures ParseTimestamp(Format(t)) == Some(t)
  {
    FormatFields(t);
    MonthNumberOfName(t.month);
  }

  /** The day bucket, `dt.strftime("%Y-%m-%d")`. */
  function DayKey(t: Stamp): string {
    Padded(t.year, 4) + "-" + Padded(t.month, 2) + "-" + Padded(t.day, 2)
  }

  /** The hour bucket, `dt.strftime("%Y-%m-%d %H:00")`. */
  function HourKey(t: Stamp): string {
    DayKey(t) + " " + Padded(t.hour, 2) + ":00"
  }

  /** The hour bucket starts with the day bucket, so every hour bucket lies
      inside exactly one day bucket. */
  lemma HourKeyExtendsDayKey(t: Stamp)
    ensures |DayKey(t)| == 10 && |HourKey(t)| == 16
    ensures HourKey(t)[..10] == DayKey(t)
  {
  }

  /** Two valid timestamps share an hour bucket exactly when they agree on
      year, month, day and hour (in their own offsets). */
  lemma HourKeyIdentifiesHour(a: Stamp, b: Stamp)
    requires Valid(a) && Valid(b)
    ensures HourKey(a) == HourKey(b) <==>
            (a.year, a.month, a.day, a.hour) == (b.year, b.month, b.day, b.hour)
  {
    if HourKey(a) == HourKey(b) {
      var ka, kb := HourKey(a), HourKey(b);
      assert ka[0..4] == Padded(a.year, 4) && kb[0..4] == Padded(b.year, 4);
      assert ka[5..7] == Padded(a.month, 2) && kb[5..7] == Padded(b.month, 2);
      assert ka[8..10] == Padded(a.day, 2) && kb[8..10] == Padded(b.day, 2);
      assert ka[11..13] == Padded(a.hour, 2) && kb[11..13] == Padded(b.hour, 2);
      PaddedValue(a.year, 4);
      PaddedValue(b.year, 4);
      PaddedValue(a.month, 2);
      PaddedValue(b.month, 2);
      PaddedValue(a.day, 2);
      PaddedValue(b.day, 2);
      PaddedValue(a.hour, 2);
      PaddedValue(b.hour, 2);
    }
  }

  /** `dt.isoformat()` of an aware datetime whose microseconds are zero:
      `YYYY-MM-DDTHH:MM:SS+HH:MM`. */
  function IsoFormat(t: Stamp): string {
    DayKey(t) + "T" + TimeText(t) + (if t.offset < 0 then "-" else "+")
    + Padded(Abs(t.offset) / 60, 2) + ":" + Padded(Abs(t.offset) % 60, 2)
  }
}
