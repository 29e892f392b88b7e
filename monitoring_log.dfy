/**
 * The specification of `analyze_monitoring_log`: how one line of the
 * monitoring log is classified by its markers, what it adds to the
 * statistics, and how the mean response time and the uptime percentage
 * are computed at the end.
 *
 * `float(...)` of a captured `Tempo` token that has two dots raises
 * `ValueError`; the handler around the whole loop catches it, so the rest
 * of the log is not read but the counters already moved for that line and
 * the statistics are still finalised. `Step` reports that as `raised`.
 */
module MonitoringLog {
  import opened Wrappers
  import opened Text
  import Clock

  // ---------------------------------------------------------------------
  // The two searches

  const TempoLabel: string := "Tempo: "

  /** Length of the longest prefix of `s` made of digits and dots. */
  function DigitDotRun(s: string): (n: nat)
    ensures n <= |s|
    ensures forall i :: 0 <= i < n ==> IsDigitOrDot(s[i])
    ensures n == |s| || !IsDigitOrDot(s[n])
  {
    if s != [] && IsDigitOrDot(s[0]) then 1 + DigitDotRun(s[1..]) else 0
  }

  /** `Tempo: ([\d.]+)s` tried at the start of `s`. The greedy run can only
      be followed by the `s` at its longest, so no backtracking helps. */
  function TempoAt(s: string): Option<string> {
    if TempoLabel <= s then
      var tail := s[|TempoLabel|..];
      var n := DigitDotRun(tail);
      if 0 < n < |tail| && tail[n] == 's' then Some(tail[..n]) else None
    else None
  }

  /** `re.search(r'Tempo: ([\d.]+)s', line).group(1)`: the token of the
      leftmost match. What it finds is a non-empty run of digits and dots
      that occurs in the line between the label and an `s`. */
  function FindTempo(s: string): (r: Option<string>)
    ensures r.Some? ==> r.value != [] && forall i :: 0 <= i < |r.value| ==> IsDigitOrDot(r.value[i])
    ensures r.Some? ==> Contains(s, TempoLabel + r.value + "s")
  {
    match TempoAt(s)
    case Some(tok) =>
      var tail := s[|TempoLabel|..];
      assert s[..|TempoLabel| + |tok| + 1] == TempoLabel + tok + "s";
      ContainsPrefix(s, TempoLabel + tok + "s");
      Some(tok)
    case None =>
      if s == [] then None
      else
        var r := FindTempo(s[1..]);
        if r.Some? then
          assert [s[0]] + s[1..] == s;
          ContainsAfterPrefix([s[0]], s[1..], TempoLabel + r.value + "s");
          r
        else r
  }

  /** Text before the label that has no `T` in it cannot hide a match: the
      token after the first label is the one found. */
  lemma {:induction false} FindTempoAfter(p: string, tok: string, q: string)
    requires 'T' !in p
    requires tok != [] && forall i :: 0 <= i < |tok| ==> IsDigitOrDot(tok[i])
    ensures FindTempo(p + TempoLabel + tok + "s" + q) == Some(tok)
  {
    var s := p + TempoLabel + tok + "s" + q;
    if p == [] {
      assert s == TempoLabel + (tok + "s" + q);
      assert TempoLabel <= s;
      var tail := s[|TempoLabel|..];
      assert tail == tok + ("s" + q);
      DigitDotRunOf(tok, "s" + q);
      assert tail[|tok|] == 's' && tail[..|tok|] == tok;
    } else {
      assert s[0] == p[0] != 'T';
      assert s[1..] == p[1..] + TempoLabel + tok + "s" + q;
      FindTempoAfter(p[1..], tok, q);
    }
  }

  lemma {:induction false} DigitDotRunOf(tok: string, rest: string)
    requires forall i :: 0 <= i < |tok| ==> IsDigitOrDot(tok[i])
    requires rest == [] || !IsDigitOrDot(rest[0])
    ensures DigitDotRun(tok + rest) == |tok|
  {
    if tok != [] {
      assert (tok + rest)[1..] == tok[1..] + rest;
      DigitDotRunOf(tok[1..], rest);
    } else {
      assert tok + rest == rest;
    }
  }

  /** A line without the label yields no sample. */
  lemma {:induction false} NoLabelNoTempo(s: string)
    requires !Contains(s, TempoLabel)
    ensures FindTempo(s) == None
  {
    if TempoLabel <= s {
      ContainsPrefix(s, TempoLabel);
    }
    if s != [] {
      if Contains(s[1..], TempoLabel) {
        assert [s[0]] + s[1..] == s;
        ContainsAfterPrefix([s[0]], s[1..], TempoLabel);
      }
      NoLabelNoTempo(s[1..]);
    }
  }

  /** The pattern matches at position `i` of `s` capturing `tok`: the
      label, a non-empty run of digits and dots, then an `s`. Since an `s`
      is neither, the captured run is the longest one after the label. */
  predicate TempoMatch(s: string, i: nat, tok: string) {
    && tok != [] && (forall k :: 0 <= k < |tok| ==> IsDigitOrDot(tok[k]))
    && OccursAt(s, TempoLabel + tok + "s", i)
  }

  /** Trying the pattern at the start of `s` finds `tok` exactly when it
      matches there capturing `tok`. */
  lemma TempoAtMatch(s: string, tok: string)
    ensures TempoAt(s) == Some(tok) <==> TempoMatch(s, 0, tok)
  {
    var w := TempoLabel + tok + "s";
    if TempoMatch(s, 0, tok) {
      assert s[..|w|] == w;
      assert s[..|TempoLabel|] == TempoLabel;
      var tail := s[|TempoLabel|..];
      assert tail == tok + ("s" + s[|w|..]);
      DigitDotRunOf(tok, "s" + s[|w|..]);
    }
    if TempoAt(s) == Some(tok) {
      var tail := s[|TempoLabel|..];
      assert s[..|w|] == TempoLabel + tail[..|tok| + 1];
      assert tail[..|tok| + 1] == tok + "s";
    }
  }

  lemma TempoMatchShift(s: string, j: nat, tok: string)
    requires s != []
    ensures TempoMatch(s, j + 1, tok) <==> TempoMatch(s[1..], j, tok)
  {
    OccursAtShift(s, TempoLabel + tok + "s", j);
  }

  /** The search finds the token of the leftmost match. */
  lemma {:induction false} FindTempoLeftmost(s: string, i: nat, tok: string)
    requires TempoMatch(s, i, tok)
    requires forall j: nat, t :: j < i ==> !TempoMatch(s, j, t)
    ensures FindTempo(s) == Some(tok)
  {
    TempoAtMatch(s, tok);
    if i > 0 {
      if TempoAt(s).Some? {
        TempoAtMatch(s, TempoAt(s).value);
      }
      TempoMatchShift(s, i - 1, tok);
      forall j: nat, t | j < i - 1
        ensures !TempoMatch(s[1..], j, t)
      {
        TempoMatchShift(s, j, t);
      }
      FindTempoLeftmost(s[1..], i - 1, tok);
    }
  }

  /** The search finds nothing only when the pattern matches nowhere. */
  lemma {:induction false} FindTempoNone(s: string)
    requires FindTempo(s) == None
    ensures forall i: nat, tok :: !TempoMatch(s, i, tok)
  {
    forall i: nat, tok
      ensures !TempoMatch(s, i, tok)
    {
      TempoAtMatch(s, tok);
      if i > 0 && s != [] {
        TempoMatchShift(s, i - 1, tok);
        FindTempoNone(s[1..]);
      }
    }
  }

  /** `\d{4}-\d{2}-\d{2} \d{2}:\d{2}:\d{2}` on a window of 19 characters. */
  predicate DateTimeShape(w: string) {
    |w| == 19 && Clock.DateTimeLayout(w, ' ')
  }

  /** `re.search(r'(\d{4}-\d{2}-\d{2} \d{2}:\d{2}:\d{2})', line).group(1)`:
      the leftmost window of that shape. */
  function FindDateTime(s: string): (r: Option<string>)
    ensures r.Some? ==> DateTimeShape(r.value) && Contains(s, r.value)
  {
    if |s| < 19 then None
    else if DateTimeShape(s[..19]) then
      ContainsPrefix(s, s[..19]);
      Some(s[..19])
    else
      var r := FindDateTime(s[1..]);
      if r.Some? then
        assert [s[0]] + s[1..] == s;
        ContainsAfterPrefix([s[0]], s[1..], r.value);
        r
      else r
  }

  /** The date and time pattern matches at position `i` of `s`. */
  predicate DateTimeMatch(s: string, i: nat) {
    i + 19 <= |s| && DateTimeShape(s[i..i + 19])
  }

  lemma DateTimeMatchShift(s: string, j: nat)
    requires s != []
    ensures DateTimeMatch(s, j + 1) <==> DateTimeMatch(s[1..], j)
  {
    if j + 1 + 19 <= |s| {
      assert s[1..][j..j + 19] == s[j + 1..j + 1 + 19];
    }
  }

  /** The search finds the window of the leftmost match. */
  lemma {:induction false} FindDateTimeLeftmost(s: string, i: nat)
    requires DateTimeMatch(s, i)
    requires forall j: nat :: j < i ==> !DateTimeMatch(s, j)
    ensures FindDateTime(s) == Some(s[i..i + 19])
  {
    if i > 0 {
      assert !DateTimeMatch(s, 0);
      assert s[..19] == s[0..0 + 19];
      DateTimeMatchShift(s, i - 1);
      forall j: nat | j < i - 1
        ensures !DateTimeMatch(s[1..], j)
      {
        DateTimeMatchShift(s, j);
      }
      FindDateTimeLeftmost(s[1..], i - 1);
      assert s[1..][i - 1..i - 1 + 19] == s[i..i + 19];
    } else {
      assert s[..19] == s[0..0 + 19];
    }
  }

  /** The search finds nothing only when the pattern matches nowhere. */
  lemma {:induction false} FindDateTimeNone(s: string)
    requires FindDateTime(s) == None
    ensures forall i: nat :: !DateTimeMatch(s, i)
  {
    forall i: nat
      ensures !DateTimeMatch(s, i)
    {
      if i + 19 <= |s| {
        assert s[..19] == s[0..0 + 19];
        if i > 0 {
          DateTimeMatchShift(s, i - 1);
          FindDateTimeNone(s[1..]);
        }
      }
    }
  }

  // ---------------------------------------------------------------------
  // Classification

  const OkMarker: string := "Site OK"
  const ProblemMarker: string := "Site com problema"
  const AccessErrorMarker: string := "Erro ao acessar"
  const AlertMarker: string := "Alerta"
  const SentMarker: string := "enviado"

  /** The `Tempo` token of a success line: absent, a number, or a token
      `float` refuses. */
  datatype Sample = NoSample | Seconds(value: real) | Malformed(token: string)

  /** An entry of `downtime_events`. */
  datatype DowntimeEvent = DowntimeEvent(timestamp: string, error: string)

  /** Which branch of the `if`/`elif` chain a line takes. */
  datatype Event =
    | CheckOk(sample: Sample)
    | CheckFailed(downtime: Option<DowntimeEvent>)
    | AlertSent
    | Ignored

  function SampleOf(line: string): (r: Sample)
    ensures r.Seconds? ==> r.value >= 0.0
  {
    match FindTempo(line)
    case None => NoSample
    case Some(tok) =>
      match ParseDecimal(tok)
      case Some(v) => Seconds(v)
      case None => Malformed(tok)
  }

  function DowntimeOf(line: string): Option<DowntimeEvent> {
    match FindDateTime(line)
    case None => None
    case Some(w) => Some(DowntimeEvent(w, Strip(line)))
  }

  /** The first marker that matches decides: success, then failure, then a
      sent alert. */
  function Classify(line: string): (ev: Event)
    ensures ev.CheckOk? <==> Contains(line, OkMarker)
    ensures ev.CheckFailed? <==>
      !Contains(line, OkMarker) && (Contains(line, ProblemMarker) || Contains(line, AccessErrorMarker))
    ensures ev.AlertSent? <==>
      && !Contains(line, OkMarker) && !Contains(line, ProblemMarker) && !Contains(line, AccessErrorMarker)
      && Contains(line, AlertMarker) && Contains(line, SentMarker)
    ensures ev.CheckFailed? && ev.downtime.Some? ==>
      ev.downtime.value.error == Strip(line) && DateTimeShape(ev.downtime.value.timestamp)
      && Contains(line, ev.downtime.value.timestamp)
  {
    if Contains(line, OkMarker) then CheckOk(SampleOf(line))
    else if Contains(line, ProblemMarker) || Contains(line, AccessErrorMarker) then CheckFailed(DowntimeOf(line))
    else if Contains(line, AlertMarker) && Contains(line, SentMarker) then AlertSent
    else Ignored
  }

  // ---------------------------------------------------------------------
  // The line terminator

  lemma TempoMatchNewline(s: string, i: nat, tok: string)
    ensures TempoMatch(s + "\n", i, tok) <==> TempoMatch(s, i, tok)
  {
    var w := TempoLabel + tok + "s";
    assert w[|w| - 1] == 's';
    OccursAtAppend(s, w, '\n', i);
  }

  lemma TempoAtNewline(s: string)
    ensures TempoAt(s + "\n") == TempoAt(s)
  {
    var t := s + "\n";
    if TempoAt(t).Some? {
      var tok := TempoAt(t).value;
      TempoAtMatch(t, tok);
      TempoMatchNewline(s, 0, tok);
      TempoAtMatch(s, tok);
    }
    if TempoAt(s).Some? {
      var tok := TempoAt(s).value;
      TempoAtMatch(s, tok);
      TempoMatchNewline(s, 0, tok);
      TempoAtMatch(t, tok);
    }
  }

  /** The `Tempo` search finds the same token with or without the `\n`
      that ends a line read from a file. */
  lemma {:induction false} FindTempoNewline(s: string)
    ensures FindTempo(s + "\n") == FindTempo(s)
  {
    var t := s + "\n";
    TempoAtNewline(s);
    if TempoAt(s).None? {
      if s == [] {
        assert t[1..] == [];
      } else {
        assert t[1..] == s[1..] + "\n";
        FindTempoNewline(s[1..]);
      }
    }
  }

  /** So does the date and time search: its window ends in a digit. */
  lemma {:induction false} FindDateTimeNewline(s: string)
    ensures FindDateTime(s + "\n") == FindDateTime(s)
  {
    var t := s + "\n";
    if |s| >= 19 {
      assert t[..19] == s[..19];
      assert t[1..] == s[1..] + "\n";
      FindDateTimeNewline(s[1..]);
    } else if |s| == 18 {
      assert t[..19][18] == '\n';
      assert !DateTimeShape(t[..19]);
      assert t[1..] == s[1..] + "\n";
      FindDateTimeNewline(s[1..]);
    }
  }

  /** A line is classified the same with or without its `\n`: no marker
      ends in one, both searches ignore it, and `strip` drops it. */
  lemma ClassifyNewline(line: string)
    ensures Classify(line + "\n") == Classify(line)
  {
    ContainsAppend(line, OkMarker, '\n');
    ContainsAppend(line, ProblemMarker, '\n');
    ContainsAppend(line, AccessErrorMarker, '\n');
    ContainsAppend(line, AlertMarker, '\n');
    ContainsAppend(line, SentMarker, '\n');
    FindTempoNewline(line);
    FindDateTimeNewline(line);
    StripAppendSpace(line, '\n');
  }

  /** Length of the first line of a text, with its `\n` if it has one. */
  function LineEnd(text: string): (n: nat)
    requires text != []
    ensures 0 < n <= |text|
    ensures forall i :: 0 <= i < n - 1 ==> text[i] != '\n'
    ensures n == |text| || text[n - 1] == '\n'
  {
    if text[0] == '\n' || |text| == 1 then 1 else 1 + LineEnd(text[1..])
  }

  /** `for line in f` over a file that holds `text`: each line with the `\n`
      that ends it, and a last one without when the text does not end in a
      `\n`. */
  function FileLines(text: string): seq<string>
    decreases |text|
  {
    if text == [] then [] else var n := LineEnd(text); [text[..n]] + FileLines(text[n..])
  }

  /** The lines `lines`, each ended by a `\n`. */
  function Terminated(lines: seq<string>): seq<string> {
    seq(|lines|, i requires 0 <= i < |lines| => lines[i] + "\n")
  }

  // ---------------------------------------------------------------------
  // The statistics

  /** The `stats` dict, key for key. */
  datatype MonitoringStats = MonitoringStats(
    totalChecks: nat,
    successfulChecks: nat,
    failedChecks: nat,
    alertsSent: nat,
    averageResponseTime: real,
    responseTimes: seq<real>,
    errors: seq<string>,
    uptimePercentage: real,
    downtimeEvents: seq<DowntimeEvent>)

  const Initial: MonitoringStats := MonitoringStats(0, 0, 0, 0, 0.0, [], [], 0.0, [])

  /** The statistics after a line, and whether reading it raised. */
  datatype Outcome = Outcome(stats: MonitoringStats, raised: bool)

  function Apply(st: MonitoringStats, ev: Event): Outcome {
    match ev
    case CheckOk(sample) =>
      var counted := st.(totalChecks := st.totalChecks + 1, successfulChecks := st.successfulChecks + 1);
      (match sample
       case NoSample => Outcome(counted, false)
       case Seconds(v) => Outcome(counted.(responseTimes := counted.responseTimes + [v]), false)
       case Malformed(_) => Outcome(counted, true))
    case CheckFailed(downtime) =>
      var counted := st.(totalChecks := st.totalChecks + 1, failedChecks := st.failedChecks + 1);
      (match downtime
       case None => Outcome(counted, false)
       case Some(d) => Outcome(counted.(downtimeEvents := counted.downtimeEvents + [d]), false))
    case AlertSent => Outcome(st.(alertsSent := st.alertsSent + 1), false)
    case Ignored => Outcome(st, false)
  }

  /** The body of the loop for one line. */
  function Step(st: MonitoringStats, line: string): Outcome {
    Apply(st, Classify(line))
  }

  /** The loop over a log: it ends early at the first line that raises. */
  function Scan(st: MonitoringStats, lines: seq<string>): Outcome {
    if lines == [] then Outcome(st, false)
    else
      var before := Scan(st, lines[..|lines| - 1]);
      if before.raised then before else Step(before.stats, lines[|lines| - 1])
  }

  lemma ScanExtend(st: MonitoringStats, lines: seq<string>, i: nat)
    requires i < |lines|
    ensures var before := Scan(st, lines[..i]);
      Scan(st, lines[..i + 1]) == if before.raised then before else Step(before.stats, lines[i])
  {
    assert lines[..i + 1][..i] == lines[..i];
  }

  /** Reading two stretches of a log one after the other. */
  lemma {:induction false} ScanAppend(st: MonitoringStats, a: seq<string>, b: seq<string>)
    ensures var first := Scan(st, a);
      Scan(st, a + b) == if first.raised then first else Scan(first.stats, b)
  {
    if b == [] {
      assert a + b == a;
    } else {
      var ab := a + b;
      assert ab[..|ab| - 1] == a + b[..|b| - 1];
      assert ab[|ab| - 1] == b[|b| - 1];
      ScanAppend(st, a, b[..|b| - 1]);
      if Scan(st, a).raised {
        ScanStopsAtRaise(st, a, b);
      }
    }
  }

  lemma ScanSingle(st: MonitoringStats, line: string)
    ensures Scan(st, [line]) == Step(st, line)
  {
    assert [line][..0] == [];
  }

  /** The loop reads lines ended by `\n` as it reads the bare lines. */
  lemma {:induction false} ScanTerminated(st: MonitoringStats, lines: seq<string>)
    ensures Scan(st, Terminated(lines)) == Scan(st, lines)
  {
    if lines != [] {
      var n := |lines|;
      var ts := Terminated(lines);
      assert ts[..n - 1] == Terminated(lines[..n - 1]);
      ScanTerminated(st, lines[..n - 1]);
      ClassifyNewline(lines[n - 1]);
    }
  }

  function Sum(xs: seq<real>): real {
    if xs == [] then 0.0 else Sum(xs[..|xs| - 1]) + xs[|xs| - 1]
  }

  /** The two computed fields: the mean of the samples and the share of
      successful checks, each left at 0 when there is nothing to divide. */
  function Finalize(st: MonitoringStats): MonitoringStats {
    var average := if st.responseTimes != [] then Sum(st.responseTimes) / |st.responseTimes| as real
                   else st.averageResponseTime;
    var uptime := if st.totalChecks > 0 then (st.successfulChecks as real / st.totalChecks as real) * 100.0
                  else st.uptimePercentage;
    st.(averageResponseTime := average, uptimePercentage := uptime)
  }

  /** `analyze_monitoring_log` on the lines of a log. */
  function AnalyzeMonitoringLog(lines: seq<string>): MonitoringStats {
    Finalize(Scan(Initial, lines).stats)
  }

  // ---------------------------------------------------------------------
  // What a line does

  /** Each line moves at most one of the three counters; a sent alert never
      counts as a check; a sample is added only by a success line, a downtime
      event only by a failure line; `errors` never grows. */
  lemma StepEffect(st: MonitoringStats, line: string)
    ensures var o := Step(st, line); var ev := Classify(line);
      && o.stats.totalChecks == st.totalChecks + (if ev.CheckOk? || ev.CheckFailed? then 1 else 0)
      && o.stats.successfulChecks == st.successfulChecks + (if ev.CheckOk? then 1 else 0)
      && o.stats.failedChecks == st.failedChecks + (if ev.CheckFailed? then 1 else 0)
      && o.stats.alertsSent == st.alertsSent + (if ev.AlertSent? then 1 else 0)
      && o.stats.responseTimes ==
           st.responseTimes + (if ev.CheckOk? && ev.sample.Seconds? then [ev.sample.value] else [])
      && o.stats.downtimeEvents ==
           st.downtimeEvents + (if ev.CheckFailed? && ev.downtime.Some? then [ev.downtime.value] else [])
      && o.stats.errors == st.errors
      && o.stats.averageResponseTime == st.averageResponseTime
      && o.stats.uptimePercentage == st.uptimePercentage
      && (o.raised <==> ev.CheckOk? && ev.sample.Malformed?)
  {
  }

  /** What holds of the statistics before finalisation at every point of the
      loop. */
  ghost predicate Consistent(st: MonitoringStats) {
    && st.totalChecks == st.successfulChecks + st.failedChecks
    && |st.responseTimes| <= st.successfulChecks
    && |st.downtimeEvents| <= st.failedChecks
    && (forall i :: 0 <= i < |st.responseTimes| ==> st.responseTimes[i] >= 0.0)
    && st.errors == []
    && st.averageResponseTime == 0.0
    && st.uptimePercentage == 0.0
  }

  lemma StepConsistent(st: MonitoringStats, line: string)
    requires Consistent(st)
    ensures Consistent(Step(st, line).stats)
  {
    StepEffect(st, line);
  }

  /** The loop keeps the statistics consistent from the empty dict on,
      whether or not it ends early. */
  lemma {:induction false} ScanConsistent(lines: seq<string>)
    ensures Consistent(Scan(Initial, lines).stats)
  {
    if lines != [] {
      ScanConsistent(lines[..|lines| - 1]);
      var before := Scan(Initial, lines[..|lines| - 1]);
      if !before.raised {
        StepConsistent(before.stats, lines[|lines| - 1]);
      }
    }
  }

  /** Once a line raised, no later line is read. */
  lemma {:induction false} ScanStopsAtRaise(st: MonitoringStats, lines: seq<string>, more: seq<string>)
    requires Scan(st, lines).raised
    ensures Scan(st, lines + more) == Scan(st, lines)
  {
    if more != [] {
      var all := lines + more;
      assert all[..|all| - 1] == lines + more[..|more| - 1];
      ScanStopsAtRaise(st, lines, more[..|more| - 1]);
    } else {
      assert lines + more == lines;
    }
  }

  // ---------------------------------------------------------------------
  // Finalisation

  lemma {:induction false} SumNonNegative(xs: seq<real>)
    requires forall i :: 0 <= i < |xs| ==> xs[i] >= 0.0
    ensures Sum(xs) >= 0.0
  {
    if xs != [] {
      SumNonNegative(xs[..|xs| - 1]);
    }
  }

  lemma {:induction false} SumBounds(xs: seq<real>, lo: real, hi: real)
    requires forall i :: 0 <= i < |xs| ==> lo <= xs[i] <= hi
    ensures |xs| as real * lo <= Sum(xs) <= |xs| as real * hi
  {
    if xs != [] {
      SumBounds(xs[..|xs| - 1], lo, hi);
    }
  }

  lemma QuotientAtLeast(a: real, n: real, lo: real)
    requires n > 0.0 && lo * n <= a
    ensures lo <= a / n
  {
  }

  lemma QuotientAtMost(a: real, n: real, hi: real)
    requires n > 0.0 && a <= hi * n
    ensures a / n <= hi
  {
  }

  /** The mean of samples that lie in [lo, hi] lies in [lo, hi]. */
  lemma MeanBounds(xs: seq<real>, lo: real, hi: real)
    requires xs != []
    requires forall i :: 0 <= i < |xs| ==> lo <= xs[i] <= hi
    ensures lo <= Sum(xs) / |xs| as real <= hi
  {
    SumBounds(xs, lo, hi);
    var n := |xs| as real;
    QuotientAtLeast(Sum(xs), n, lo);
    QuotientAtMost(Sum(xs), n, hi);
  }

  /** The finalised mean: 0 without samples, otherwise the number whose
      product with the sample count is the sum; never negative. */
  lemma FinalizeAverage(st: MonitoringStats)
    requires Consistent(st)
    ensures var f := Finalize(st);
      && (st.responseTimes == [] ==> f.averageResponseTime == 0.0)
      && (st.responseTimes != [] ==> f.averageResponseTime * |st.responseTimes| as real == Sum(st.responseTimes))
      && f.averageResponseTime >= 0.0
  {
    SumNonNegative(st.responseTimes);
    if st.responseTimes != [] {
      var n := |st.responseTimes| as real;
      assert Finalize(st).averageResponseTime == Sum(st.responseTimes) / n;
    }
  }

  /** The finalised uptime is a percentage: 0 without checks, otherwise the
      share of successful checks times 100, which is 100 exactly when no
      check failed. */
  lemma FinalizeUptime(st: MonitoringStats)
    requires Consistent(st)
    ensures var f := Finalize(st);
      && 0.0 <= f.uptimePercentage <= 100.0
      && (st.totalChecks == 0 ==> f.uptimePercentage == 0.0)
      && (st.totalChecks > 0 ==> f.uptimePercentage * st.totalChecks as real == 100.0 * st.successfulChecks as real)
      && (f.uptimePercentage == 100.0 <==> st.totalChecks > 0 && st.failedChecks == 0)
  {
    if st.totalChecks > 0 {
      var s, t := st.successfulChecks as real, st.totalChecks as real;
      var u := Finalize(st).uptimePercentage;
      assert u == (s / t) * 100.0;
      Ratio(s, t);
      ScaledRatio(s, t, u);
    }
  }

  /** The share of a part in a positive whole lies in [0, 1], is 1 exactly
      when the part is the whole, and times the whole gives the part back. */
  lemma Ratio(s: real, t: real)
    requires 0.0 <= s <= t && t > 0.0
    ensures 0.0 <= s / t <= 1.0
    ensures s / t == 1.0 <==> s == t
    ensures (s / t) * t == s
  {
    var q := s / t;
    assert q * t == s;
    QuotientAtMost(s, t, 1.0);
  }

  lemma ScaledRatio(s: real, t: real, u: real)
    requires t > 0.0 && u == (s / t) * 100.0 && (s / t) * t == s
    ensures u * t == 100.0 * s
  {
    var q := s / t;
    calc {
      u * t;
      (q * 100.0) * t;
      100.0 * (q * t);
      100.0 * s;
    }
  }

  /** Finalisation touches only the two computed fields. */
  lemma FinalizeKeeps(st: MonitoringStats)
    ensures var f := Finalize(st);
      f == st.(averageResponseTime := f.averageResponseTime, uptimePercentage := f.uptimePercentage)
  {
  }

  /** The whole analysis: the checks add up, uptime is a percentage and the
      mean is non-negative, whatever the log holds. */
  lemma AnalysisBounds(lines: seq<string>)
    ensures var r := AnalyzeMonitoringLog(lines);
      && r.totalChecks == r.successfulChecks + r.failedChecks
      && 0.0 <= r.uptimePercentage <= 100.0
      && r.averageResponseTime >= 0.0
      && |r.responseTimes| <= r.successfulChecks
      && |r.downtimeEvents| <= r.failedChecks
      && r.errors == []
  {
    ScanConsistent(lines);
    var st := Scan(Initial, lines).stats;
    FinalizeAverage(st);
    FinalizeUptime(st);
  }

  /** `p` is `part` as a percentage of `whole`. */
  predicate IsPercentage(p: real, part: nat, whole: nat) {
    p * whole as real == 100.0 * part as real
  }

  /** `m` is the mean of `xs`. */
  predicate IsMean(m: real, xs: seq<real>) {
    m * |xs| as real == Sum(xs)
  }

  /** The uptime is the percentage of checks that succeeded, and the average
      is the mean of the samples. */
  lemma AnalysisRates(lines: seq<string>)
    ensures var r := AnalyzeMonitoringLog(lines);
      && (r.totalChecks > 0 ==> IsPercentage(r.uptimePercentage, r.successfulChecks, r.totalChecks))
      && (r.totalChecks == 0 ==> r.uptimePercentage == 0.0)
      && (r.uptimePercentage == 100.0 <==> r.totalChecks > 0 && r.failedChecks == 0)
      && (r.responseTimes != [] ==> IsMean(r.averageResponseTime, r.responseTimes))
      && (r.responseTimes == [] ==> r.averageResponseTime == 0.0)
  {
    ScanConsistent(lines);
    FinalizeRates(Scan(Initial, lines).stats);
  }

  lemma FinalizeRates(st: MonitoringStats)
    requires Consistent(st)
    ensures var r := Finalize(st);
      && (r.totalChecks > 0 ==> IsPercentage(r.uptimePercentage, r.successfulChecks, r.totalChecks))
      && (r.totalChecks == 0 ==> r.uptimePercentage == 0.0)
      && (r.uptimePercentage == 100.0 <==> r.totalChecks > 0 && r.failedChecks == 0)
      && (r.responseTimes != [] ==> IsMean(r.averageResponseTime, r.responseTimes))
      && (r.responseTimes == [] ==> r.averageResponseTime == 0.0)
  {
    FinalizeAverage(st);
    FinalizeUptime(st);
    FinalizeKeeps(st);
  }
}
