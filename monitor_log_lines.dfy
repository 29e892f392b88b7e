/**
 * The monitoring log as monitor_site.py writes it and log_analyzer.py
 * reads it. Every run of the check writes a start line, the line of the
 * probe, the lines of an alert if one is due, and an end line, each as
 * `asctime - LEVEL - message`. Classified by the analyzer, such a log gives
 * one check per run, one sample per run that found the site up, one
 * downtime event per run that found it down, and two alert lines for every
 * alert the webhook took.
 */
module MonitorLogLines {
  import opened Wrappers
  import opened Text
  import Clock
  import opened SiteMonitor
  import opened MonitoringLog

  // ---------------------------------------------------------------------
  // The lines

  datatype Level = Info | Warning | Error

  function LevelName(level: Level): string {
    match level
    case Info => "INFO"
    case Warning => "WARNING"
    case Error => "ERROR"
  }

  /** `%(asctime)s - %(levelname)s - ` of the logging format. */
  function Header(at: Clock.Instant, level: Level): string {
    Clock.Asctime(at) + " - " + LevelName(level) + " - "
  }

  function LogLine(at: Clock.Instant, level: Level, message: string): string {
    Header(at, level) + message
  }

  const StartMessage: string := "Iniciando verifica\U{E7}\U{E3}o do site..."
  const DoneMessage: string := "Verifica\U{E7}\U{E3}o conclu\U{ED}da"
  const DiscordSentMessage: string := "Alerta " + "enviado" + " via Discord com sucesso"
  const DiscordFailurePrefix: string := "E" + DiscordFailureTail
  const DownSentMessage: string := "Alerta de site fora do ar enviado"
  const DownFailedMessage: string := "Falha ao enviar alerta de site fora do ar"
  const RestoredSentMessage: string := "Alerta de site restaurado enviado"
  const RestoredFailedMessage: string := "Falha ao enviar alerta de site restaurado"

  /** The line `check_site_status` logs for a probe. */
  function CheckLine(at: Clock.Instant, probe: Probe, fmt2: real -> string): string {
    match probe
    case Response(code, elapsed) =>
      if code == 200 then
        LogLine(at, Info, "Site OK - Status: " + IntToString(code) + ", Tempo: " + fmt2(elapsed) + "s")
      else
        LogLine(at, Warning, "Site com problema - Status: " + IntToString(code) + ", Tempo: " + fmt2(elapsed) + "s")
    case TransportError(message) =>
      LogLine(at, Error, "Erro ao acessar o site: " + message)
  }

  /** The lines `send_discord_alert` and `main` log for an alert. */
  function AlertLines(at: Clock.Instant, action: Action, delivery: Delivery): seq<string> {
    if action == NoAlert then []
    else
      match delivery
      case Delivered =>
        [LogLine(at, Info, DiscordSentMessage),
         LogLine(at, Info, if action == DownAlert then DownSentMessage else RestoredSentMessage)]
      case NotDelivered(reason) =>
        [LogLine(at, Error, DiscordFailurePrefix + reason),
         LogLine(at, Error, if action == DownAlert then DownFailedMessage else RestoredFailedMessage)]
  }

  /** Whether a run taking `action` ends in the formatter: a down alert
      whose failure text is empty, which `SiteMonitor.RunAborts` shows is
      the run whose outcome is aborted. */
  predicate Aborts(run: Run, action: Action) {
    action == DownAlert && run.probe == TransportError("")
  }

  /** Everything one run of `main` logs, all stamped `at`: a run that ends in
      the formatter stops after its probe line. */
  function RunLines(at: Clock.Instant, run: Run, action: Action, fmt2: real -> string): seq<string> {
    HeadLines(at, run, fmt2) + TailLines(at, run, action)
  }

  /** The start line and the probe line. */
  function HeadLines(at: Clock.Instant, run: Run, fmt2: real -> string): seq<string> {
    [LogLine(at, Info, StartMessage), CheckLine(at, run.probe, fmt2)]
  }

  /** The lines after the probe line: none when the run ends in the
      formatter, else the alert lines and the end line. */
  function TailLines(at: Clock.Instant, run: Run, action: Action): seq<string> {
    if Aborts(run, action) then []
    else AlertLines(at, action, run.delivery) + [LogLine(at, Info, DoneMessage)]
  }

  /** What run `i` of a sequence decides: `SiteMonitor.RunDecision` shows
      that this is the action `main` takes on the file the runs before it
      left. */
  function ActionAt(runs: seq<Run>, i: nat): Action
    requires i < |runs|
  {
    Decide(PreviousUp(runs, i), IsUp(runs[i]))
  }

  /** The log after a sequence of runs, run `i` stamped `stamps[i]`. */
  function LogOf(runs: seq<Run>, stamps: seq<Clock.Instant>, fmt2: real -> string): seq<string>
    requires |stamps| == |runs|
  {
    if runs == [] then []
    else
      var n := |runs|;
      LogOf(runs[..n - 1], stamps[..n - 1], fmt2) + RunLines(stamps[n - 1], runs[n - 1], ActionAt(runs, n - 1), fmt2)
  }

  /** The text the file handler leaves: each record followed by `\n`. */
  function Written(lines: seq<string>): string {
    if lines == [] then [] else lines[0] + "\n" + Written(lines[1..])
  }

  /** The lines `analyze_monitoring_log` reads back from the log file. */
  function LogFile(runs: seq<Run>, stamps: seq<Clock.Instant>, fmt2: real -> string): seq<string>
    requires |stamps| == |runs|
  {
    FileLines(Written(LogOf(runs, stamps, fmt2)))
  }

  lemma {:induction false} LineEndOf(l: string, rest: string)
    requires '\n' !in l
    ensures LineEnd(l + "\n" + rest) == |l| + 1
  {
    if l != [] {
      assert (l + "\n" + rest)[1..] == l[1..] + "\n" + rest;
      LineEndOf(l[1..], rest);
    }
  }

  /** Reading back, line by line, records written without a `\n` in them
      gives each record with its `\n`. */
  lemma {:induction false} ReadWritten(lines: seq<string>)
    requires forall line | line in lines :: SingleLine(line)
    ensures FileLines(Written(lines)) == Terminated(lines)
  {
    if lines != [] {
      var text := Written(lines);
      var first := lines[0];
      assert SingleLine(first);
      LineEndOf(first, Written(lines[1..]));
      assert text[..|first| + 1] == first + "\n";
      assert text[|first| + 1..] == Written(lines[1..]);
      assert forall line | line in lines[1..] :: line in lines;
      ReadWritten(lines[1..]);
      assert Terminated(lines) == [first + "\n"] + Terminated(lines[1..]);
    }
  }

  // ---------------------------------------------------------------------
  // The header hides no marker

  /** No lower-case letter, no `T` and no line break: what a line header
      is made of. */
  predicate Unmarked(s: string) {
    forall i :: 0 <= i < |s| ==> !IsLower(s[i]) && s[i] != 'T' && s[i] != '\n' && s[i] != '\r'
  }

  lemma UnmarkedConcat(a: string, b: string)
    requires Unmarked(a) && Unmarked(b)
    ensures Unmarked(a + b)
  {
    assert forall i :: |a| <= i < |a + b| ==> (a + b)[i] == b[i - |a|];
  }

  lemma DigitsUnmarked(s: string)
    requires AllDigits(s)
    ensures Unmarked(s)
  {
  }

  lemma AsctimeUnmarked(at: Clock.Instant)
    ensures Unmarked(Clock.Asctime(at))
  {
    var y, mo, d := Padded(at.year, 4), Padded(at.month, 2), Padded(at.day, 2);
    var h, mi, s := Padded(at.hour, 2), Padded(at.minute, 2), Padded(at.second, 2);
    var ms := Padded(at.micro / 1000, 3);
    DigitsUnmarked(y); DigitsUnmarked(mo); DigitsUnmarked(d);
    DigitsUnmarked(h); DigitsUnmarked(mi); DigitsUnmarked(s); DigitsUnmarked(ms);
    UnmarkedConcat(y, "-"); UnmarkedConcat(y + "-", mo); UnmarkedConcat(y + "-" + mo, "-");
    UnmarkedConcat(y + "-" + mo + "-", d);
    assert Clock.DateText(at) == y + "-" + mo + "-" + d;
    UnmarkedConcat(h, ":"); UnmarkedConcat(h + ":", mi); UnmarkedConcat(h + ":" + mi, ":");
    UnmarkedConcat(h + ":" + mi + ":", s);
    assert Clock.TimeText(at) == h + ":" + mi + ":" + s;
    UnmarkedConcat(Clock.DateText(at), " ");
    UnmarkedConcat(Clock.DateText(at) + " ", Clock.TimeText(at));
    UnmarkedConcat(Clock.DateText(at) + " " + Clock.TimeText(at), ",");
    UnmarkedConcat(Clock.DateText(at) + " " + Clock.TimeText(at) + ",", ms);
  }

  lemma HeaderUnmarked(at: Clock.Instant, level: Level)
    ensures var h := Header(at, level); Unmarked(h) && h != [] && h[|h| - 1] == ' '
  {
    AsctimeUnmarked(at);
    var a := Clock.Asctime(at);
    UnmarkedConcat(a, " - ");
    UnmarkedConcat(a + " - ", LevelName(level));
    UnmarkedConcat(a + " - " + LevelName(level), " - ");
  }

  /** A marker whose second letter is lower case cannot start inside a
      header, which has no lower-case letter and ends in a space. */
  lemma {:induction false} HeaderTransparent(at: Clock.Instant, level: Level, message: string, k: string)
    requires |k| >= 2 && IsLower(k[1]) && k[0] != ' '
    ensures Contains(LogLine(at, level, message), k) <==> Contains(message, k)
  {
    var p := Header(at, level);
    HeaderUnmarked(at, level);
    forall i | 0 <= i < |p|
      ensures !(k <= (p + message)[i..])
    {
      if i < |p| - 1 {
        assert (p + message)[i..][1] == p[i + 1];
      } else {
        assert (p + message)[i..][0] == ' ';
      }
    }
    ContainsAfter(p, message, k);
  }

  /** A line holds a marker exactly when its message does. */
  lemma LineKind(at: Clock.Instant, level: Level, message: string)
    ensures var line := LogLine(at, level, message);
      && (Contains(line, OkMarker) <==> Contains(message, OkMarker))
      && (Contains(line, ProblemMarker) <==> Contains(message, ProblemMarker))
      && (Contains(line, AccessErrorMarker) <==> Contains(message, AccessErrorMarker))
      && (Contains(line, AlertMarker) <==> Contains(message, AlertMarker))
      && (Contains(line, SentMarker) <==> Contains(message, SentMarker))
  {
    HeaderTransparent(at, level, message, OkMarker);
    HeaderTransparent(at, level, message, ProblemMarker);
    HeaderTransparent(at, level, message, AccessErrorMarker);
    HeaderTransparent(at, level, message, AlertMarker);
    HeaderTransparent(at, level, message, SentMarker);
  }

  // ---------------------------------------------------------------------
  // What each line does to the statistics

  /** Text in which none of the markers the classification looks for
      occurs, so that a line carrying it counts for nothing. */
  predicate Quiet(s: string) {
    && !Contains(s, OkMarker) && !Contains(s, ProblemMarker)
    && !Contains(s, AccessErrorMarker) && !Contains(s, AlertMarker)
  }

  /** Text that the classification reads as a sent alert and as nothing
      else. */
  predicate ReportsSent(s: string) {
    && !Contains(s, OkMarker) && !Contains(s, ProblemMarker)
    && !Contains(s, AccessErrorMarker) && Contains(s, AlertMarker) && Contains(s, SentMarker)
  }

  /** A line whose message is quiet changes nothing. */
  lemma IgnoredLineStep(st: MonitoringStats, at: Clock.Instant, level: Level, message: string)
    requires Quiet(message)
    ensures Step(st, LogLine(at, level, message)) == Outcome(st, false)
  {
    LineKind(at, level, message);
  }

  /** A line whose message reports a sent alert counts one alert. */
  lemma AlertLineStep(st: MonitoringStats, at: Clock.Instant, level: Level, message: string)
    requires ReportsSent(message)
    ensures Step(st, LogLine(at, level, message)) == Outcome(st.(alertsSent := st.alertsSent + 1), false)
  {
    LineKind(at, level, message);
  }

  /** Text without `K`, `b`, `E` and `A` holds none of the markers. */
  lemma QuietByLetters(m: string)
    requires forall i :: 0 <= i < |m| ==> m[i] != 'K' && m[i] != 'b' && m[i] != 'E' && m[i] != 'A'
    ensures Quiet(m)
  {
    MissingChar(m, OkMarker, 'K');
    MissingChar(m, ProblemMarker, 'b');
    MissingChar(m, AccessErrorMarker, 'E');
    MissingChar(m, AlertMarker, 'A');
  }

  /** The start line mentions none of the markers. */
  lemma StartMessageQuiet()
    ensures Quiet(StartMessage)
  {
    QuietByLetters(StartMessage);
  }

  /** Nor does the end line. */
  lemma DoneMessageQuiet()
    ensures Quiet(DoneMessage)
  {
    QuietByLetters(DoneMessage);
  }

  /** Nor the line `main` writes after a down alert it could not deliver. */
  lemma DownFailedQuiet()
    ensures Quiet(DownFailedMessage)
  {
    QuietByLetters(DownFailedMessage);
  }

  /** Nor the one after a recovery alert it could not deliver. */
  lemma RestoredFailedQuiet()
    ensures Quiet(RestoredFailedMessage)
  {
    QuietByLetters(RestoredFailedMessage);
  }

  /** Text that starts with `Alerta`, holds `enviado` and has no `K`,
      `b` or `E` reports a sent alert. */
  lemma ReportsSentByShape(m: string)
    requires forall i :: 0 <= i < |m| ==> m[i] != 'K' && m[i] != 'b' && m[i] != 'E'
    requires AlertMarker <= m && Contains(m, SentMarker)
    ensures ReportsSent(m)
  {
    MissingChar(m, OkMarker, 'K');
    MissingChar(m, ProblemMarker, 'b');
    MissingChar(m, AccessErrorMarker, 'E');
    ContainsPrefix(m, AlertMarker);
  }

  /** The webhook's success line reports a sent alert. */
  lemma DiscordSentReports()
    ensures ReportsSent(DiscordSentMessage)
  {
    ContainsMiddle("Alerta ", SentMarker, " via Discord com sucesso");
    ReportsSentByShape(DiscordSentMessage);
  }

  /** So do both lines `main` writes after a delivered alert. */
  lemma MainSentReports()
    ensures ReportsSent(DownSentMessage) && ReportsSent(RestoredSentMessage)
  {
    ContainsAt(DownSentMessage, SentMarker, |DownSentMessage| - |SentMarker|);
    ReportsSentByShape(DownSentMessage);
    ContainsAt(RestoredSentMessage, SentMarker, |RestoredSentMessage| - |SentMarker|);
    ReportsSentByShape(RestoredSentMessage);
  }

  /** No marker but "Erro ao acessar" can start inside the prefix of the
      webhook's failure line, whose letters hold no `S` and no `A`. */
  lemma DiscordPrefixSkips(reason: string)
    ensures Contains(DiscordFailurePrefix + reason, OkMarker) <==> Contains(reason, OkMarker)
    ensures Contains(DiscordFailurePrefix + reason, ProblemMarker) <==> Contains(reason, ProblemMarker)
    ensures Contains(DiscordFailurePrefix + reason, AlertMarker) <==> Contains(reason, AlertMarker)
  {
    var p := DiscordFailurePrefix;
    assert forall i :: 0 <= i < |p| ==> p[i] != 'S' && p[i] != 'A';
    FirstCharAbsent(p, reason, OkMarker);
    ContainsAfter(p, reason, OkMarker);
    FirstCharAbsent(p, reason, ProblemMarker);
    ContainsAfter(p, reason, ProblemMarker);
    FirstCharAbsent(p, reason, AlertMarker);
    ContainsAfter(p, reason, AlertMarker);
  }

  /** Nor can "Erro ao acessar": only the first letter of the prefix is an
      `E`, and there "Erro ao acessar" and "Erro ao enviar" part at their
      ninth letter. */
  lemma DiscordPrefixSkipsAccessError(reason: string)
    ensures Contains(DiscordFailurePrefix + reason, AccessErrorMarker) <==> Contains(reason, AccessErrorMarker)
  {
    var tail := DiscordFailureTail;
    var m := tail + reason;
    NoAccessErrorInTail(reason);
    assert DiscordFailurePrefix + reason == "E" + m;
    assert ("E" + m)[0..][8] == m[7] == 'e';
    assert NoStartIn("E", m, AccessErrorMarker);
    ContainsAfter("E", m, AccessErrorMarker);
  }

  const DiscordFailureTail: string := "rro ao enviar alerta via Discord: "

  lemma NoAccessErrorInTail(reason: string)
    ensures Contains(DiscordFailureTail + reason, AccessErrorMarker) <==> Contains(reason, AccessErrorMarker)
    ensures |DiscordFailureTail| > 7 && DiscordFailureTail[7] == 'e'
  {
    var tail := DiscordFailureTail;
    assert forall i :: 0 <= i < |tail| ==> tail[i] != 'E';
    FirstCharAbsent(tail, reason, AccessErrorMarker);
    ContainsAfter(tail, reason, AccessErrorMarker);
  }

  /** The webhook's failure line is quiet when its reason is. */
  lemma DiscordFailureQuiet(reason: string)
    requires Quiet(reason)
    ensures Quiet(DiscordFailurePrefix + reason)
  {
    DiscordPrefixSkips(reason);
    DiscordPrefixSkipsAccessError(reason);
  }

  /** Characters of a rendered number: digits, a dot and a sign. */
  predicate Numeric(s: string) {
    forall i :: 0 <= i < |s| ==> IsDigitOrDot(s[i]) || s[i] == '-'
  }

  lemma IntToStringNumeric(i: int)
    ensures Numeric(IntToString(i))
  {
    var digits := NatToString(if i < 0 then -i else i);
    if i < 0 {
      assert IntToString(i) == "-" + digits;
      assert forall j :: 1 <= j < |IntToString(i)| ==> IntToString(i)[j] == digits[j - 1];
    }
  }

  lemma NumericLacks(s: string, c: char)
    requires Numeric(s) && !IsDigitOrDot(c) && c != '-'
    ensures c !in s
  {
  }

  /** What a run's lines need to be read as intended: a rendered response
      time the `Tempo` pattern can take, a transport error that does not
      itself say "Site OK", a failure reason that mentions no marker, and
      neither of the two breaking the line it is logged on. */
  predicate Readable(run: Run, fmt2: real -> string) {
    && (run.probe.Response? ==> IsDecimalText(fmt2(run.probe.elapsed)))
    && (run.probe.TransportError? ==> !Contains(run.probe.message, OkMarker) && SingleLine(run.probe.message))
    && (run.delivery.NotDelivered? ==> Quiet(run.delivery.reason) && SingleLine(run.delivery.reason))
  }

  /** The `YYYY-MM-DD HH:MM:SS` at the head of a line. */
  function StampOf(at: Clock.Instant): string {
    Clock.DateText(at) + " " + Clock.TimeText(at)
  }

  lemma FindDateTimeOfLine(at: Clock.Instant, level: Level, message: string)
    requires Clock.Valid(at)
    ensures FindDateTime(LogLine(at, level, message)) == Some(StampOf(at))
  {
    var line := LogLine(at, level, message);
    var stamp := Clock.DateText(at) + [' '] + Clock.TimeText(at);
    var rest := LineAfterStamp(at, level, message);
    Clock.DateTimePrefix(at, ' ', rest);
    Clock.DateTimeLayoutHead(line, ' ');
    Clock.DateTextParts(at);
    Clock.TimeTextParts(at);
    assert line[..19] == stamp;
  }

  /** A line starts with the date and time it is stamped with. */
  lemma LineAfterStamp(at: Clock.Instant, level: Level, message: string) returns (rest: string)
    ensures LogLine(at, level, message) == Clock.DateText(at) + [' '] + Clock.TimeText(at) + rest
  {
    rest := "," + Padded(at.micro / 1000, 3) + " - " + LevelName(level) + " - " + message;
  }

  /** The line of a probe that found the site up: one successful check and
      the rendered response time read back as a sample. */
  lemma UpLineStep(st: MonitoringStats, at: Clock.Instant, run: Run, fmt2: real -> string)
    requires IsUp(run) && Readable(run, fmt2)
    ensures var seconds := ParseDecimal(fmt2(run.probe.elapsed));
      && seconds.Some?
      && Step(st, CheckLine(at, run.probe, fmt2)) == Outcome(
           st.(totalChecks := st.totalChecks + 1, successfulChecks := st.successfulChecks + 1,
               responseTimes := st.responseTimes + [seconds.value]), false)
  {
    var c, x := IntToString(run.probe.statusCode), fmt2(run.probe.elapsed);
    var m := "Site OK - Status: " + c + ", Tempo: " + x + "s";
    var line := LogLine(at, Info, m);
    assert CheckLine(at, run.probe, fmt2) == line;
    IntToStringNumeric(run.probe.statusCode);
    OkLineTempo(at, c, x);
    ContainsPrefix(m, OkMarker);
    LineKind(at, Info, m);
  }

  /** The `Tempo` pattern finds, in the line of a probe that found the site
      up, the response time as rendered. */
  lemma OkLineTempo(at: Clock.Instant, c: string, x: string)
    requires Numeric(c)
    requires x != [] && forall i :: 0 <= i < |x| ==> IsDigitOrDot(x[i])
    ensures FindTempo(LogLine(at, Info, "Site OK - Status: " + c + ", Tempo: " + x + "s")) == Some(x)
  {
    HeaderUnmarked(at, Info);
    NumericLacks(c, 'T');
    var h := Header(at, Info);
    var p := h + "Site OK - Status: " + c + ", ";
    assert 'T' !in h;
    assert 'T' !in p;
    assert LogLine(at, Info, "Site OK - Status: " + c + ", Tempo: " + x + "s") == p + TempoLabel + x + "s" + "";
    FindTempoAfter(p, x, "");
  }

  /** The message of a probe that answered with another status holds the
      problem marker and not the success one. */
  lemma ProblemMessageKind(c: string, x: string)
    requires Numeric(c) && forall i :: 0 <= i < |x| ==> IsDigitOrDot(x[i])
    ensures var m := "Site com problema - Status: " + c + ", Tempo: " + x + "s";
      !Contains(m, OkMarker) && Contains(m, ProblemMarker)
  {
    var m := "Site com problema - Status: " + c + ", Tempo: " + x + "s";
    NumericLacks(c, 'K');
    assert 'K' !in x;
    assert 'K' !in "Site com problema - Status: ";
    assert 'K' !in m;
    MissingChar(m, OkMarker, 'K');
    ContainsPrefix(m, ProblemMarker);
  }

  /** The message of a probe that got no answer holds the access-error
      marker, and the success one only if the error text does. */
  lemma AccessErrorMessageKind(message: string)
    ensures var m := "Erro ao acessar o site: " + message;
      && (Contains(m, OkMarker) <==> Contains(message, OkMarker))
      && Contains(m, AccessErrorMarker)
  {
    var lead := "Erro ao acessar o site: ";
    FirstCharAbsent(lead, message, OkMarker);
    ContainsAfter(lead, message, OkMarker);
    ContainsPrefix(lead + message, AccessErrorMarker);
  }

  /** A line whose message reports a failure counts a failed check and a
      downtime event stamped with the line's date and time. */
  lemma FailureLineStep(st: MonitoringStats, at: Clock.Instant, level: Level, m: string)
    requires Clock.Valid(at)
    requires !Contains(m, OkMarker) && (Contains(m, ProblemMarker) || Contains(m, AccessErrorMarker))
    ensures var line := LogLine(at, level, m);
      Step(st, line) == Outcome(
        st.(totalChecks := st.totalChecks + 1, failedChecks := st.failedChecks + 1,
            downtimeEvents := st.downtimeEvents + [DowntimeEvent(StampOf(at), Strip(line))]), false)
  {
    var line := LogLine(at, level, m);
    FailureLineEvent(at, level, m);
    FailedStep(st, line, DowntimeEvent(StampOf(at), Strip(line)));
  }

  lemma FailedStep(st: MonitoringStats, line: string, ev: DowntimeEvent)
    requires Classify(line) == CheckFailed(Some(ev))
    ensures Step(st, line) == Outcome(
      st.(totalChecks := st.totalChecks + 1, failedChecks := st.failedChecks + 1,
          downtimeEvents := st.downtimeEvents + [ev]), false)
  {
  }

  lemma FailureLineEvent(at: Clock.Instant, level: Level, m: string)
    requires Clock.Valid(at)
    requires !Contains(m, OkMarker) && (Contains(m, ProblemMarker) || Contains(m, AccessErrorMarker))
    ensures var line := LogLine(at, level, m);
      Classify(line) == CheckFailed(Some(DowntimeEvent(StampOf(at), Strip(line))))
  {
    LineKind(at, level, m);
    FindDateTimeOfLine(at, level, m);
  }

  /** The line of a probe that found the site down: one failed check and a
      downtime event stamped with the line's date and time. */
  lemma DownLineStep(st: MonitoringStats, at: Clock.Instant, run: Run, fmt2: real -> string)
    requires Clock.Valid(at) && !IsUp(run) && Readable(run, fmt2)
    ensures var line := CheckLine(at, run.probe, fmt2);
      Step(st, line) == Outcome(
        st.(totalChecks := st.totalChecks + 1, failedChecks := st.failedChecks + 1,
            downtimeEvents := st.downtimeEvents + [DowntimeEvent(StampOf(at), Strip(line))]), false)
  {
    match run.probe
    case Response(code, elapsed) =>
      var c, x := IntToString(code), fmt2(elapsed);
      IntToStringNumeric(code);
      ProblemMessageKind(c, x);
      FailureLineStep(st, at, Warning, "Site com problema - Status: " + c + ", Tempo: " + x + "s");
    case TransportError(message) =>
      AccessErrorMessageKind(message);
      FailureLineStep(st, at, Error, "Erro ao acessar o site: " + message);
  }

  // ---------------------------------------------------------------------
  // What the analyzer reads back from the lines of a run

  /** The statistics after the probe line of a run. */
  function AfterCheck(st: MonitoringStats, at: Clock.Instant, run: Run, fmt2: real -> string): MonitoringStats
    requires Readable(run, fmt2)
  {
    if IsUp(run) then
      st.(totalChecks := st.totalChecks + 1, successfulChecks := st.successfulChecks + 1,
          responseTimes := st.responseTimes + [ParseDecimal(fmt2(run.probe.elapsed)).value])
    else
      st.(totalChecks := st.totalChecks + 1, failedChecks := st.failedChecks + 1,
          downtimeEvents := st.downtimeEvents + [DowntimeEvent(StampOf(at), Strip(CheckLine(at, run.probe, fmt2)))])
  }

  /** Two more sent alerts when the run alerted, did not end in the
      formatter, and the webhook took the alert. */
  function AfterAlert(st: MonitoringStats, run: Run, action: Action): MonitoringStats {
    if action != NoAlert && !Aborts(run, action) && run.delivery.Delivered? then
      st.(alertsSent := st.alertsSent + 2)
    else st
  }

  lemma CheckLineStep(st: MonitoringStats, at: Clock.Instant, run: Run, fmt2: real -> string)
    requires Clock.Valid(at) && Readable(run, fmt2)
    ensures Step(st, CheckLine(at, run.probe, fmt2)) == Outcome(AfterCheck(st, at, run, fmt2), false)
  {
    var after := AfterCheck(st, at, run, fmt2);
    if IsUp(run) {
      UpLineStep(st, at, run, fmt2);
      assert after == st.(totalChecks := st.totalChecks + 1, successfulChecks := st.successfulChecks + 1,
          responseTimes := st.responseTimes + [ParseDecimal(fmt2(run.probe.elapsed)).value]);
    } else {
      DownLineStep(st, at, run, fmt2);
    }
  }

  /** A delivered alert is read as two sent alerts, one that was not as
      nothing. */
  lemma AlertLinesScan(st: MonitoringStats, at: Clock.Instant, action: Action, delivery: Delivery)
    requires delivery.NotDelivered? ==> Quiet(delivery.reason)
    ensures Scan(st, AlertLines(at, action, delivery))
            == Outcome(if action != NoAlert && delivery.Delivered? then st.(alertsSent := st.alertsSent + 2) else st, false)
  {
    var lines := AlertLines(at, action, delivery);
    if action != NoAlert {
      ScanAppend(st, [lines[0]], [lines[1]]);
      assert [lines[0]] + [lines[1]] == lines;
      ScanSingle(st, lines[0]);
      match delivery
      case Delivered =>
        DiscordSentReports();
        AlertLineStep(st, at, Info, DiscordSentMessage);
        var once := st.(alertsSent := st.alertsSent + 1);
        ScanSingle(once, lines[1]);
        MainSentReports();
        AlertLineStep(once, at, Info, if action == DownAlert then DownSentMessage else RestoredSentMessage);
      case NotDelivered(reason) =>
        DiscordFailureQuiet(reason);
        IgnoredLineStep(st, at, Error, DiscordFailurePrefix + reason);
        ScanSingle(st, lines[1]);
        DownFailedQuiet();
        RestoredFailedQuiet();
        IgnoredLineStep(st, at, Error, if action == DownAlert then DownFailedMessage else RestoredFailedMessage);
    }
  }

  /** The start and probe lines of a run count its check once. */
  lemma HeadLinesScan(st: MonitoringStats, at: Clock.Instant, run: Run, fmt2: real -> string)
    requires Clock.Valid(at) && Readable(run, fmt2)
    ensures Scan(st, HeadLines(at, run, fmt2)) == Outcome(AfterCheck(st, at, run, fmt2), false)
  {
    var start, check := LogLine(at, Info, StartMessage), CheckLine(at, run.probe, fmt2);
    StartMessageQuiet();
    ScanSingle(st, start);
    IgnoredLineStep(st, at, Info, StartMessage);
    ScanAppend(st, [start], [check]);
    ScanSingle(st, check);
    CheckLineStep(st, at, run, fmt2);
    assert [start] + [check] == [start, check];
  }

  /** The lines after the probe line count a delivered alert twice, unless
      the run ended in the formatter. */
  lemma TailLinesScan(st: MonitoringStats, at: Clock.Instant, run: Run, action: Action)
    requires run.delivery.NotDelivered? ==> Quiet(run.delivery.reason)
    ensures Scan(st, TailLines(at, run, action)) == Outcome(AfterAlert(st, run, action), false)
  {
    if !Aborts(run, action) {
      var alerts, done := AlertLines(at, action, run.delivery), LogLine(at, Info, DoneMessage);
      var alerted := AfterAlert(st, run, action);
      ScanAppend(st, alerts, [done]);
      AlertLinesScan(st, at, action, run.delivery);
      DoneMessageQuiet();
      ScanSingle(alerted, done);
      IgnoredLineStep(alerted, at, Info, DoneMessage);
    }
  }

  /** The lines of one run count its check once. They count its alert twice
      when it was delivered and the run did not end in the formatter, which
      logs nothing after the probe line. Nothing in them stops the
      analysis. */
  lemma RunLinesScan(st: MonitoringStats, at: Clock.Instant, run: Run, action: Action, fmt2: real -> string)
    requires Clock.Valid(at) && Readable(run, fmt2)
    ensures Scan(st, RunLines(at, run, action, fmt2))
            == Outcome(AfterAlert(AfterCheck(st, at, run, fmt2), run, action), false)
  {
    HeadLinesScan(st, at, run, fmt2);
    ScanAppend(st, HeadLines(at, run, fmt2), TailLines(at, run, action));
    TailLinesScan(AfterCheck(st, at, run, fmt2), at, run, action);
  }

  /** A line is one line of the file when its message is. */
  lemma LogLineSingle(at: Clock.Instant, level: Level, message: string)
    requires SingleLine(message)
    ensures SingleLine(LogLine(at, level, message))
  {
    HeaderUnmarked(at, level);
    var h := Header(at, level);
    assert '\n' !in h && '\r' !in h;
  }

  lemma SingleByChars(m: string)
    requires forall i :: 0 <= i < |m| ==> m[i] != '\n' && m[i] != '\r'
    ensures SingleLine(m)
  {
  }

  /** No fixed message of the start and end of a run breaks its line. */
  lemma FrameMessagesSingle()
    ensures SingleLine(StartMessage) && SingleLine(DoneMessage)
  {
    SingleByChars(StartMessage);
    SingleByChars(DoneMessage);
  }

  /** Nor does any fixed message about an alert. */
  lemma AlertMessagesSingle()
    ensures SingleLine(DiscordSentMessage) && SingleLine(DiscordFailurePrefix)
    ensures SingleLine(DownSentMessage) && SingleLine(DownFailedMessage)
    ensures SingleLine(RestoredSentMessage) && SingleLine(RestoredFailedMessage)
  {
    SingleByChars(DiscordSentMessage);
    SingleByChars(DiscordFailurePrefix);
    SingleByChars(DownSentMessage);
    SingleByChars(DownFailedMessage);
    SingleByChars(RestoredSentMessage);
    SingleByChars(RestoredFailedMessage);
  }

  /** The probe line of a readable run is one line of the file. */
  lemma CheckLineSingle(at: Clock.Instant, run: Run, fmt2: real -> string)
    requires Readable(run, fmt2)
    ensures SingleLine(CheckLine(at, run.probe, fmt2))
  {
    match run.probe
    case Response(code, elapsed) =>
      var c, x := IntToString(code), fmt2(elapsed);
      IntToStringNumeric(code);
      assert SingleLine(c) && SingleLine(x);
      var lead := if code == 200 then "Site OK - Status: " else "Site com problema - Status: ";
      SingleByChars(lead);
      SingleByChars(", Tempo: ");
      LogLineSingle(at, if code == 200 then Info else Warning, lead + c + ", Tempo: " + x + "s");
    case TransportError(message) =>
      SingleByChars("Erro ao acessar o site: ");
      LogLineSingle(at, Error, "Erro ao acessar o site: " + message);
  }

  /** So are the alert lines of a run whose failure reason keeps to one line. */
  lemma AlertLinesSingle(at: Clock.Instant, action: Action, delivery: Delivery)
    requires delivery.NotDelivered? ==> SingleLine(delivery.reason)
    ensures forall line | line in AlertLines(at, action, delivery) :: SingleLine(line)
  {
    AlertMessagesSingle();
    match delivery
    case Delivered =>
      LogLineSingle(at, Info, DiscordSentMessage);
      LogLineSingle(at, Info, DownSentMessage);
      LogLineSingle(at, Info, RestoredSentMessage);
    case NotDelivered(reason) =>
      LogLineSingle(at, Error, DiscordFailurePrefix + reason);
      LogLineSingle(at, Error, DownFailedMessage);
      LogLineSingle(at, Error, RestoredFailedMessage);
  }

  /** Each line a readable run logs is one line of the file, so that the
      analyzer, reading the file line by line, meets exactly these lines. */
  lemma RunLinesSingle(at: Clock.Instant, run: Run, action: Action, fmt2: real -> string)
    requires Readable(run, fmt2)
    ensures forall line | line in RunLines(at, run, action, fmt2) :: SingleLine(line)
  {
    FrameMessagesSingle();
    LogLineSingle(at, Info, StartMessage);
    LogLineSingle(at, Info, DoneMessage);
    CheckLineSingle(at, run, fmt2);
    AlertLinesSingle(at, action, run.delivery);
  }

  // ---------------------------------------------------------------------
  // What the analyzer reads back from a whole log

  /** Every run's lines read as intended and every stamp is a valid instant. */
  predicate ReadableLog(runs: seq<Run>, stamps: seq<Clock.Instant>, fmt2: real -> string) {
    && ValidRuns(runs) && |stamps| == |runs|
    && (forall i :: 0 <= i < |runs| ==> Readable(runs[i], fmt2))
    && (forall i :: 0 <= i < |stamps| ==> Clock.Valid(stamps[i]))
  }

  lemma ReadablePrefix(runs: seq<Run>, stamps: seq<Clock.Instant>, fmt2: real -> string)
    requires ReadableLog(runs, stamps, fmt2) && runs != []
    ensures ReadableLog(runs[..|runs| - 1], stamps[..|runs| - 1], fmt2)
  {
    var n := |runs|;
    assert forall i :: 0 <= i < n - 1 ==> runs[..n - 1][i] == runs[i] && stamps[..n - 1][i] == stamps[i];
  }

  /** The number of runs that found the site up. */
  function UpCount(runs: seq<Run>): (n: nat)
    ensures n <= |runs|
  {
    if runs == [] then 0
    else UpCount(runs[..|runs| - 1]) + (if IsUp(runs[|runs| - 1]) then 1 else 0)
  }

  /** Whether run `i` alerted, did not end in the formatter, and the
      webhook took its alert. */
  predicate SentRun(runs: seq<Run>, i: nat)
    requires i < |runs|
  {
    ActionAt(runs, i) != NoAlert && !Aborts(runs[i], ActionAt(runs, i)) && runs[i].delivery.Delivered?
  }

  /** The number of runs that sent an alert the webhook took. */
  function SentRuns(runs: seq<Run>): (n: nat)
    ensures n <= |runs|
  {
    if runs == [] then 0
    else
      var k := |runs| - 1;
      SentRuns(runs[..k]) + (if SentRun(runs, k) then 1 else 0)
  }

  /** The number of runs that ended in the formatter. */
  function AbortedRuns(runs: seq<Run>): (n: nat)
    ensures n <= |runs|
  {
    if runs == [] then 0
    else
      var k := |runs| - 1;
      AbortedRuns(runs[..k]) + (if Aborts(runs[k], ActionAt(runs, k)) then 1 else 0)
  }

  /** The number of runs whose alert the webhook took. */
  function SentCount(os: seq<RunOutcome>): (n: nat)
    ensures n <= |os|
  {
    if os == [] then 0
    else SentCount(os[..|os| - 1]) + (if os[|os| - 1].sent then 1 else 0)
  }

  /** The response time of each run that found the site up, as its line
      renders it and the analyzer reads it back. */
  function Samples(runs: seq<Run>, fmt2: real -> string): (xs: seq<real>)
    requires forall i :: 0 <= i < |runs| ==> Readable(runs[i], fmt2)
    ensures |xs| == UpCount(runs)
  {
    if runs == [] then []
    else
      var last := runs[|runs| - 1];
      assert Readable(last, fmt2);
      Samples(runs[..|runs| - 1], fmt2)
      + (if IsUp(last) then [ParseDecimal(fmt2(last.probe.elapsed)).value] else [])
  }

  /** One downtime event for each run that found the site down, stamped
      with the run's date and time and carrying its stripped probe line. */
  function Downtimes(runs: seq<Run>, stamps: seq<Clock.Instant>, fmt2: real -> string): (ds: seq<DowntimeEvent>)
    requires |stamps| == |runs|
    ensures |ds| == |runs| - UpCount(runs)
  {
    if runs == [] then []
    else
      var n := |runs|;
      Downtimes(runs[..n - 1], stamps[..n - 1], fmt2)
      + (if IsUp(runs[n - 1]) then []
         else [DowntimeEvent(StampOf(stamps[n - 1]), Strip(CheckLine(stamps[n - 1], runs[n - 1].probe, fmt2)))])
  }

  /** The statistics after the lines of every run, run by run. */
  function AfterRuns(runs: seq<Run>, stamps: seq<Clock.Instant>, fmt2: real -> string): MonitoringStats
    requires ReadableLog(runs, stamps, fmt2)
  {
    if runs == [] then Initial
    else
      var n := |runs|;
      ReadablePrefix(runs, stamps, fmt2);
      AfterAlert(AfterCheck(AfterRuns(runs[..n - 1], stamps[..n - 1], fmt2), stamps[n - 1], runs[n - 1], fmt2),
                 runs[n - 1], ActionAt(runs, n - 1))
  }

  /** Reading the log run by run: nothing in it stops the analysis. */
  lemma {:induction false} LogScanRuns(runs: seq<Run>, stamps: seq<Clock.Instant>, fmt2: real -> string)
    requires ReadableLog(runs, stamps, fmt2)
    ensures Scan(Initial, LogOf(runs, stamps, fmt2)) == Outcome(AfterRuns(runs, stamps, fmt2), false)
  {
    if runs != [] {
      var n := |runs|;
      var init, before, last, at := runs[..n - 1], stamps[..n - 1], runs[n - 1], stamps[n - 1];
      ReadablePrefix(runs, stamps, fmt2);
      LogScanRuns(init, before, fmt2);
      var action := ActionAt(runs, n - 1);
      var head, block := LogOf(init, before, fmt2), RunLines(at, last, action, fmt2);
      var mid := AfterRuns(init, before, fmt2);
      RunLinesScan(mid, at, last, action, fmt2);
      ScanThen(head, block, mid, AfterRuns(runs, stamps, fmt2));
    }
  }

  /** Every line of the log of readable runs is one line of the file. */
  lemma {:induction false} LogLinesSingle(runs: seq<Run>, stamps: seq<Clock.Instant>, fmt2: real -> string)
    requires ReadableLog(runs, stamps, fmt2)
    ensures forall line | line in LogOf(runs, stamps, fmt2) :: SingleLine(line)
  {
    if runs != [] {
      var n := |runs|;
      ReadablePrefix(runs, stamps, fmt2);
      var head := LogOf(runs[..n - 1], stamps[..n - 1], fmt2);
      var block := RunLines(stamps[n - 1], runs[n - 1], ActionAt(runs, n - 1), fmt2);
      LogLinesSingle(runs[..n - 1], stamps[..n - 1], fmt2);
      RunLinesSingle(stamps[n - 1], runs[n - 1], ActionAt(runs, n - 1), fmt2);
      assert LogOf(runs, stamps, fmt2) == head + block;
      AllSingle(head, block);
    }
  }

  /** So the file, read line by line, gives back exactly the log's lines,
      each with the `\n` that ended it. */
  lemma LogFileLines(runs: seq<Run>, stamps: seq<Clock.Instant>, fmt2: real -> string)
    requires ReadableLog(runs, stamps, fmt2)
    ensures LogFile(runs, stamps, fmt2) == Terminated(LogOf(runs, stamps, fmt2))
  {
    LogLinesSingle(runs, stamps, fmt2);
    ReadWritten(LogOf(runs, stamps, fmt2));
  }

  /** The analysis reads the file as it would read the bare lines. */
  lemma LogFileScan(runs: seq<Run>, stamps: seq<Clock.Instant>, fmt2: real -> string)
    requires ReadableLog(runs, stamps, fmt2)
    ensures Scan(Initial, LogFile(runs, stamps, fmt2)) == Scan(Initial, LogOf(runs, stamps, fmt2))
  {
    LogFileLines(runs, stamps, fmt2);
    ScanTerminated(Initial, LogOf(runs, stamps, fmt2));
  }

  lemma AllSingle(a: seq<string>, b: seq<string>)
    requires forall line | line in a :: SingleLine(line)
    requires forall line | line in b :: SingleLine(line)
    ensures forall line | line in a + b :: SingleLine(line)
  {
  }

  lemma ScanThen(head: seq<string>, block: seq<string>, mid: MonitoringStats, last: MonitoringStats)
    requires Scan(Initial, head) == Outcome(mid, false)
    requires Scan(mid, block) == Outcome(last, false)
    ensures Scan(Initial, head + block) == Outcome(last, false)
  {
    ScanAppend(Initial, head, block);
  }

  /** Field by field, the statistics after the runs. */
  lemma {:induction false} AfterRunsFields(runs: seq<Run>, stamps: seq<Clock.Instant>, fmt2: real -> string)
    requires ReadableLog(runs, stamps, fmt2)
    ensures AfterRuns(runs, stamps, fmt2)
      == MonitoringStats(|runs|, UpCount(runs), |runs| - UpCount(runs), 2 * SentRuns(runs),
                         0.0, Samples(runs, fmt2), [], 0.0, Downtimes(runs, stamps, fmt2))
  {
    if runs != [] {
      var n := |runs|;
      var init, before := runs[..n - 1], stamps[..n - 1];
      assert ReadableLog(init, before, fmt2);
      AfterRunsFields(init, before, fmt2);
    }
  }

  /** Reading the log of any sequence of runs: one check per run, one
      success and one sample per run that found the site up, one failure
      and one downtime event per run that found it down, two sent alerts per
      alert the webhook took from a run that did not end in the formatter,
      and no line that stops the analysis. */
  lemma LogScan(runs: seq<Run>, stamps: seq<Clock.Instant>, fmt2: real -> string)
    requires ReadableLog(runs, stamps, fmt2)
    ensures Scan(Initial, LogOf(runs, stamps, fmt2)) == Outcome(
      MonitoringStats(|runs|, UpCount(runs), |runs| - UpCount(runs), 2 * SentRuns(runs),
                      0.0, Samples(runs, fmt2), [], 0.0, Downtimes(runs, stamps, fmt2)), false)
  {
    LogScanRuns(runs, stamps, fmt2);
    AfterRunsFields(runs, stamps, fmt2);
  }

  /** The runs the log counts as sent are the runs whose outcome says the
      webhook took the alert. */
  lemma {:induction false} SentRunsAreSent(runs: seq<Run>, fmt2: real -> string)
    requires ValidRuns(runs)
    ensures SentRuns(runs) == SentCount(Outcomes(runs, fmt2))
  {
    var os := Outcomes(runs, fmt2);
    forall i | 0 <= i < |runs|
      ensures os[i].sent <==> SentRun(runs, i)
    {
      SentAt(runs, fmt2, i);
    }
    SentCountMatches(os, runs);
  }

  /** Counting sent outcomes is counting the runs they stand for. */
  lemma {:induction false} SentCountMatches(os: seq<RunOutcome>, runs: seq<Run>)
    requires |os| == |runs|
    requires forall i :: 0 <= i < |os| ==> (os[i].sent <==> SentRun(runs, i))
    ensures SentCount(os) == SentRuns(runs)
  {
    if os != [] {
      var n := |os|;
      var init := runs[..n - 1];
      forall i | 0 <= i < n - 1
        ensures os[..n - 1][i].sent <==> SentRun(init, i)
      {
        assert init[i] == runs[i];
        assert i > 0 ==> init[i - 1] == runs[i - 1];
      }
      SentCountMatches(os[..n - 1], init);
    }
  }

  /** Run `i` counts as sent exactly when it alerted, did not end in the
      formatter, and the webhook took the alert. */
  lemma SentAt(runs: seq<Run>, fmt2: real -> string, i: nat)
    requires ValidRuns(runs) && i < |runs|
    ensures Outcomes(runs, fmt2)[i].sent <==> SentRun(runs, i)
    ensures Outcomes(runs, fmt2)[i].aborted <==> Aborts(runs[i], ActionAt(runs, i))
  {
    RunDecision(runs, fmt2, i);
    RunAborts(runs, fmt2, i);
    OutcomeSent(runs, fmt2, i);
  }

  /** When every alert is delivered, each change of state, counting from
      up, is a run that either sent its alert or ended in the formatter. */
  lemma {:induction false} AllDeliveredSent(runs: seq<Run>)
    requires forall i :: 0 <= i < |runs| ==> runs[i].delivery == Delivered
    ensures SentRuns(runs) + AbortedRuns(runs) == Changes([true] + Ups(runs))
  {
    if runs != [] {
      var n := |runs|;
      var init := runs[..n - 1];
      AllDeliveredSent(init);
      ChangesLast(runs);
    }
  }

  /** What `analyze_monitoring_log` counts in the log of a sequence of
      runs: a check per run, a success and a sample per run that found the
      site up, a failure and a downtime event per run that found it down. */
  lemma LogAnalysis(runs: seq<Run>, stamps: seq<Clock.Instant>, fmt2: real -> string)
    requires ReadableLog(runs, stamps, fmt2)
    ensures var r := MonitoringLog.AnalyzeMonitoringLog(LogFile(runs, stamps, fmt2));
      && r.totalChecks == |runs| && r.successfulChecks == UpCount(runs)
      && r.failedChecks == |runs| - UpCount(runs) && r.alertsSent == 2 * SentRuns(runs)
      && r.responseTimes == Samples(runs, fmt2) && r.downtimeEvents == Downtimes(runs, stamps, fmt2)
  {
    LogScan(runs, stamps, fmt2);
    LogFileScan(runs, stamps, fmt2);
    FinalizeKeeps(Scan(Initial, LogFile(runs, stamps, fmt2)).stats);
  }

  /** The uptime it reports is the share of runs that found the site up, and
      the average that of the response times of those runs. */
  lemma LogRates(runs: seq<Run>, stamps: seq<Clock.Instant>, fmt2: real -> string)
    requires ReadableLog(runs, stamps, fmt2)
    ensures var r := MonitoringLog.AnalyzeMonitoringLog(LogFile(runs, stamps, fmt2));
      && (runs != [] ==> IsPercentage(r.uptimePercentage, UpCount(runs), |runs|))
      && (runs == [] ==> r.uptimePercentage == 0.0)
      && (r.uptimePercentage == 100.0 <==> runs != [] && UpCount(runs) == |runs|)
      && (UpCount(runs) > 0 ==> IsMean(r.averageResponseTime, Samples(runs, fmt2)))
      && (UpCount(runs) == 0 ==> r.averageResponseTime == 0.0)
  {
    LogAnalysis(runs, stamps, fmt2);
    AnalysisRates(LogFile(runs, stamps, fmt2));
  }

  /** The alerts the analyzer counts are those the runs sent, and when every
      alert is delivered they are two per change of state, counting from up,
      except the down alerts lost in the formatter. */
  lemma LogAlerts(runs: seq<Run>, stamps: seq<Clock.Instant>, fmt2: real -> string)
    requires ReadableLog(runs, stamps, fmt2)
    ensures var r := MonitoringLog.AnalyzeMonitoringLog(LogFile(runs, stamps, fmt2));
      && r.alertsSent == 2 * SentCount(Outcomes(runs, fmt2))
      && ((forall i :: 0 <= i < |runs| ==> runs[i].delivery == Delivered) ==>
            r.alertsSent + 2 * AbortedRuns(runs) == 2 * Changes([true] + Ups(runs)))
  {
    LogAnalysis(runs, stamps, fmt2);
    SentRunsAreSent(runs, fmt2);
    if forall i :: 0 <= i < |runs| ==> runs[i].delivery == Delivered {
      AllDeliveredSent(runs);
    }
  }
}
