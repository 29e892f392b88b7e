/**
 * The availability check of monitor_site.py without its I/O: the status
 * record a probe produces, the status file and its optimistic default, the
 * decision to alert only on a change of state, the alert text, and a
 * sequence of runs in which each run reads the status the previous run
 * saved.
 *
 * The HTTP request and its timing arrive as a `Probe`; the clock readings
 * as `Clock.Instant` parameters; whether the webhook accepted the message
 * as a `Delivery`; Python's `:.2f` rendering of a float as the parameter
 * `fmt2`.
 */
module SiteMonitor {
  import opened Wrappers
  import opened Text
  import Clock

  const SiteUrl: string := "http://localhost"

  // ---------------------------------------------------------------------
  // The status record

  /** What `requests.get` did: an HTTP response with its status code and
      the elapsed seconds, or a `RequestException` with its text. */
  datatype Probe = Response(statusCode: int, elapsed: real) | TransportError(message: string)

  /** The `status_info` dict; `None` values are `None` options. */
  datatype StatusInfo = StatusInfo(
    timestamp: string,
    url: string,
    statusCode: Option<int>,
    responseTime: Option<real>,
    isUp: bool,
    error: Option<string>)

  /** The shape of every record `check_site_status` builds: up exactly on a
      200, an error exactly when there is no status code, a response time
      exactly when there is one, and a timestamp `fromisoformat` reads. */
  predicate WellFormed(s: StatusInfo) {
    && (s.isUp <==> s.statusCode == Some(200))
    && (s.error.Some? <==> s.statusCode.None?)
    && (s.responseTime.Some? <==> s.statusCode.Some?)
    && Clock.ParseIso(s.timestamp).Some?
  }

  /** `check_site_status`: `startedAt` is the clock before the request,
      `failedAt` the clock read in the exception handler. */
  function CheckSiteStatus(startedAt: Clock.Instant, failedAt: Clock.Instant, probe: Probe): (r: StatusInfo)
    requires Clock.Valid(startedAt) && Clock.Valid(failedAt)
    ensures WellFormed(r) && r.url == SiteUrl
    ensures r.isUp <==> probe.Response? && probe.statusCode == 200
    ensures probe.Response? ==>
      && r.statusCode == Some(probe.statusCode) && r.responseTime == Some(probe.elapsed) && r.error == None
      && Clock.ParseIso(r.timestamp) == Some(startedAt)
    ensures probe.TransportError? ==>
      && r.statusCode == None && r.responseTime == None && r.error == Some(probe.message)
      && Clock.ParseIso(r.timestamp) == Some(failedAt)
  {
    match probe
    case Response(code, elapsed) =>
      Clock.IsoRoundTrip(startedAt);
      StatusInfo(Clock.IsoFormat(startedAt), SiteUrl, Some(code), Some(elapsed), code == 200, None)
    case TransportError(message) =>
      Clock.IsoRoundTrip(failedAt);
      StatusInfo(Clock.IsoFormat(failedAt), SiteUrl, None, None, false, Some(message))
  }

  // ---------------------------------------------------------------------
  // The status file

  /** The JSON values a status record is written as. */
  datatype Json = JNull | JBool(b: bool) | JInt(i: int) | JReal(r: real) | JString(s: string)

  /** Python truthiness of a loaded JSON value. */
  predicate Truthy(j: Json) {
    match j
    case JNull => false
    case JBool(b) => b
    case JInt(i) => i != 0
    case JReal(r) => r != 0.0
    case JString(s) => s != ""
  }

  /** The status file: missing, present but not loadable, or a JSON object. */
  datatype StatusFile = Absent | Unreadable | Stored(doc: map<string, Json>)

  function OptionalInt(o: Option<int>): Json {
    match o
    case None => JNull
    case Some(i) => JInt(i)
  }

  function OptionalReal(o: Option<real>): Json {
    match o
    case None => JNull
    case Some(r) => JReal(r)
  }

  function OptionalString(o: Option<string>): Json {
    match o
    case None => JNull
    case Some(s) => JString(s)
  }

  /** `json.dump(status_info)`: the six keys of the record. */
  function StatusJson(s: StatusInfo): (m: map<string, Json>)
    ensures m.Keys == {"timestamp", "url", "status_code", "response_time", "is_up", "error"}
  {
    map["timestamp" := JString(s.timestamp), "url" := JString(s.url),
        "status_code" := OptionalInt(s.statusCode), "response_time" := OptionalReal(s.responseTime),
        "is_up" := JBool(s.isUp), "error" := OptionalString(s.error)]
  }

  /** `load_previous_status`: the stored object, or a record that says the
      site was up when there is no file or it cannot be read. */
  function LoadPreviousStatus(f: StatusFile): (m: map<string, Json>)
    ensures f.Stored? ==> m == f.doc
    ensures !f.Stored? ==> "is_up" in m && Truthy(m["is_up"])
  {
    match f
    case Stored(doc) => doc
    case _ => map["is_up" := JBool(true)]
  }

  /** `previous_status.get("is_up", True)` as the `if` tests it. */
  function WasUp(previous: map<string, Json>): (b: bool)
    ensures "is_up" !in previous ==> b
  {
    if "is_up" in previous then Truthy(previous["is_up"]) else true
  }

  /** Without history the site counts as up; a saved record is read back
      with the `is_up` it was saved with. */
  lemma PreviousStatusDefaults(s: StatusInfo)
    ensures WasUp(LoadPreviousStatus(Absent)) && WasUp(LoadPreviousStatus(Unreadable))
    ensures WasUp(LoadPreviousStatus(Stored(StatusJson(s)))) == s.isUp
    ensures LoadPreviousStatus(Stored(StatusJson(s)))["timestamp"] == JString(s.timestamp)
  {
  }

  // ---------------------------------------------------------------------
  // The decision

  datatype Action = NoAlert | DownAlert | RecoveryAlert

  /** The `if`/`elif` in `main`: alert only on a change of state. */
  function Decide(wasUp: bool, isUp: bool): (a: Action)
    ensures a == DownAlert <==> wasUp && !isUp
    ensures a == RecoveryAlert <==> !wasUp && isUp
    ensures a == NoAlert <==> wasUp == isUp
  {
    if wasUp && !isUp then DownAlert
    else if !wasUp && isUp then RecoveryAlert
    else NoAlert
  }

  // ---------------------------------------------------------------------
  // The alert text

  const Siren: string := "\U{1F6A8}"
  const Check: string := "\U{2705}"
  const DownHeadline: string := Siren + " **ALERTA: Site Fora do Ar** " + Siren
  const ProblemHeadline: string := Siren + " **ALERTA: Site com Problema** " + Siren
  const RestoredHeadline: string := Check + " **Site Restaurado** " + Check

  /** The three messages, written as a headline followed by its lines. */
  function DownMessage(url: string, when: string, error: string): string {
    DownHeadline + ("\n\n**URL:** " + (url + ("\n**Timestamp:** " + (when + ("\n**Erro:** " + (error
    + "\n\nO site n\U{E3}o est\U{E1} respondendo. Verifique o servidor imediatamente!"))))))
  }

  function ProblemMessage(url: string, when: string, code: string, seconds: string): string {
    ProblemHeadline + StatusLines(url, when, code, seconds,
                                  "s\n\nO site retornou um c\U{F3}digo de erro. Verifique o servidor!")
  }

  function RestoredMessage(url: string, when: string, code: string, seconds: string): string {
    RestoredHeadline + StatusLines(url, when, code, seconds, "s\n\nO site voltou a funcionar normalmente.")
  }

  /** The lines the two status-code messages share. */
  function StatusLines(url: string, when: string, code: string, seconds: string, closing: string): string {
    "\n\n**URL:** " + (url + ("\n**Timestamp:** " + (when + ("\n**Status Code:** " + (code
    + ("\n**Tempo de Resposta:** " + (seconds + closing)))))))
  }

  /** `str()` of the status code field: `None` when there is none. */
  function CodeText(code: Option<int>): string {
    match code
    case None => "None"
    case Some(i) => IntToString(i)
  }

  /** `format_alert_message` as written. `None` stands for the exception it
      raises: when `fromisoformat` refuses the timestamp, or when the message
      chosen formats a response time of `None` with `:.2f`. The down branch
      tests the error for truthiness, so an empty error text falls into the
      status-code message, whose response time is `None`. */
  function FormatAlertAsWritten(s: StatusInfo, isDownAlert: bool, fmt2: real -> string): Option<string>
  {
    match Clock.ParseIso(s.timestamp)
    case None => None
    case Some(t) =>
      var when := Clock.AlertTime(t);
      if isDownAlert then
        if s.error.Some? && s.error.value != "" then Some(DownMessage(s.url, when, s.error.value))
        else if s.responseTime.None? then None
        else Some(ProblemMessage(s.url, when, CodeText(s.statusCode), fmt2(s.responseTime.value)))
      else if s.responseTime.None? then None
      else Some(RestoredMessage(s.url, when, CodeText(s.statusCode), fmt2(s.responseTime.value)))
  }

  /** When the formatter as written raises: on a timestamp `fromisoformat`
      refuses, or on a missing response time in a message that shows one,
      which a down alert without a non-empty error text is. */
  lemma FormatAlertAsWrittenRaises(s: StatusInfo, isDownAlert: bool, fmt2: real -> string)
    ensures FormatAlertAsWritten(s, isDownAlert, fmt2).None?
            <==> || Clock.ParseIso(s.timestamp).None?
                 || (s.responseTime.None? && !(isDownAlert && s.error.Some? && s.error.value != ""))
  {
  }

  /** The alert text with the down branch keyed on whether an error was
      recorded, as the three message variants intend: a transport failure
      always gets the "Fora do Ar" message, a bad status code the "com
      Problema" one, a recovery the "Restaurado" one. Each names the URL and
      the time of the check as `DD/MM/YYYY HH:MM:SS`. */
  function FormatAlert(s: StatusInfo, isDownAlert: bool, fmt2: real -> string): (r: string)
    requires WellFormed(s) && (isDownAlert || s.isUp)
  {
    var when := Clock.AlertTime(Clock.ParseIso(s.timestamp).value);
    if isDownAlert && s.error.Some? then DownMessage(s.url, when, s.error.value)
    else
      var code, seconds := IntToString(s.statusCode.value), fmt2(s.responseTime.value);
      if isDownAlert then ProblemMessage(s.url, when, code, seconds)
      else RestoredMessage(s.url, when, code, seconds)
  }

  /** What each alert names: the headline of its variant, the URL, the time
      of the check, and the error text or the status code and response time. */
  lemma FormatAlertMentions(s: StatusInfo, isDownAlert: bool, fmt2: real -> string)
    requires WellFormed(s) && (isDownAlert || s.isUp)
    ensures var r := FormatAlert(s, isDownAlert, fmt2);
      && Contains(r, s.url)
      && Contains(r, Clock.AlertTime(Clock.ParseIso(s.timestamp).value))
      && (isDownAlert && s.error.Some? ==> DownHeadline <= r && Contains(r, s.error.value))
      && (isDownAlert && s.error.None? ==>
            && ProblemHeadline <= r
            && Contains(r, IntToString(s.statusCode.value)) && Contains(r, fmt2(s.responseTime.value)))
      && (!isDownAlert ==>
            && RestoredHeadline <= r
            && Contains(r, IntToString(s.statusCode.value)) && Contains(r, fmt2(s.responseTime.value)))
  {
    var when := Clock.AlertTime(Clock.ParseIso(s.timestamp).value);
    if isDownAlert && s.error.Some? {
      DownMessageMentions(s.url, when, s.error.value);
    } else {
      var code, seconds := IntToString(s.statusCode.value), fmt2(s.responseTime.value);
      if isDownAlert {
        ProblemMessageMentions(s.url, when, code, seconds);
      } else {
        RestoredMessageMentions(s.url, when, code, seconds);
      }
    }
  }

  lemma DownMessageMentions(url: string, when: string, error: string)
    ensures var r := DownMessage(url, when, error);
      DownHeadline <= r && Contains(r, url) && Contains(r, when) && Contains(r, error)
  {
    var tail := "\n\nO site n\U{E3}o est\U{E1} respondendo. Verifique o servidor imediatamente!";
    var e := error + tail;
    var w := when + ("\n**Erro:** " + e);
    var u := url + ("\n**Timestamp:** " + w);
    var body := "\n\n**URL:** " + u;
    assert DownMessage(url, when, error) == DownHeadline + body;
    ContainsPrefix(e, error);
    ContainsAfterPrefix("\n**Erro:** ", e, error);
    ContainsPrefix(w, when);
    ContainsAfterPrefix(when, "\n**Erro:** " + e, error);
    ContainsAfterPrefix("\n**Timestamp:** ", w, when);
    ContainsAfterPrefix("\n**Timestamp:** ", w, error);
    ContainsPrefix(u, url);
    ContainsAfterPrefix(url, "\n**Timestamp:** " + w, when);
    ContainsAfterPrefix(url, "\n**Timestamp:** " + w, error);
    ContainsAfterPrefix("\n\n**URL:** ", u, url);
    ContainsAfterPrefix("\n\n**URL:** ", u, when);
    ContainsAfterPrefix("\n\n**URL:** ", u, error);
    ContainsAfterPrefix(DownHeadline, body, url);
    ContainsAfterPrefix(DownHeadline, body, when);
    ContainsAfterPrefix(DownHeadline, body, error);
  }

  lemma StatusLinesMention(url: string, when: string, code: string, seconds: string, closing: string)
    ensures var r := StatusLines(url, when, code, seconds, closing);
      Contains(r, url) && Contains(r, when) && Contains(r, code) && Contains(r, seconds)
  {
    var s := seconds + closing;
    var c := code + ("\n**Tempo de Resposta:** " + s);
    var w := when + ("\n**Status Code:** " + c);
    var u := url + ("\n**Timestamp:** " + w);
    ContainsPrefix(s, seconds);
    ContainsAfterPrefix("\n**Tempo de Resposta:** ", s, seconds);
    ContainsPrefix(c, code);
    ContainsAfterPrefix(code, "\n**Tempo de Resposta:** " + s, seconds);
    ContainsAfterPrefix("\n**Status Code:** ", c, code);
    ContainsAfterPrefix("\n**Status Code:** ", c, seconds);
    ContainsPrefix(w, when);
    ContainsAfterPrefix(when, "\n**Status Code:** " + c, code);
    ContainsAfterPrefix(when, "\n**Status Code:** " + c, seconds);
    ContainsAfterPrefix("\n**Timestamp:** ", w, when);
    ContainsAfterPrefix("\n**Timestamp:** ", w, code);
    ContainsAfterPrefix("\n**Timestamp:** ", w, seconds);
    ContainsPrefix(u, url);
    ContainsAfterPrefix(url, "\n**Timestamp:** " + w, when);
    ContainsAfterPrefix(url, "\n**Timestamp:** " + w, code);
    ContainsAfterPrefix(url, "\n**Timestamp:** " + w, seconds);
    ContainsAfterPrefix("\n\n**URL:** ", u, url);
    ContainsAfterPrefix("\n\n**URL:** ", u, when);
    ContainsAfterPrefix("\n\n**URL:** ", u, code);
    ContainsAfterPrefix("\n\n**URL:** ", u, seconds);
  }

  lemma ProblemMessageMentions(url: string, when: string, code: string, seconds: string)
    ensures var r := ProblemMessage(url, when, code, seconds);
      ProblemHeadline <= r && Contains(r, url) && Contains(r, when) && Contains(r, code) && Contains(r, seconds)
  {
    var closing := "s\n\nO site retornou um c\U{F3}digo de erro. Verifique o servidor!";
    var body := StatusLines(url, when, code, seconds, closing);
    StatusLinesMention(url, when, code, seconds, closing);
    ContainsAfterPrefix(ProblemHeadline, body, url);
    ContainsAfterPrefix(ProblemHeadline, body, when);
    ContainsAfterPrefix(ProblemHeadline, body, code);
    ContainsAfterPrefix(ProblemHeadline, body, seconds);
  }

  lemma RestoredMessageMentions(url: string, when: string, code: string, seconds: string)
    ensures var r := RestoredMessage(url, when, code, seconds);
      RestoredHeadline <= r && Contains(r, url) && Contains(r, when) && Contains(r, code) && Contains(r, seconds)
  {
    var closing := "s\n\nO site voltou a funcionar normalmente.";
    var body := StatusLines(url, when, code, seconds, closing);
    StatusLinesMention(url, when, code, seconds, closing);
    ContainsAfterPrefix(RestoredHeadline, body, url);
    ContainsAfterPrefix(RestoredHeadline, body, when);
    ContainsAfterPrefix(RestoredHeadline, body, code);
    ContainsAfterPrefix(RestoredHeadline, body, seconds);
  }

  /** Where the recorded error is absent or not empty, the formatter as
      written and the corrected one give the same text. */
  lemma FormatAlertAgrees(s: StatusInfo, isDownAlert: bool, fmt2: real -> string)
    requires WellFormed(s) && (isDownAlert || s.isUp)
    requires s.error != Some("")
    ensures FormatAlertAsWritten(s, isDownAlert, fmt2) == Some(FormatAlert(s, isDownAlert, fmt2))
  {
  }

  /** A transport failure whose text is empty: the formatter as written
      raises on the down alert, the corrected one names the failure. */
  lemma EmptyErrorRaises(startedAt: Clock.Instant, failedAt: Clock.Instant, fmt2: real -> string)
    requires Clock.Valid(startedAt) && Clock.Valid(failedAt)
    ensures var s := CheckSiteStatus(startedAt, failedAt, TransportError(""));
      && FormatAlertAsWritten(s, true, fmt2) == None
      && DownHeadline <= FormatAlert(s, true, fmt2)
  {
    FormatAlertMentions(CheckSiteStatus(startedAt, failedAt, TransportError("")), true, fmt2);
  }

  // ---------------------------------------------------------------------
  // One run of `main`, and a sequence of runs

  /** Whether `send_alert` returned true; otherwise the text of the failure. */
  datatype Delivery = Delivered | NotDelivered(reason: string)

  /** What a run leaves behind: the status file it wrote, what it decided,
      whether formatting the alert raised (which ends the script), the
      message it formatted and whether the webhook took it. */
  datatype RunOutcome = RunOutcome(saved: StatusFile, action: Action, aborted: bool, message: Option<string>, sent: bool)

  /** `main` once the previous status and the current check are known. The
      status is saved before any alert is formatted or sent; the alert is
      formatted by `format_alert_message` as written, and when that raises
      the script ends there, with nothing sent. */
  function RunOnce(previous: StatusFile, current: StatusInfo, delivery: Delivery, fmt2: real -> string): (r: RunOutcome)
    requires WellFormed(current)
    ensures r.saved == Stored(StatusJson(current))
    ensures r.action == Decide(WasUp(LoadPreviousStatus(previous)), current.isUp)
    ensures r.aborted <==> r.action != NoAlert && FormatAlertAsWritten(current, r.action == DownAlert, fmt2).None?
    ensures r.message.Some? <==> r.action != NoAlert && !r.aborted
    ensures r.sent <==> r.message.Some? && delivery.Delivered?
  {
    var action := Decide(WasUp(LoadPreviousStatus(previous)), current.isUp);
    var saved := Stored(StatusJson(current));
    if action == NoAlert then RunOutcome(saved, action, false, None, false)
    else
      match FormatAlertAsWritten(current, action == DownAlert, fmt2)
      case None => RunOutcome(saved, action, true, None, false)
      case Some(m) => RunOutcome(saved, action, false, Some(m), delivery.Delivered?)
  }

  /** A run ends in `format_alert_message` exactly when it is a down alert
      whose recorded error is the empty text; otherwise the message it sends
      is the alert text for the direction of the change. */
  lemma RunOnceMessage(previous: StatusFile, current: StatusInfo, delivery: Delivery, fmt2: real -> string)
    requires WellFormed(current)
    ensures var r := RunOnce(previous, current, delivery, fmt2);
      && (r.aborted <==> r.action == DownAlert && current.error == Some(""))
      && (r.action == DownAlert && !r.aborted ==> r.message == Some(FormatAlert(current, true, fmt2)))
      && (r.action == RecoveryAlert ==> r.message == Some(FormatAlert(current, false, fmt2)))
  {
    var r := RunOnce(previous, current, delivery, fmt2);
    FormatAlertAsWrittenRaises(current, r.action == DownAlert, fmt2);
    if current.error != Some("") && r.action != NoAlert {
      FormatAlertAgrees(current, r.action == DownAlert, fmt2);
    }
  }

  /** One execution of the script: its two clock readings, what the probe
      saw and whether the alert, if any, went through. */
  datatype Run = Run(startedAt: Clock.Instant, failedAt: Clock.Instant, probe: Probe, delivery: Delivery)

  predicate ValidRun(run: Run) {
    Clock.Valid(run.startedAt) && Clock.Valid(run.failedAt)
  }

  function Current(run: Run): StatusInfo
    requires ValidRun(run)
  {
    CheckSiteStatus(run.startedAt, run.failedAt, run.probe)
  }

  /** The probe of a run found the site up: it answered 200. */
  predicate IsUp(run: Run) {
    run.probe.Response? && run.probe.statusCode == 200
  }

  lemma CurrentIsUp(run: Run)
    requires ValidRun(run)
    ensures Current(run).isUp == IsUp(run)
  {
  }

  predicate ValidRuns(runs: seq<Run>) {
    forall i :: 0 <= i < |runs| ==> ValidRun(runs[i])
  }

  /** The status file after the runs, starting from no file at all. */
  function FileAfter(runs: seq<Run>, fmt2: real -> string): StatusFile
    requires ValidRuns(runs)
  {
    if runs == [] then Absent
    else
      var last := runs[|runs| - 1];
      RunOnce(FileAfter(runs[..|runs| - 1], fmt2), Current(last), last.delivery, fmt2).saved
  }

  /** The outcome of each run, each reading the file the one before wrote. */
  function Outcomes(runs: seq<Run>, fmt2: real -> string): (os: seq<RunOutcome>)
    requires ValidRuns(runs)
    ensures |os| == |runs|
  {
    if runs == [] then []
    else
      var last := runs[|runs| - 1];
      Outcomes(runs[..|runs| - 1], fmt2) + [RunOnce(FileAfter(runs[..|runs| - 1], fmt2), Current(last), last.delivery, fmt2)]
  }

  /** Whether the site was up in each run. */
  function Ups(runs: seq<Run>): (ups: seq<bool>)
    ensures |ups| == |runs|
    ensures forall i :: 0 <= i < |runs| ==> ups[i] == IsUp(runs[i])
  {
    if runs == [] then []
    else
      var init := runs[..|runs| - 1];
      assert forall i :: 0 <= i < |init| ==> init[i] == runs[i];
      Ups(init) + [IsUp(runs[|runs| - 1])]
  }

  /** What run `i` takes as the previous state: the state run `i - 1` saw,
      and up for the first run. */
  function PreviousUp(runs: seq<Run>, i: nat): bool
    requires i < |runs|
  {
    if i == 0 then true else IsUp(runs[i - 1])
  }

  /** The file a run leaves is the record of its own check, whatever
      happened to the alert. */
  lemma FileAfterIsLastStatus(runs: seq<Run>, fmt2: real -> string)
    requires ValidRuns(runs) && runs != []
    ensures FileAfter(runs, fmt2) == Stored(StatusJson(Current(runs[|runs| - 1])))
  {
  }

  /** Run `i` is `main` on the file the runs before it left. */
  lemma {:induction false} OutcomeAt(runs: seq<Run>, fmt2: real -> string, i: nat)
    requires ValidRuns(runs) && i < |runs|
    ensures Outcomes(runs, fmt2)[i] == RunOnce(FileAfter(runs[..i], fmt2), Current(runs[i]), runs[i].delivery, fmt2)
  {
    var init := runs[..|runs| - 1];
    assert ValidRuns(init);
    if i < |runs| - 1 {
      assert init[i] == runs[i] && init[..i] == runs[..i];
      OutcomeAt(init, fmt2, i);
    }
  }

  /** Each run decides from the state of the run before it (up before the
      first run), never from whether an earlier alert was delivered. */
  lemma {:induction false} RunDecision(runs: seq<Run>, fmt2: real -> string, i: nat)
    requires ValidRuns(runs) && i < |runs|
    ensures Outcomes(runs, fmt2)[i].action == Decide(PreviousUp(runs, i), IsUp(runs[i]))
  {
    OutcomeAt(runs, fmt2, i);
    RunOnceDecides(FileAfter(runs[..i], fmt2), runs[i], fmt2);
    PreviousWasUp(runs, fmt2, i);
  }

  /** Run `i` ends in `format_alert_message` exactly when it is the first
      run to find the site down and its failure text is empty. */
  lemma {:induction false} RunAborts(runs: seq<Run>, fmt2: real -> string, i: nat)
    requires ValidRuns(runs) && i < |runs|
    ensures Outcomes(runs, fmt2)[i].aborted <==> PreviousUp(runs, i) && runs[i].probe == TransportError("")
  {
    OutcomeAt(runs, fmt2, i);
    RunDecision(runs, fmt2, i);
    RunOnceMessage(FileAfter(runs[..i], fmt2), Current(runs[i]), runs[i].delivery, fmt2);
  }

  lemma RunOnceDecides(previous: StatusFile, run: Run, fmt2: real -> string)
    requires ValidRun(run)
    ensures RunOnce(previous, Current(run), run.delivery, fmt2).action
            == Decide(WasUp(LoadPreviousStatus(previous)), IsUp(run))
  {
    CurrentIsUp(run);
  }

  /** The state a run reads from the file is that of the run before it, or
      up for the first run. */
  lemma {:induction false} PreviousWasUp(runs: seq<Run>, fmt2: real -> string, i: nat)
    requires ValidRuns(runs) && i < |runs|
    ensures WasUp(LoadPreviousStatus(FileAfter(runs[..i], fmt2))) == PreviousUp(runs, i)
  {
    var before := runs[..i];
    assert ValidRuns(before);
    if i > 0 {
      assert before[i - 1] == runs[i - 1];
      var last := Current(runs[i - 1]);
      FileAfterIsLastStatus(before, fmt2);
      PreviousStatusDefaults(last);
      CurrentIsUp(runs[i - 1]);
    } else {
      assert before == [];
    }
  }

  /** Consecutive runs that find the site down alert at most once: only the
      first of them can, and a failed delivery is not retried. */
  lemma {:induction false} StillDownIsQuiet(runs: seq<Run>, fmt2: real -> string, i: nat)
    requires ValidRuns(runs) && 0 < i < |runs|
    requires !IsUp(runs[i - 1]) && !IsUp(runs[i])
    ensures Outcomes(runs, fmt2)[i].action == NoAlert
    ensures Outcomes(runs, fmt2)[i].message == None
    ensures !Outcomes(runs, fmt2)[i].sent
  {
    RunDecision(runs, fmt2, i);
    OutcomeAt(runs, fmt2, i);
  }

  /** The number of positions where a sequence of states changes. */
  function Changes(states: seq<bool>): nat {
    if |states| < 2 then 0
    else Changes(states[..|states| - 1]) + (if states[|states| - 2] != states[|states| - 1] then 1 else 0)
  }

  /** The number of runs that decided to alert. */
  function AlertCount(os: seq<RunOutcome>): nat {
    if os == [] then 0 else AlertCount(os[..|os| - 1]) + (if os[|os| - 1].action != NoAlert then 1 else 0)
  }

  /** Over any sequence of runs, the alerts are exactly the changes of
      state, counting from up. */
  lemma {:induction false} AlertsAreChanges(runs: seq<Run>, fmt2: real -> string)
    requires ValidRuns(runs)
    ensures AlertCount(Outcomes(runs, fmt2)) == Changes([true] + Ups(runs))
  {
    var os, states := Outcomes(runs, fmt2), [true] + Ups(runs);
    forall i | 0 <= i < |os|
      ensures os[i].action != NoAlert <==> states[i] != states[i + 1]
    {
      RunDecision(runs, fmt2, i);
      StatesAt(runs, i);
    }
    AlertCountMatches(os, states);
  }

  lemma {:induction false} StatesAt(runs: seq<Run>, i: nat)
    requires i < |runs|
    ensures ([true] + Ups(runs))[i] == PreviousUp(runs, i)
    ensures ([true] + Ups(runs))[i + 1] == IsUp(runs[i])
  {
    var ups := Ups(runs);
    if i > 0 {
      assert ([true] + ups)[i] == ups[i - 1];
    }
    assert ([true] + ups)[i + 1] == ups[i];
  }

  /** Counting alerts is counting changes when each outcome alerts exactly
      where the states around it differ. */
  lemma {:induction false} AlertCountMatches(os: seq<RunOutcome>, states: seq<bool>)
    requires |states| == |os| + 1
    requires forall i :: 0 <= i < |os| ==> (os[i].action != NoAlert <==> states[i] != states[i + 1])
    ensures AlertCount(os) == Changes(states)
  {
    if os != [] {
      var n := |os|;
      assert states[..n][n - 1] == states[n - 1];
      AlertCountMatches(os[..n - 1], states[..n]);
    }
  }

  /** The states seen over the runs, counting from up, change once more at
      the last run exactly when it differs from the state before it. */
  lemma ChangesLast(runs: seq<Run>)
    requires runs != []
    ensures var n := |runs|;
      Changes([true] + Ups(runs))
      == Changes([true] + Ups(runs[..n - 1])) + (if PreviousUp(runs, n - 1) != IsUp(runs[n - 1]) then 1 else 0)
  {
    var n := |runs|;
    var states := [true] + Ups(runs);
    assert states[..n] == [true] + Ups(runs[..n - 1]);
    assert states[n - 1] == PreviousUp(runs, n - 1);
  }

  /** The finding about an empty failure text, as the script behaves: the
      run that sees the site go down saves the down state and then raises
      while formatting, so no alert leaves; the next run finds the site
      already down and sends nothing either. */
  lemma EmptyErrorLosesDownAlert(up: Run, down: Run, again: Run, fmt2: real -> string)
    requires ValidRun(up) && ValidRun(down) && ValidRun(again)
    requires up.probe == Response(200, 0.5)
    requires down.probe == TransportError("") && !IsUp(again)
    ensures var previous := Stored(StatusJson(Current(up)));
      && Decide(WasUp(LoadPreviousStatus(previous)), Current(down).isUp) == DownAlert
      && FormatAlertAsWritten(Current(down), true, fmt2) == None
      && Decide(WasUp(LoadPreviousStatus(Stored(StatusJson(Current(down))))), Current(again).isUp) == NoAlert
  {
    PreviousStatusDefaults(Current(up));
    PreviousStatusDefaults(Current(down));
    CurrentIsUp(up);
    CurrentIsUp(down);
    CurrentIsUp(again);
    EmptyErrorRaises(down.startedAt, down.failedAt, fmt2);
  }

  /** The same loss in any sequence of runs: the first run to find the site
      down with an empty failure text decides to alert but sends nothing;
      since it saved the site as down, a following run that still finds it
      down decides nothing (StillDownIsQuiet), so that outage is never
      announced. */
  lemma {:induction false} EmptyErrorRunSendsNothing(runs: seq<Run>, fmt2: real -> string, i: nat)
    requires ValidRuns(runs) && i < |runs|
    requires PreviousUp(runs, i) && runs[i].probe == TransportError("")
    ensures var o := Outcomes(runs, fmt2)[i];
      o.action == DownAlert && o.aborted && !o.sent
    ensures i + 1 < |runs| ==> !PreviousUp(runs, i + 1)
  {
    RunDecision(runs, fmt2, i);
    RunAborts(runs, fmt2, i);
    OutcomeSent(runs, fmt2, i);
    assert !IsUp(runs[i]);
  }

  /** A run's alert counts as sent only when it decided to alert, did not
      end in the formatter, and the webhook took it. */
  lemma OutcomeSent(runs: seq<Run>, fmt2: real -> string, i: nat)
    requires ValidRuns(runs) && i < |runs|
    ensures var o := Outcomes(runs, fmt2)[i];
      o.sent <==> o.action != NoAlert && !o.aborted && runs[i].delivery.Delivered?
  {
    OutcomeAt(runs, fmt2, i);
  }
}
