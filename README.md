# Site monitor and log analyzer, in Dafny

This project models the two scripts of a small Linux web-site monitoring setup.

**monitor_site.py** runs periodically. Each run:

- probes `http://localhost`;
- builds a status record (`check_site_status`);
- saves it over the previous one;
- sends a Discord alert only when the site changed state since the last run (`main`, `format_alert_message`).

It logs every step as `asctime - LEVEL - message`.

**log_analyzer.py** reads two logs:

- The nginx access log (`analyze_nginx_access_log`). It produces:
  - request, IP, status, user-agent and page counts;
  - hourly and daily buckets;
  - a list of error records.
- The monitor's own log (`analyze_monitoring_log`). It produces:
  - check counts;
  - response-time samples;
  - downtime events and sent alerts;
  - the mean response time and the uptime percentage.

`generate_report` then combines the two analyses into one report.

## How it is modelled

The two analyzers change a `stats` dict in place, line by line. Each is modelled twice:

- as a specification on values: the `Step`, `Scan`, `Absorb` and `Finalize` functions in `AccessStats` and `MonitoringLog`;
- as a class whose fields are that dict: `AccessAnalyzer.AccessAggregator` and `MonitoringAnalyzer.MonitoringAggregator`. Each method of the class is proved against the specification, and the whole function is a loop with its invariant.

The monitor is pure in its logic, so it is modelled with functions (`SiteMonitor`):

- The HTTP probe becomes a `Probe` value.
- The clock readings become `Clock.Instant` parameters.
- The webhook's answer becomes a `Delivery`.
- Python's `:.2f` rendering of a float becomes a function parameter `fmt2`.

A sequence of runs threads the saved status file from each run to the next.

`MonitorLogLines` connects the two scripts. It writes the monitoring log that a sequence of runs produces, then proves what the analyzer makes of it.

One successful send counts twice in `alerts_sent`. This is because both the webhook's success line and `main`'s follow-up line contain "Alerta" and "enviado". The model keeps this double count, as the source does.

Other modelling choices:

- **The access pattern.** It is hand-matched. Each group of the pattern is the longest run of its character class, except the protocol group, which is the longest run of non-spaces with its closing quote taken off; either way, backtracking never helps. It is proved equivalent to "the line starts with the rendering of well-formed groups".
- **Times.** Response times, the mean and the uptime are `real`s.

## Model

| member | source | states |
|---|---|---|
| AccessParser.MatchIff | log_analyzer.py:35-38 | The pattern matches a stripped line with groups `e` exactly when every group is in its character class (non-empty where the pattern says `+`) and the line starts with those groups laid out as the pattern writes them; trailing text is allowed. |
| AccessParser.MatchSound | log_analyzer.py:35-38 | Whatever matches starts with the rendering of the groups it produced. |
| AccessParser.MatchRendered | log_analyzer.py:35-38 | Any well-formed set of groups, followed by any text, matches and gives back exactly those groups. |
| AccessParser.MatchAccessLine | log_analyzer.py:35-38 | Every group a match yields lies in its character class; status and size are non-empty digit runs, so `int(status)` cannot fail. |
| AccessParser.ParseRendered | log_analyzer.py:43 | A rendered line survives `strip()` and parses back to its groups. |
| AccessParser.Span | log_analyzer.py:36-37 | A greedy group takes the longest prefix in its class: the prefix and the rest rebuild the input, and the rest starts outside the class. |
| Text.TrimLeftSpec | log_analyzer.py:43 | `strip()` on the left drops exactly the leading Python whitespace. |
| Text.TrimRightSpec | log_analyzer.py:43 | `strip()` on the right drops exactly the trailing Python whitespace. |
| Text.StripAppendSpace | log_analyzer.py:128 | `strip()` gives the same text whether or not a trailing whitespace character such as the line's `\n` is there. |
| Text.ContainsAppend | log_analyzer.py:109-131 | `k in s` does not change when a character that `k` does not end with is appended to `s`. |
| NginxTime.ParseTimestamp | log_analyzer.py:55 | A timestamp that `strptime("%d/%b/%Y:%H:%M:%S %z")` accepts is a real calendar date with in-range time fields and an offset inside one day. |
| NginxTime.ParseFormat | log_analyzer.py:55 | Every valid timestamp, written as nginx writes it, is parsed back to itself. |
| NginxTime.MonthNumber | log_analyzer.py:55 | `%b` maps an English month abbreviation, written as nginx writes it (`Jan` … `Dec`), to its number 1-12; exactly those twelve texts get a number. |
| NginxTime.HourKeyExtendsDayKey | log_analyzer.py:56-57 | The hour bucket is the 10-character day bucket followed by ` HH:00`. |
| NginxTime.HourKeyIdentifiesHour | log_analyzer.py:56 | Two timestamps share an hour bucket exactly when they agree on year, month, day and hour. |
| Counters.TotalBump | log_analyzer.py:49-51 | `c[k] += 1` raises key `k` by one, leaves every other key, and raises the sum of the counts by exactly one. |
| AccessStats.AbsorbEffect | log_analyzer.py:47-72 | A matching line adds one request and its IP, one count to its status, agent and page; if its timestamp parses it also adds one hourly and one daily count and, for a status of 400 or more, one error record at the end; otherwise the buckets and errors are untouched. |
| AccessStats.KnownIpChangesNothing | log_analyzer.py:48 | A request from a known IP leaves the IP set as it was. |
| AccessStats.AbsorbConsistent | log_analyzer.py:47-72 | A matching line keeps the invariant: each Counter sums to the request count, hourly and daily sums are equal and at most that count, no more IPs than requests, every error record has status 400 or more and a known IP. |
| AccessStats.StepConsistent | log_analyzer.py:43-72 | Any line, matching or not, keeps the invariant. |
| AccessStats.ScanConsistent | log_analyzer.py:42-72 | The invariant holds after any log. |
| AccessStats.ScanIsAbsorbAll | log_analyzer.py:43-44 | Reading a log is absorbing its matching entries in order: lines the pattern rejects change nothing. |
| AccessStats.EntriesFromLines | log_analyzer.py:43-46 | Every entry the analysis counts is the groups the pattern made of one of the log's lines. |
| AccessStats.ScanMatchesEntries | log_analyzer.py:42-72 | After a log: the request count is the number of matching lines, the IPs are theirs, each Counter counts its field over them, the buckets count the entries whose timestamp parsed, and the error records are those entries' records in line order. |
| AccessStats.AbsorbAllTally | log_analyzer.py:49-51 | Each Counter holds, for every key, the number of entries with that key in its field. |
| AccessStats.AbsorbAllBuckets | log_analyzer.py:54-70 | Hourly and daily sums equal the number of entries whose timestamp parsed; the error list is exactly the records those entries call for. |
| AccessStats.AbsorbAllRequests | log_analyzer.py:47-48 | The request count is the number of entries and the IP set is the set of their IPs. |
| AccessAnalyzer.AccessAggregator.constructor | log_analyzer.py:23-32 | The new object holds the empty statistics. |
| AccessAnalyzer.AccessAggregator.Ingest | log_analyzer.py:42-72 | One loop iteration updates the fields exactly as the specification's step for that line. |
| AccessAnalyzer.AccessAggregator.AbsorbEntry | log_analyzer.py:45-72 | The body for a matching line updates the fields exactly as `Absorb`. |
| AccessAnalyzer.AccessAggregator.CountEntry | log_analyzer.py:47-51 | The base counters move by one and the IP is added; buckets and errors stay. |
| AccessAnalyzer.AccessAggregator.BucketEntry | log_analyzer.py:56-70 | One hourly and one daily count; an error record appended only for a status of 400 or more. |
| AccessAnalyzer.ListOfSet | log_analyzer.py:80 | `list(set)` holds each element of the set exactly once. |
| AccessAnalyzer.AnalyzeAccessLog | log_analyzer.py:23-82 | The result is the specification's statistics after the log; the IP list has no duplicates, holds exactly the IPs seen and is no longer than the request count. |
| MonitoringLog.FindTempo | log_analyzer.py:114 | A `Tempo` token found is a non-empty run of digits and dots standing in the line between `Tempo: ` and `s`. |
| MonitoringLog.FindTempoAfter | log_analyzer.py:114 | After text without a `T`, the token after the first `Tempo: ` label is the one found. |
| MonitoringLog.NoLabelNoTempo | log_analyzer.py:114-115 | A line without the label yields no sample. |
| MonitoringLog.TempoAtMatch | log_analyzer.py:114 | Trying the pattern at the start of a line yields a token exactly when the label, that non-empty run of digits and dots and an `s` stand there. |
| MonitoringLog.FindTempoLeftmost | log_analyzer.py:114 | When the leftmost match of `Tempo: ([\d.]+)s` captures a token, the search returns that token. |
| MonitoringLog.FindTempoNone | log_analyzer.py:114-115 | The search finds nothing only when the pattern matches at no position of the line. |
| MonitoringLog.FindDateTime | log_analyzer.py:124 | A date-time found has the shape `YYYY-MM-DD HH:MM:SS` and occurs in the line. |
| MonitoringLog.FindDateTimeLeftmost | log_analyzer.py:124 | When the leftmost 19-character window of that shape starts at `i`, the search returns that window. |
| MonitoringLog.FindDateTimeNone | log_analyzer.py:124-125 | The search finds nothing only when no window of the line has that shape. |
| MonitoringLog.FindTempoNewline | log_analyzer.py:114 | The `Tempo` search finds the same token in a line with or without its trailing `\n`. |
| MonitoringLog.FindDateTimeNewline | log_analyzer.py:124 | The date-time search finds the same window in a line with or without its trailing `\n`. |
| MonitoringLog.SampleOf | log_analyzer.py:114-117 | A sample that `float` accepts is not negative. |
| MonitoringLog.Classify | log_analyzer.py:109-132 | First match wins: success exactly when the line holds "Site OK"; failure exactly when it does not and holds "Site com problema" or "Erro ao acessar"; sent alert exactly when it holds none of those and both "Alerta" and "enviado"; a downtime event carries the stripped line and a date-time taken from it. |
| MonitoringLog.ClassifyNewline | log_analyzer.py:108-132 | A line read with its `\n` takes the same branch as the bare line and yields the same sample or downtime event, stripped error text included. |
| MonitoringLog.StepEffect | log_analyzer.py:109-132 | Each line moves at most one of the three counters, and `total_checks` only with success or failure; a sample only on success, a downtime event only on failure; `errors` never grows; the line stops the loop exactly when `float` refuses its token. |
| MonitoringLog.StepConsistent | log_analyzer.py:109-132 | A line keeps `total_checks == successful_checks + failed_checks`, at most one sample per success, at most one event per failure, non-negative samples and an empty `errors`. |
| MonitoringLog.ScanConsistent | log_analyzer.py:106-137 | That invariant holds after any log, whether or not the loop ended early. |
| MonitoringLog.ScanStopsAtRaise | log_analyzer.py:116 | Once a line raised, no later line is read. |
| MonitoringLog.ScanTerminated | log_analyzer.py:107-132 | Reading lines that each end in `\n` gives the same statistics, and stops at the same line, as reading the bare lines. |
| MonitoringLog.ScanAppend | log_analyzer.py:108 | Reading two stretches of a log is reading the second from where the first left off, unless the first raised. |
| MonitoringLog.MeanBounds | log_analyzer.py:141 | The mean of samples in [lo, hi] lies in [lo, hi]. |
| MonitoringLog.FinalizeAverage | log_analyzer.py:140-141 | The mean is 0 without samples, otherwise the number whose product with the sample count is their sum; never negative. |
| MonitoringLog.FinalizeUptime | log_analyzer.py:143-144 | The uptime is 0 without checks, otherwise successful / total × 100; it lies in [0, 100] and is 100 exactly when there were checks and none failed. |
| MonitoringLog.FinalizeKeeps | log_analyzer.py:139-144 | Finalisation changes only the mean and the uptime. |
| MonitoringLog.AnalysisBounds | log_analyzer.py:94-146 | For any log: checks add up, uptime is in [0, 100], the mean is not negative, samples and events are bounded by their counters, `errors` is empty. |
| MonitoringLog.AnalysisRates | log_analyzer.py:139-144 | For any log: the uptime is the percentage of successful checks, and the mean is the mean of the samples, each 0 when there is nothing to divide. |
| MonitoringAnalyzer.MonitoringAggregator.constructor | log_analyzer.py:94-104 | The new object holds the initial statistics. |
| MonitoringAnalyzer.MonitoringAggregator.Ingest | log_analyzer.py:108-132 | One loop iteration updates the fields exactly as the specification's step, and reports whether the line raised. |
| MonitoringAnalyzer.MonitoringAggregator.CountSuccess | log_analyzer.py:109-117 | The success branch: one more check and success, the sample appended, `raised` when `float` refuses the token. |
| MonitoringAnalyzer.MonitoringAggregator.CountFailure | log_analyzer.py:119-129 | The failure branch: one more check and failure, and a downtime event when the line holds a date-time. |
| MonitoringAnalyzer.MonitoringAggregator.Finish | log_analyzer.py:139-144 | The fields become the finalised statistics. |
| MonitoringAnalyzer.AnalyzeMonitoringLog | log_analyzer.py:84-146 | The result is the specification's analysis of the log, so checks add up, uptime is in [0, 100] and the mean is not negative. |
| Report.BuildReport | log_analyzer.py:160-171 | The report carries both analyses unchanged, a summary copied out of them, and a generation time that `fromisoformat` reads back as the given moment. |
| Report.GenerateReport | log_analyzer.py:148-173 | The timestamp reads back as the given clock reading. The nginx part holds the counts the scan of the access log gathered, field by field, with each IP it saw listed once. The monitoring part is the analysis of the monitoring log. The summary is exactly the projection of those two parts: total requests, number of distinct IPs, uptime, checks and sent alerts. Unique visitors never exceed the requests; the uptime is in [0, 100]; the monitoring checks add up. |
| Clock.IsoRoundTrip | monitor_site.py:173 | Every valid `datetime` survives `fromisoformat(isoformat())`. |
| Clock.ParseIso | monitor_site.py:173 | What `fromisoformat` accepts is a valid date-time. |
| SiteMonitor.CheckSiteStatus | monitor_site.py:47-82 | Up exactly on a 200; a response gives its code and time and no error, stamped at the start; a transport failure gives no code, no time, the error text, stamped in the handler; the record's time reads back. |
| SiteMonitor.StatusJson | monitor_site.py:107-109 | The saved object has exactly the six keys of the record. |
| SiteMonitor.LoadPreviousStatus | monitor_site.py:91-98 | A stored object is returned as it is; a missing or unreadable file gives a record whose `is_up` is true. |
| SiteMonitor.WasUp | monitor_site.py:219 | A previous record without `is_up` counts as up. |
| SiteMonitor.PreviousStatusDefaults | monitor_site.py:91-98 | Without history the site counts as up; a saved record is read back with the `is_up` and timestamp it was saved with. |
| SiteMonitor.Decide | monitor_site.py:223-237 | Down alert exactly when it was up and is down, recovery exactly when it was down and is up, nothing exactly when the state did not change. |
| SiteMonitor.FormatAlertAsWrittenRaises | monitor_site.py:173-201 | The formatter as written raises exactly when `fromisoformat` refuses the timestamp, or when a message that shows the response time gets `None`, which a down alert without a non-empty error text does. |
| SiteMonitor.FormatAlertMentions | monitor_site.py:173-201 | Each alert names the URL and the check time as `DD/MM/YYYY HH:MM:SS`; a down alert with an error starts "Site Fora do Ar" and names the error; one without starts "Site com Problema" and names code and response time; a recovery starts "Site Restaurado" and names code and response time. |
| SiteMonitor.FormatAlertAgrees | monitor_site.py:175-201 | Except on an empty error text, the formatter as written and the corrected one give the same message. |
| SiteMonitor.EmptyErrorRaises | monitor_site.py:176 | A transport failure with an empty text makes the formatter as written raise, while the corrected one writes the down message. |
| SiteMonitor.RunOnce | monitor_site.py:207-239 | A run saves its own record and decides from the loaded previous state and its own. It ends in the formatter (aborted: no message, nothing sent) exactly when it alerts and the formatter as written raises. Otherwise it has a message exactly when it alerts, and counts as sent exactly when it has one and the webhook took it. |
| SiteMonitor.RunOnceMessage | monitor_site.py:176-237 | A run aborts exactly when it decides a down alert on a transport failure with an empty text. Any other down alert carries the down text and a recovery the restored text. |
| SiteMonitor.FileAfterIsLastStatus | monitor_site.py:216 | After any runs, the status file holds the record of the last run's check, whatever happened to its alert. |
| SiteMonitor.PreviousWasUp | monitor_site.py:210-219 | The state a run reads from the file is the state the run before it saw, or up for the first run. |
| SiteMonitor.RunDecision | monitor_site.py:216-237 | Each run's action is decided from the previous run's state and its own, never from whether an earlier alert was delivered. |
| SiteMonitor.RunAborts | monitor_site.py:176-237 | In any sequence of runs, run `i` ends in the formatter exactly when the run before it (or the default, for the first) saw the site up and run `i` got a transport failure with an empty text. |
| SiteMonitor.OutcomeSent | monitor_site.py:226-236 | A run counts as sent exactly when it alerted, did not end in the formatter, and the webhook took the alert. |
| SiteMonitor.StillDownIsQuiet | monitor_site.py:216-237 | A run that finds the site down after a run that found it down decides nothing, has no message and sends nothing; a failed or lost alert is not retried. |
| SiteMonitor.AlertsAreChanges | monitor_site.py:98-237 | Over any sequence of runs, the number of alerts equals the number of changes of state, counting from up. |
| SiteMonitor.EmptyErrorLosesDownAlert | monitor_site.py:176-190 | Up, then a transport failure with an empty text, then down again: the down run decides to alert but its formatter raises, and the next run that finds the site down decides nothing, so no down alert is ever sent. |
| SiteMonitor.EmptyErrorRunSendsNothing | monitor_site.py:176-190 | In any sequence of runs, a run that follows an up state with an empty-text transport failure decides a down alert, aborts and sends nothing, and leaves the next run reading the site as down. |
| MonitorLogLines.LineKind | monitor_site.py:29-36 | The `asctime - LEVEL - ` header adds no marker the analyzer looks for: a line holds each marker exactly when its message does. |
| MonitorLogLines.UpLineStep | monitor_site.py:64 | The "Site OK" line counts one successful check and its rendered response time as a sample. |
| MonitorLogLines.OkLineTempo | monitor_site.py:64 | The analyzer's `Tempo` pattern finds in that line exactly the rendered response time. |
| MonitorLogLines.DownLineStep | monitor_site.py:66-81 | The line of a probe that found the site down counts one failed check and a downtime event stamped with the line's date and time. `LogLinesSingle` shows that this line is one physical line of the file. |
| MonitorLogLines.AlertLinesScan | monitor_site.py:137-141 | A delivered alert is read as two sent alerts, an undelivered one as nothing. |
| MonitorLogLines.DiscordSentReports | monitor_site.py:137 | The webhook's success line reads as a sent alert. |
| MonitorLogLines.MainSentReports | monitor_site.py:227-235 | `main`'s lines after a delivered alert read as a sent alert too. |
| MonitorLogLines.DiscordFailureQuiet | monitor_site.py:141 | The webhook's failure line counts for nothing when its reason holds no marker. |
| MonitorLogLines.CheckLineSingle | monitor_site.py:28-35 | The probe line of a readable run holds no line break. |
| MonitorLogLines.AlertLinesSingle | monitor_site.py:137-141 | Neither do the alert lines, when the failure reason holds none. |
| MonitorLogLines.RunLinesSingle | monitor_site.py:207-239 | Every line a readable run logs is one line of the file. |
| MonitorLogLines.LogLinesSingle | monitor_site.py:29-36 | No record of the log of readable runs holds a `\n` or a `\r`. |
| MonitorLogLines.ReadWritten | log_analyzer.py:107-108 | Reading back, line by line, the text a file handler writes for records free of line breaks gives each record followed by its `\n`. |
| MonitorLogLines.LogFileLines | log_analyzer.py:107-108 | So `for line in f` over the log file of readable runs yields exactly the log's records, each with its `\n`. |
| MonitorLogLines.LogFileScan | log_analyzer.py:107-132 | The analyzer's loop reads that file as it would read the bare records. |
| MonitorLogLines.TailLinesScan | monitor_site.py:223-239 | After the probe line, a run that ends in the formatter logs nothing. Any other run logs lines that count a delivered alert twice and count nothing else. |
| MonitorLogLines.RunLinesScan | monitor_site.py:207-239 | The lines of one run count its check once. They count its alert twice when it was delivered and the run did not end in the formatter; a run that ends there logs nothing after its probe line. Nothing in them stops the analysis. |
| MonitorLogLines.LogScan | monitor_site.py:207-239 | The records of the log of any runs read as one check per run, one success and sample per up run, one failure and downtime event per down run, two sent alerts per delivered alert of a run that did not end in the formatter, and never stops early. |
| MonitorLogLines.LogAnalysis | log_analyzer.py:94-146 | The analyzer's counts on the log file, read line by line with the terminators, are those of the runs: checks, successes, failures, samples and downtime events, and sent alerts twice the runs that sent one, runs ending in the formatter excluded. |
| MonitorLogLines.LogRates | log_analyzer.py:139-144 | On that file, the uptime is the percentage of runs that found the site up. The mean is that of the samples of those runs, each the response time as rendered with two decimals and read back by `float` (`ParseDecimal(fmt2(elapsed))`), not the raw elapsed time. |
| MonitorLogLines.SentAt | monitor_site.py:176-237 | Run `i`'s outcome is sent exactly when the log counts it as sent, and aborted exactly when the log ends that run after its probe line. |
| MonitorLogLines.SentRunsAreSent | monitor_site.py:226-236 | The runs the log counts as sent are those whose outcome says the webhook took the alert. |
| MonitorLogLines.AllDeliveredSent | monitor_site.py:176-236 | When every alert is delivered, each change of state, counting from up, is a run that either sent its alert or ended in the formatter. |
| MonitorLogLines.LogAlerts | log_analyzer.py:131-132 | On that file, `alerts_sent` is twice the number of runs whose outcome is sent. When every alert is delivered, it plus twice the runs that ended in the formatter is twice the number of changes of state. |

## Left out

- Opening the log and status files and reporting their errors (`FileNotFoundError`, the generic handlers, the warnings of `load_previous_status` and `save_current_status`). The logs arrive as sequences of lines. The status file is `Absent`, `Unreadable` or a stored object. A failed save is not modelled.
- A status file that holds JSON other than an object is not modelled; the stored document is always a key-to-value map.
- `print_summary_report`, `save_report_json`, the progress message `generate_report` prints (log_analyzer.py:155), the two `main` functions' printing, and the `if __name__ == "__main__"` entry points are not modelled. They are console and file output.
- `requests.get`, its timeout and the wall-clock timing become the `Probe` value and the two `Clock.Instant` parameters.
- The clock is read once per run: every line a run logs carries the same `asctime`.
- `send_discord_alert` and `send_alert` are not modelled. Their HTTP POST becomes the `Delivery` value.
  - The "URL not configured" branch (monitor_site.py:123-125) and the "unsupported type" branch (monitor_site.py:159) cannot be reached with the fixed webhook configuration, so they are not modelled.
  - webhook_config.py is not part of this model.
- Python floats are not modelled. Samples, the mean and the uptime are exact `real`s, so rounding in `sum(...) / len(...)` and in the percentage is not modelled.
  - `float(...)` of a `[\d.]+` token is modelled exactly, including the `ValueError` on two dots.
  - `:.2f` formatting is the parameter `fmt2`. It is assumed to produce a `[\d.]+` number `float` accepts wherever the log lemmas need one (`Readable`).
- `\d` and `\S` are modelled on ASCII digits and Python's whitespace set. Python also accepts other Unicode decimal digits for `\d`.
- NginxTime.ParseTimestamp: accepts only the fixed-width form nginx writes. `strptime` also accepts:
  - one-digit fields, and a day padded with a space;
  - month abbreviations in any letter case (`%b` is case-insensitive, so `jan` and `JAN` are January);
  - any run of whitespace where the format has a space;
  - `%z` offsets written `+HH:MM`, with seconds, or as `Z`.
- NginxTime.MonthNumber: for the same reason, it gives no number to a month abbreviation that is not written `Jan` … `Dec`.
- Clock.ParseIso: accepts only the two shapes `isoformat()` writes. `fromisoformat` also accepts other ISO 8601 forms.
- `strftime("%Y")` in the bucket keys and the alert time is rendered with four digits, as `isoformat()` does. On glibc, `strftime` writes a year below 1000 without leading zeros, so keys for such years differ from the model's.
- The lemmas about the monitoring log (`MonitorLogLines`) assume four things about each run (`Readable`):
  - the rendered response time is a number `float` accepts;
  - a transport error text does not itself say "Site OK";
  - a webhook failure reason holds no marker;
  - neither a transport error text nor a failure reason holds a line break (`\n` or `\r`).
  
  Other texts can change how the analyzer classifies the lines. A line break would split a logged line into two lines of the file.
- `MonitorLogLines.LogOf` logs, for run `i`, the action `SiteMonitor.RunDecision` proves run `i` takes. A run that ends in the formatter logs only its start and probe lines, as `SiteMonitor.RunAborts` shows that run does. `LogOf` does not re-run `RunOnce`.
- MonitoringLog.FileLines: splits the file's text at `\n` only. Python's universal newlines also end a line at `\r` and at `\r\n`; the records of readable runs hold neither (`LogLinesSingle`).
- The traceback of a run that ends in the formatter goes to standard error, not to the log, and is not modelled.

## Findings

| source | as written | input that shows it | evidently intended | confidence | as-written member | corrected member |
|---|---|---|---|---|---|---|
| monitor_site.py:176 | The down branch of `format_alert_message` tests `status_info["error"]` for truthiness. An empty error text falls into the "Site com Problema" message, which formats `response_time`, here `None`, with `:.2f` and raises `TypeError`. The status was already saved, so the next run sees the site as already down and the down alert is never sent. | A site that was up, then a `RequestException` whose `str()` is empty | A transport failure always gets the "Site Fora do Ar" message | not executed | SiteMonitor.EmptyErrorRunSendsNothing | SiteMonitor.FormatAlertMentions |
