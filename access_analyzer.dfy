/**
 * `analyze_nginx_access_log` as the program runs it: a `stats` object whose
 * fields are updated in place for each line of the log, then `unique_ips`
 * turned into a list. Each method is proved against the specification in
 * AccessStats. Opening the file and reporting I/O errors are not modelled:
 * the log arrives as its sequence of lines.
 */
module AccessAnalyzer {
  import opened Counters
  import opened AccessParser
  import NginxTime
  import opened AccessStats

  /** The dict the function returns: `unique_ips` is now a list. */
  datatype AccessReport = AccessReport(
    totalRequests: nat,
    uniqueIps: seq<string>,
    statusCodes: Tally,
    userAgents: Tally,
    hourlyRequests: Tally,
    dailyRequests: Tally,
    topPages: Tally,
    errors: seq<ErrorRecord>)

  /** The `stats` dict while the log is read. */
  class AccessAggregator {
    var total: nat
    var ips: set<string>
    var statusCodes: Tally
    var userAgents: Tally
    var hourly: Tally
    var daily: Tally
    var pages: Tally
    var errors: seq<ErrorRecord>

    /** The fields as one value. */
    function Snapshot(): State
      reads this
    {
      State(total, ips, statusCodes, userAgents, hourly, daily, pages, errors)
    }

    /** The dict literal at the top of the function. */
    constructor ()
      ensures Snapshot() == Initial
    {
      total := 0;
      ips := {};
      statusCodes := map[];
      userAgents := map[];
      hourly := map[];
      daily := map[];
      pages := map[];
      errors := [];
    }

    /** The body of the `for line in f` loop. */
    method Ingest(line: string)
      modifies this
      ensures Snapshot() == Step(old(Snapshot()), line)
    {
      var parsed := ParseAccessLine(line);
      if parsed.Some? {
        AbsorbEntry(parsed.value);
      }
    }

    /** The loop body once the pattern has matched. */
    method AbsorbEntry(e: Entry)
      modifies this
      ensures Snapshot() == Absorb(old(Snapshot()), e)
    {
      CountEntry(e);
      var stamp := NginxTime.ParseTimestamp(e.datetime);
      if stamp.Some? {
        BucketEntry(e, stamp.value);
      }
    }

    /** The counters every matched line bumps. */
    method CountEntry(e: Entry)
      modifies this
      ensures Snapshot() == old(Snapshot()).(total := old(total) + 1,
                                             ips := old(ips) + {e.ip},
                                             statusCodes := Bump(old(statusCodes), e.status),
                                             userAgents := Bump(old(userAgents), e.userAgent),
                                             pages := Bump(old(pages), e.path))
    {
      total := total + 1;
      ips := ips + {e.ip};
      statusCodes := Bump(statusCodes, e.status);
      userAgents := Bump(userAgents, e.userAgent);
      pages := Bump(pages, e.path);
    }

    /** The hour and day buckets, and the error record, of a line whose
        timestamp parsed. */
    method BucketEntry(e: Entry, t: NginxTime.Stamp)
      modifies this
      ensures var bucketed := old(Snapshot()).(hourly := Bump(old(hourly), NginxTime.HourKey(t)),
                                               daily := Bump(old(daily), NginxTime.DayKey(t)));
        Snapshot() == if IsErrorStatus(e.status) then bucketed.(errors := old(errors) + [RecordOf(e, t)])
                      else bucketed
    {
      hourly := Bump(hourly, NginxTime.HourKey(t));
      daily := Bump(daily, NginxTime.DayKey(t));
      if IsErrorStatus(e.status) {
        errors := errors + [RecordOf(e, t)];
      }
    }
  }

  predicate NoDuplicates(r: seq<string>) {
    forall i, j :: 0 <= i < j < |r| ==> r[i] != r[j]
  }

  /** `list(s)`: every element of the set once, in an order the set chooses. */
  method ListOfSet(s: set<string>) returns (r: seq<string>)
    ensures |r| == |s|
    ensures forall x :: x in r <==> x in s
    ensures NoDuplicates(r)
  {
    r := [];
    var rest := s;
    while rest != {}
      invariant rest <= s
      invariant forall x :: x in r <==> x in s - rest
      invariant NoDuplicates(r)
      invariant |r| + |rest| == |s|
      decreases rest
    {
      var x :| x in rest;
      r := r + [x];
      rest := rest - {x};
    }
  }

  /** The whole function: every line of the log read in order, then the
      IP set listed. The result is the specification's state after the log,
      its IP list holds each distinct IP once, and there are no more of them
      than requests. */
  method AnalyzeAccessLog(lines: seq<string>) returns (report: AccessReport)
    ensures var st := Scan(Initial, lines);
      && report.totalRequests == st.total
      && report.statusCodes == st.statusCodes
      && report.userAgents == st.userAgents
      && report.hourlyRequests == st.hourly
      && report.dailyRequests == st.daily
      && report.topPages == st.pages
      && report.errors == st.errors
      && (forall x :: x in report.uniqueIps <==> x in st.ips)
      && |report.uniqueIps| == |st.ips|
    ensures NoDuplicates(report.uniqueIps)
    ensures |report.uniqueIps| <= report.totalRequests
  {
    var stats := new AccessAggregator();
    for i := 0 to |lines|
      invariant stats.Snapshot() == Scan(Initial, lines[..i])
    {
      stats.Ingest(lines[i]);
      ScanExtend(Initial, lines, i);
    }
    assert lines[..|lines|] == lines;
    ScanConsistent(lines);
    var uniqueIps := ListOfSet(stats.ips);
    report := AccessReport(stats.total, uniqueIps, stats.statusCodes, stats.userAgents,
                           stats.hourly, stats.daily, stats.pages, stats.errors);
  }
}
