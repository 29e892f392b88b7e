/**
 * `analyze_monitoring_log` as the program runs it: the `stats` dict is
 * updated in place line by line, the loop is left at the first line whose
 * `Tempo` token `float` refuses, and the two computed fields are then
 * overwritten. Each method is proved against MonitoringLog. Opening the
 * file and printing the caught exception are not modelled.
 */
module MonitoringAnalyzer {
  import opened Wrappers
  import opened Text
  import opened MonitoringLog

  class MonitoringAggregator {
    var totalChecks: nat
    var successfulChecks: nat
    var failedChecks: nat
    var alertsSent: nat
    var averageResponseTime: real
    var responseTimes: seq<real>
    var errors: seq<string>
    var uptimePercentage: real
    var downtimeEvents: seq<DowntimeEvent>

    /** The fields as one value. */
    function Snapshot(): MonitoringStats
      reads this
    {
      MonitoringStats(totalChecks, successfulChecks, failedChecks, alertsSent, averageResponseTime,
                      responseTimes, errors, uptimePercentage, downtimeEvents)
    }

    /** The dict literal at the top of the function. */
    constructor ()
      ensures Snapshot() == Initial
    {
      totalChecks := 0;
      successfulChecks := 0;
      failedChecks := 0;
      alertsSent := 0;
      averageResponseTime := 0.0;
      responseTimes := [];
      errors := [];
      uptimePercentage := 0.0;
      downtimeEvents := [];
    }

    /** The body of the `for line in f` loop; `raised` when `float` refused
        the captured token, after the counters moved. */
    method Ingest(line: string) returns (raised: bool)
      modifies this
      ensures Step(old(Snapshot()), line) == Outcome(Snapshot(), raised)
    {
      raised := false;
      if Contains(line, OkMarker) {
        assert Classify(line) == CheckOk(SampleOf(line));
        raised := CountSuccess(line);
      } else if Contains(line, ProblemMarker) || Contains(line, AccessErrorMarker) {
        assert Classify(line) == CheckFailed(DowntimeOf(line));
        CountFailure(line);
      } else if Contains(line, AlertMarker) && Contains(line, SentMarker) {
        assert Classify(line) == AlertSent;
        alertsSent := alertsSent + 1;
      } else {
        assert Classify(line) == Ignored;
      }
    }

    /** The success branch: one more check, and the `Tempo` sample if the
        line has one; `raised` when `float` refuses it. */
    method CountSuccess(line: string) returns (raised: bool)
      modifies this
      ensures Apply(old(Snapshot()), CheckOk(SampleOf(line))) == Outcome(Snapshot(), raised)
    {
      raised := false;
      totalChecks := totalChecks + 1;
      successfulChecks := successfulChecks + 1;
      var token := FindTempo(line);
      if token.Some? {
        var seconds := ParseDecimal(token.value);
        if seconds.Some? {
          responseTimes := responseTimes + [seconds.value];
        } else {
          raised := true;
        }
      }
    }

    /** The failure branch: one more check, and a downtime event if the line
        holds a date and time. */
    method CountFailure(line: string)
      modifies this
      ensures Apply(old(Snapshot()), CheckFailed(DowntimeOf(line))) == Outcome(Snapshot(), false)
    {
      totalChecks := totalChecks + 1;
      failedChecks := failedChecks + 1;
      var stamp := FindDateTime(line);
      if stamp.Some? {
        downtimeEvents := downtimeEvents + [DowntimeEvent(stamp.value, Strip(line))];
      }
    }

    /** The two assignments after the loop. */
    method Finish()
      modifies this
      ensures Snapshot() == Finalize(old(Snapshot()))
    {
      if responseTimes != [] {
        averageResponseTime := Sum(responseTimes) / |responseTimes| as real;
      }
      if totalChecks > 0 {
        uptimePercentage := (successfulChecks as real / totalChecks as real) * 100.0;
      }
    }
  }

  /** The whole function: the result is the specification's analysis of the
      log, so the checks add up, uptime is a percentage and the mean is not
      negative. */
  method AnalyzeMonitoringLog(lines: seq<string>) returns (stats: MonitoringStats)
    ensures stats == MonitoringLog.AnalyzeMonitoringLog(lines)
    ensures stats.totalChecks == stats.successfulChecks + stats.failedChecks
    ensures 0.0 <= stats.uptimePercentage <= 100.0
    ensures stats.averageResponseTime >= 0.0
  {
    var agg := new MonitoringAggregator();
    var i := 0;
    while i < |lines|
      invariant 0 <= i <= |lines|
      invariant Scan(Initial, lines[..i]) == Outcome(agg.Snapshot(), false)
    {
      var raised := agg.Ingest(lines[i]);
      ScanExtend(Initial, lines, i);
      i := i + 1;
      if raised {
        ScanStopsAtRaise(Initial, lines[..i], lines[i..]);
        assert lines[..i] + lines[i..] == lines;
        break;
      }
    }
    if i == |lines| {
      assert lines[..i] == lines;
    }
    agg.Finish();
    stats := agg.Snapshot();
    AnalysisBounds(lines);
  }
}
