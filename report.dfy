/**
 * The report `generate_report` assembles from the two analyses, with the
 * moment of generation passed in instead of read from the clock.
 */
module Report {
  import opened Wrappers
  import Clock
  import AccessStats
  import MonitoringLog
  import AccessAnalyzer
  import MonitoringAnalyzer

  /** The `summary` dict. */
  datatype Summary = Summary(
    totalWebRequests: nat,
    uniqueVisitors: nat,
    monitoringUptime: real,
    totalMonitoringChecks: nat,
    alertsSent: nat)

  /** The `report` dict. */
  datatype Report = Report(
    generatedAt: string,
    nginx: AccessAnalyzer.AccessReport,
    monitoring: MonitoringLog.MonitoringStats,
    summary: Summary)

  /** The dict literal: the summary copies figures out of the two analyses,
      and the generation time is written in ISO form that reads back as the
      same moment. */
  function BuildReport(now: Clock.Instant, nginx: AccessAnalyzer.AccessReport,
                       monitoring: MonitoringLog.MonitoringStats): (r: Report)
    requires Clock.Valid(now)
    ensures Clock.ParseIso(r.generatedAt) == Some(now)
    ensures r.nginx == nginx && r.monitoring == monitoring
    ensures r.summary == Summary(nginx.totalRequests, |nginx.uniqueIps|, monitoring.uptimePercentage,
                                 monitoring.totalChecks, monitoring.alertsSent)
  {
    Clock.IsoRoundTrip(now);
    Report(Clock.IsoFormat(now), nginx, monitoring,
           Summary(nginx.totalRequests, |nginx.uniqueIps|, monitoring.uptimePercentage,
                   monitoring.totalChecks, monitoring.alertsSent))
  }

  /** `generate_report`: both analyses, then the report. The report carries
      the access analysis (its IP list in some order) and the monitoring
      analysis unchanged, and a summary copied out of them: each distinct
      client address counted once, never more visitors than requests, and an
      uptime that is a percentage of checks that add up. */
  method GenerateReport(now: Clock.Instant, accessLines: seq<string>, monitoringLines: seq<string>)
    returns (r: Report)
    requires Clock.Valid(now)
    ensures Clock.ParseIso(r.generatedAt) == Some(now)
    ensures r.monitoring == MonitoringLog.AnalyzeMonitoringLog(monitoringLines)
    ensures var st := AccessStats.Scan(AccessStats.Initial, accessLines);
      && r.nginx.totalRequests == st.total
      && r.nginx.statusCodes == st.statusCodes
      && r.nginx.userAgents == st.userAgents
      && r.nginx.hourlyRequests == st.hourly
      && r.nginx.dailyRequests == st.daily
      && r.nginx.topPages == st.pages
      && r.nginx.errors == st.errors
      && (forall x :: x in r.nginx.uniqueIps <==> x in st.ips)
    ensures AccessAnalyzer.NoDuplicates(r.nginx.uniqueIps)
    ensures r.summary == Summary(r.nginx.totalRequests, |r.nginx.uniqueIps|, r.monitoring.uptimePercentage,
                                 r.monitoring.totalChecks, r.monitoring.alertsSent)
    ensures r.summary.totalWebRequests == AccessStats.Scan(AccessStats.Initial, accessLines).total
    ensures r.summary.uniqueVisitors == |AccessStats.Scan(AccessStats.Initial, accessLines).ips|
    ensures r.summary.uniqueVisitors <= r.summary.totalWebRequests
    ensures 0.0 <= r.summary.monitoringUptime <= 100.0
    ensures r.summary.totalMonitoringChecks == r.monitoring.successfulChecks + r.monitoring.failedChecks
    ensures r.summary.alertsSent == r.monitoring.alertsSent
  {
    var nginx := AccessAnalyzer.AnalyzeAccessLog(accessLines);
    var monitoring := MonitoringAnalyzer.AnalyzeMonitoringLog(monitoringLines);
    r := BuildReport(now, nginx, monitoring);
  }
}
