/**
 * The access-log aggregation of `analyze_nginx_access_log` as a
 * specification: the `stats` dict as a value, one `Step` per input line, and
 * `Scan` over a whole log. The class in AccessAnalyzer is proved to follow it.
 */
module AccessStats {
  import opened Wrappers
  import opened Text
  import opened Counters
  import opened AccessParser
  import NginxTime

  /** One entry of `stats["errors"]`. */
  datatype ErrorRecord = ErrorRecord(timestamp: string, ip: string, status: string, path: string, userAgent: string)

  /** The `stats` dict while lines are read (`unique_ips` still a set). */
  datatype State = State(
    total: nat,
    ips: set<string>,
    statusCodes: Tally,
    userAgents: Tally,
    hourly: Tally,
    daily: Tally,
    pages: Tally,
    errors: seq<ErrorRecord>)

  /** The dict as it is created, before the first line. */
  const Initial := State(0, {}, map[], map[], map[], map[], map[], [])

  /** `int(status) >= 400`; the pattern's `\d+` guarantees that `int` succeeds. */
  predicate IsErrorStatus(status: string) {
    AllDigits(status) && DigitsValue(status) >= 400
  }

  /** The record appended for an error line whose timestamp parsed. */
  function RecordOf(e: Entry, t: NginxTime.Stamp): ErrorRecord {
    ErrorRecord(NginxTime.IsoFormat(t), e.ip, e.status, e.path, e.userAgent)
  }

  /** What a matching line does: the base counters always move; the
      buckets and, for a status of 400 or more, an error record only when
      the timestamp parses. */
  function Absorb(st: State, e: Entry): State {
    var counted := st.(total := st.total + 1,
                       ips := st.ips + {e.ip},
                       statusCodes := Bump(st.statusCodes, e.status),
                       userAgents := Bump(st.userAgents, e.userAgent),
                       pages := Bump(st.pages, e.path));
    match NginxTime.ParseTimestamp(e.datetime)
    case None => counted
    case Some(t) =>
      var bucketed := counted.(hourly := Bump(counted.hourly, NginxTime.HourKey(t)),
                               daily := Bump(counted.daily, NginxTime.DayKey(t)));
      if IsErrorStatus(e.status) then bucketed.(errors := bucketed.errors + [RecordOf(e, t)])
      else bucketed
  }

  /** The effect of one line: nothing for a line the pattern rejects. */
  function Step(st: State, line: string): State {
    match ParseAccessLine(line)
    case None => st
    case Some(e) => Absorb(st, e)
  }

  /** The state after reading `lines` in order from `st`. */
  function Scan(st: State, lines: seq<string>): State {
    if lines == [] then st else Step(Scan(st, lines[..|lines| - 1]), lines[|lines| - 1])
  }

  /** Reading one more line of a log is one more step. */
  lemma ScanExtend(st: State, lines: seq<string>, i: nat)
    requires i < |lines|
    ensures Scan(st, lines[..i + 1]) == Step(Scan(st, lines[..i]), lines[i])
  {
    assert lines[..i + 1][..i] == lines[..i];
  }

  // ---------------------------------------------------------------------
  // Reference definitions over the matching entries

  /** The entries of the lines the pattern accepts, in line order. */
  function Entries(lines: seq<string>): (es: seq<Entry>)
    ensures |es| <= |lines|
  {
    if lines == [] then []
    else
      var last := ParseAccessLine(lines[|lines| - 1]);
      Entries(lines[..|lines| - 1]) + (if last.Some? then [last.value] else [])
  }

  /** Each entry is what the pattern made of one of the lines. */
  lemma {:induction false} EntriesFromLines(lines: seq<string>)
    ensures forall e | e in Entries(lines) :: exists i :: 0 <= i < |lines| && ParseAccessLine(lines[i]) == Some(e)
  {
    if lines != [] {
      var n := |lines|;
      var init, last := lines[..n - 1], ParseAccessLine(lines[n - 1]);
      EntriesFromLines(init);
      assert Entries(lines) == Entries(init) + (if last.Some? then [last.value] else []);
      forall e | e in Entries(lines)
        ensures exists i :: 0 <= i < n && ParseAccessLine(lines[i]) == Some(e)
      {
        if e in Entries(init) {
          var i :| 0 <= i < |init| && ParseAccessLine(init[i]) == Some(e);
          assert lines[i] == init[i];
        } else {
          assert last == Some(e);
        }
      }
    }
  }

  /** The three entry fields the dict keeps a Counter of. */
  datatype CountedField = StatusField | AgentField | PathField

  function FieldValue(e: Entry, f: CountedField): string {
    match f
    case StatusField => e.status
    case AgentField => e.userAgent
    case PathField => e.path
  }

  /** The Counter of the dict that counts field `f`. */
  function TallyOf(st: State, f: CountedField): Tally {
    match f
    case StatusField => st.statusCodes
    case AgentField => st.userAgents
    case PathField => st.pages
  }

  /** How many of `es` have `key` in field `f`. */
  function Occurrences(es: seq<Entry>, f: CountedField, key: string): nat {
    if es == [] then 0
    else Occurrences(es[..|es| - 1], f, key) + (if FieldValue(es[|es| - 1], f) == key then 1 else 0)
  }

  /** The entries whose timestamp parses. */
  function Timed(es: seq<Entry>): seq<Entry> {
    if es == [] then []
    else
      var e := es[|es| - 1];
      Timed(es[..|es| - 1]) + (if NginxTime.ParseTimestamp(e.datetime).Some? then [e] else [])
  }

  /** The error records the entries call for, in order. */
  function ErrorRecords(es: seq<Entry>): seq<ErrorRecord> {
    if es == [] then []
    else
      var e := es[|es| - 1];
      var t := NginxTime.ParseTimestamp(e.datetime);
      ErrorRecords(es[..|es| - 1])
      + (if t.Some? && IsErrorStatus(e.status) then [RecordOf(e, t.value)] else [])
  }

  function IpsOf(es: seq<Entry>): set<string> {
    set e | e in es :: e.ip
  }

  // ---------------------------------------------------------------------
  // Invariants

  /** What holds of the dict after any number of lines: each Counter's counts
      sum to the request count, the two bucket maps have equal sums that do
      not exceed it, there are no more distinct IPs than requests, and every
      error record is for a status of 400 or more from a known IP. */
  ghost predicate Consistent(st: State) {
    && Total(st.statusCodes) == st.total
    && Total(st.userAgents) == st.total
    && Total(st.pages) == st.total
    && |st.ips| <= st.total
    && Total(st.hourly) == Total(st.daily) <= st.total
    && |st.errors| <= Total(st.daily)
    && forall r :: r in st.errors ==> IsErrorStatus(r.status) && r.ip in st.ips
  }

  lemma InitialConsistent()
    ensures Consistent(Initial)
  {
    assert Total(map[]) == 0;
  }

  /** What one matching line does to the dict. */
  lemma AbsorbEffect(st: State, e: Entry)
    ensures var st' := Absorb(st, e);
      && st'.total == st.total + 1
      && st'.ips == st.ips + {e.ip}
      && Total(st'.statusCodes) == Total(st.statusCodes) + 1
      && Count(st'.statusCodes, e.status) == Count(st.statusCodes, e.status) + 1
      && (forall k :: k != e.status ==> Count(st'.statusCodes, k) == Count(st.statusCodes, k))
      && Total(st'.userAgents) == Total(st.userAgents) + 1
      && Count(st'.userAgents, e.userAgent) == Count(st.userAgents, e.userAgent) + 1
      && (forall k :: k != e.userAgent ==> Count(st'.userAgents, k) == Count(st.userAgents, k))
      && Total(st'.pages) == Total(st.pages) + 1
      && Count(st'.pages, e.path) == Count(st.pages, e.path) + 1
      && (forall k :: k != e.path ==> Count(st'.pages, k) == Count(st.pages, k))
      && match NginxTime.ParseTimestamp(e.datetime)
         case None =>
           st'.hourly == st.hourly && st'.daily == st.daily && st'.errors == st.errors
         case Some(t) =>
           && Total(st'.hourly) == Total(st.hourly) + 1
           && Total(st'.daily) == Total(st.daily) + 1
           && Count(st'.hourly, NginxTime.HourKey(t)) == Count(st.hourly, NginxTime.HourKey(t)) + 1
           && Count(st'.daily, NginxTime.DayKey(t)) == Count(st.daily, NginxTime.DayKey(t)) + 1
           && st'.errors == st.errors + (if IsErrorStatus(e.status) then [RecordOf(e, t)] else [])
  {
    TotalBump(st.statusCodes, e.status);
    TotalBump(st.userAgents, e.userAgent);
    TotalBump(st.pages, e.path);
    match NginxTime.ParseTimestamp(e.datetime)
    case None =>
    case Some(t) =>
      TotalBump(st.hourly, NginxTime.HourKey(t));
      TotalBump(st.daily, NginxTime.DayKey(t));
  }

  /** A request from a client already seen leaves the set of IPs as it was. */
  lemma KnownIpChangesNothing(st: State, e: Entry)
    requires e.ip in st.ips
    ensures Absorb(st, e).ips == st.ips
  {
  }

  lemma AbsorbConsistent(st: State, e: Entry)
    requires Consistent(st)
    ensures Consistent(Absorb(st, e))
  {
    AbsorbEffect(st, e);
    var st' := Absorb(st, e);
    assert |st.ips + {e.ip}| <= |st.ips| + 1;
    forall r | r in st'.errors
      ensures IsErrorStatus(r.status) && r.ip in st'.ips
    {
      if r !in st.errors {
        var t := NginxTime.ParseTimestamp(e.datetime).value;
        assert r == RecordOf(e, t);
      }
    }
  }

  lemma StepConsistent(st: State, line: string)
    requires Consistent(st)
    ensures Consistent(Step(st, line))
  {
    var p := ParseAccessLine(line);
    if p.Some? {
      AbsorbConsistent(st, p.value);
    }
  }

  /** The invariant holds after any log. */
  lemma {:induction false} ScanConsistent(lines: seq<string>)
    ensures Consistent(Scan(Initial, lines))
  {
    if lines == [] {
      InitialConsistent();
    } else {
      ScanConsistent(lines[..|lines| - 1]);
      StepConsistent(Scan(Initial, lines[..|lines| - 1]), lines[|lines| - 1]);
    }
  }

  /** Absorbing the matching entries one after another. */
  function AbsorbAll(st: State, es: seq<Entry>): State {
    if es == [] then st else Absorb(AbsorbAll(st, es[..|es| - 1]), es[|es| - 1])
  }

  /** Reading a log is absorbing its matching entries: rejected lines drop out. */
  lemma {:induction false} ScanIsAbsorbAll(st: State, lines: seq<string>)
    ensures Scan(st, lines) == AbsorbAll(st, Entries(lines))
  {
    if lines != [] {
      var init := lines[..|lines| - 1];
      ScanIsAbsorbAll(st, init);
      var es0 := Entries(init);
      match ParseAccessLine(lines[|lines| - 1])
      case None =>
        assert Entries(lines) == es0 + [] == es0;
      case Some(e) =>
        var es := Entries(lines);
        assert es == es0 + [e];
        assert es[..|es| - 1] == es0;
    }
  }

  lemma {:induction false} AbsorbAllRequests(es: seq<Entry>)
    ensures AbsorbAll(Initial, es).total == |es|
    ensures AbsorbAll(Initial, es).ips == IpsOf(es)
  {
    if es != [] {
      var es0 := es[..|es| - 1];
      var e := es[|es| - 1];
      AbsorbAllRequests(es0);
      AbsorbCounts(AbsorbAll(Initial, es0), e);
      IpsOfLast(es);
    }
  }

  lemma AbsorbCounts(st: State, e: Entry)
    ensures Absorb(st, e).total == st.total + 1 && Absorb(st, e).ips == st.ips + {e.ip}
  {
  }

  lemma IpsOfLast(es: seq<Entry>)
    requires es != []
    ensures IpsOf(es) == IpsOf(es[..|es| - 1]) + {es[|es| - 1].ip}
  {
    assert es == es[..|es| - 1] + [es[|es| - 1]];
  }

  lemma {:induction false} AbsorbAllTally(es: seq<Entry>, f: CountedField, k: string)
    ensures Count(TallyOf(AbsorbAll(Initial, es), f), k) == Occurrences(es, f, k)
  {
    if es != [] {
      AbsorbAllTally(es[..|es| - 1], f, k);
      AbsorbEffect(AbsorbAll(Initial, es[..|es| - 1]), es[|es| - 1]);
    }
  }

  lemma {:induction false} AbsorbAllBuckets(es: seq<Entry>)
    ensures var st := AbsorbAll(Initial, es);
      && Total(st.hourly) == |Timed(es)| && Total(st.daily) == |Timed(es)|
      && st.errors == ErrorRecords(es)
  {
    if es == [] {
      assert Total(map[]) == 0;
    } else {
      AbsorbAllBuckets(es[..|es| - 1]);
      AbsorbEffect(AbsorbAll(Initial, es[..|es| - 1]), es[|es| - 1]);
    }
  }

  /** After a whole log the dict is what the matching entries call for: one
      request per entry, the set of their IPs, each Counter counting its
      field over the entries, one hourly and one daily count per entry whose
      timestamp parses, and the error records of those entries in line order. */
  lemma ScanMatchesEntries(lines: seq<string>)
    ensures var st := Scan(Initial, lines); var es := Entries(lines);
      && st.total == |es|
      && st.ips == IpsOf(es)
      && (forall f, k :: Count(TallyOf(st, f), k) == Occurrences(es, f, k))
      && Total(st.hourly) == |Timed(es)| && Total(st.daily) == |Timed(es)|
      && st.errors == ErrorRecords(es)
  {
    ScanIsAbsorbAll(Initial, lines);
    AbsorbAllRequests(Entries(lines));
    forall f, k
      ensures Count(TallyOf(Scan(Initial, lines), f), k) == Occurrences(Entries(lines), f, k)
    {
      AbsorbAllTally(Entries(lines), f, k);
    }
    AbsorbAllBuckets(Entries(lines));
  }
}
