/**
 * The access-log line parser: the structural pattern of log_analyzer.py
 *
 *   IP - - [DATETIME] "METHOD PATH PROTOCOL" STATUS SIZE "REFERER" "USER_AGENT"
 *
 * applied with `re.match` (anchored at the start only) to the stripped line.
 * Every group of the pattern is the longest run of its character class:
 * backtracking into a shorter run can never help, because the character that
 * follows a shorter run is again in the class and the literal after the group
 * is not. The one group whose class contains the literal after it is the
 * protocol (`\S+` followed by `"`): it is the longest non-space run minus its
 * final quote. The hand-written matcher below follows that reading.
 */
module AccessParser {
  import opened Wrappers
  import opened Text

  /** The named groups of one matching line. */
  datatype Entry = Entry(ip: string, datetime: string, verb: string, path: string, protocol: string,
                         status: string, size: string, referer: string, userAgent: string)

  /** The character classes the pattern uses: `\S`, `\d`, `[^]]` and `[^"]`. */
  datatype CharClass = NonSpaceClass | DigitClass | ExceptClass(excluded: char)

  predicate InClass(cls: CharClass, c: char) {
    match cls
    case NonSpaceClass => !IsSpace(c)
    case DigitClass => IsDigit(c)
    case ExceptClass(x) => c != x
  }

  predicate AllIn(cls: CharClass, s: string) {
    forall i :: 0 <= i < |s| ==> InClass(cls, s[i])
  }

  /** The longest prefix of `s` in class `cls`, and what follows it. */
  function Span(cls: CharClass, s: string): (r: (string, string))
    ensures r.0 + r.1 == s && AllIn(cls, r.0)
    ensures r.1 == [] || !InClass(cls, r.1[0])
  {
    if s == [] || !InClass(cls, s[0]) then ([], s)
    else
      var r := Span(cls, s[1..]);
      var run := [s[0]] + r.0;
      assert run + r.1 == [s[0]] + (r.0 + r.1);
      assert forall i :: 1 <= i < |run| ==> run[i] == r.0[i - 1];
      (run, r.1)
  }

  /** A run of the class followed by a character outside it is split there. */
  lemma {:induction false} SpanOf(cls: CharClass, tok: string, rest: string)
    requires AllIn(cls, tok) && (rest == [] || !InClass(cls, rest[0]))
    ensures Span(cls, tok + rest) == (tok, rest)
  {
    if tok != [] {
      assert (tok + rest)[0] == tok[0];
      assert (tok + rest)[1..] == tok[1..] + rest;
      SpanOf(cls, tok[1..], rest);
      assert [tok[0]] + tok[1..] == tok;
    } else {
      assert tok + rest == rest;
    }
  }

  /** One group of the pattern and the literal that follows it. */
  datatype Cut = Cut(group: string, rest: string)

  /** Matches a group of class `cls`, at least `least` characters long, and
      then the literal `lit`; gives the group and the text after the literal. */
  function Field(cls: CharClass, s: string, least: nat, lit: string): (r: Option<Cut>)
    ensures r.Some? ==> AllIn(cls, r.value.group) && |r.value.group| >= least
  {
    var (tok, t) := Span(cls, s);
    if |tok| < least || !(lit <= t) then None else Some(Cut(tok, t[|lit|..]))
  }

  lemma FieldOf(cls: CharClass, tok: string, lit: string, rest: string, least: nat)
    requires AllIn(cls, tok) && |tok| >= least && lit != [] && !InClass(cls, lit[0])
    ensures Field(cls, tok + (lit + rest), least, lit) == Some(Cut(tok, rest))
  {
    SpanOf(cls, tok, lit + rest);
    assert (lit + rest)[|lit|..] == rest;
  }

  lemma FieldSound(cls: CharClass, s: string, least: nat, lit: string)
    requires Field(cls, s, least, lit).Some?
    ensures var c := Field(cls, s, least, lit).value; s == c.group + (lit + c.rest)
  {
    var (tok, t) := Span(cls, s);
    assert t == lit + t[|lit|..];
  }

  /** The part of the pattern after the request's closing quote and space:
      `STATUS SIZE "REFERER" "USER_AGENT"`; gives the four groups. */
  function MatchResponse(s: string): (r: Option<(string, string, string, string)>)
    ensures r.Some? ==> && r.value.0 != [] && AllIn(DigitClass, r.value.0)
                        && r.value.1 != [] && AllIn(DigitClass, r.value.1)
                        && AllIn(ExceptClass('"'), r.value.2) && AllIn(ExceptClass('"'), r.value.3)
  {
    var status := Field(DigitClass, s, 1, " ");
    if status.None? then None else
    var size := Field(DigitClass, status.value.rest, 1, " \"");
    if size.None? then None else
    var referer := Field(ExceptClass('"'), size.value.rest, 0, "\" \"");
    if referer.None? then None else
    var agent := Field(ExceptClass('"'), referer.value.rest, 0, "\"");
    if agent.None? then None else
    Some((status.value.group, size.value.group, referer.value.group, agent.value.group))
  }

  /** `re.match(pattern, s)`: the groups of the match, or `None`. */
  function MatchAccessLine(s: string): (r: Option<Entry>)
    ensures r.Some? ==> WellFormed(r.value)
  {
    var ip := Field(NonSpaceClass, s, 1, " - - [");
    if ip.None? then None else
    var dt := Field(ExceptClass(']'), ip.value.rest, 1, "] \"");
    if dt.None? then None else
    var verb := Field(NonSpaceClass, dt.value.rest, 1, " ");
    if verb.None? then None else
    var path := Field(NonSpaceClass, verb.value.rest, 1, " ");
    if path.None? then None else
    // the protocol's `\S+` swallows the closing quote, which must end the run
    var run := Field(NonSpaceClass, path.value.rest, 2, " ");
    if run.None? || run.value.group[|run.value.group| - 1] != '"' then None else
    var response := MatchResponse(run.value.rest);
    if response.None? then None else
    var (status, size, referer, agent) := response.value;
    Some(Entry(ip.value.group, dt.value.group, verb.value.group, path.value.group,
               run.value.group[..|run.value.group| - 1], status, size, referer, agent))
  }

  /** The parser applied to a raw line: `log_pattern.match(line.strip())`. */
  function ParseAccessLine(line: string): Option<Entry> {
    MatchAccessLine(Strip(line))
  }

  /** The groups a match can produce: each non-empty where the pattern says
      `+`, and each inside its character class. */
  predicate WellFormed(e: Entry) {
    && e.ip != [] && AllIn(NonSpaceClass, e.ip)
    && e.datetime != [] && AllIn(ExceptClass(']'), e.datetime)
    && e.verb != [] && AllIn(NonSpaceClass, e.verb)
    && e.path != [] && AllIn(NonSpaceClass, e.path)
    && e.protocol != [] && AllIn(NonSpaceClass, e.protocol)
    && e.status != [] && AllIn(DigitClass, e.status)
    && e.size != [] && AllIn(DigitClass, e.size)
    && AllIn(ExceptClass('"'), e.referer)
    && AllIn(ExceptClass('"'), e.userAgent)
  }

  /** The line the pattern describes, written out from its groups. */
  function Render(e: Entry): string {
    e.ip + " - - [" + e.datetime + "] \"" + e.verb + " " + e.path + " " + e.protocol + "\" "
    + e.status + " " + e.size + " \"" + e.referer + "\" \"" + e.userAgent + "\""
  }

  /** The text after the request: `STATUS SIZE "REFERER" "USER_AGENT"`. */
  function RenderResponse(status: string, size: string, referer: string, agent: string): string {
    status + (" " + (size + (" \"" + (referer + ("\" \"" + (agent + "\""))))))
  }

  /** The rendering of `e` followed by `rest`, nested the way the matcher
      consumes it. */
  function RenderThen(e: Entry, rest: string): string {
    e.ip + (" - - [" + (e.datetime + ("] \"" + (e.verb + (" " + (e.path
      + (" " + ((e.protocol + "\"") + (" " + (RenderResponse(e.status, e.size, e.referer, e.userAgent) + rest))))))))))
  }

  lemma RenderThenIs(e: Entry, rest: string)
    ensures RenderThen(e, rest) == Render(e) + rest
  {
    var r := RenderResponse(e.status, e.size, e.referer, e.userAgent);
    assert Render(e) == e.ip + " - - [" + e.datetime + "] \"" + e.verb + " " + e.path + " " + e.protocol + "\" " + r;
  }

  lemma MatchResponseRendered(e: Entry, rest: string)
    requires WellFormed(e)
    ensures MatchResponse(RenderResponse(e.status, e.size, e.referer, e.userAgent) + rest) == Some((e.status, e.size, e.referer, e.userAgent))
  {
    var t4 := "\"" + rest;
    var t3 := "\" \"" + (e.userAgent + t4);
    var t2 := " \"" + (e.referer + t3);
    var t1 := " " + (e.size + t2);
    assert RenderResponse(e.status, e.size, e.referer, e.userAgent) + rest == e.status + t1;
    FieldOf(DigitClass, e.status, " ", e.size + t2, 1);
    FieldOf(DigitClass, e.size, " \"", e.referer + t3, 1);
    FieldOf(ExceptClass('"'), e.referer, "\" \"", e.userAgent + t4, 0);
    FieldOf(ExceptClass('"'), e.userAgent, "\"", rest, 0);
  }

  /** Completeness: a line that starts with a well-formed rendering matches,
      whatever text follows the closing quote, and gives back the same groups. */
  lemma MatchRendered(e: Entry, rest: string)
    requires WellFormed(e)
    ensures MatchAccessLine(Render(e) + rest) == Some(e)
  {
    var tail := RenderResponse(e.status, e.size, e.referer, e.userAgent) + rest;
    var run := e.protocol + "\"";
    var t4 := " " + tail;
    var t3 := " " + (run + t4);
    var t2 := " " + (e.path + t3);
    var t1 := "] \"" + (e.verb + t2);
    RenderThenIs(e, rest);
    assert Render(e) + rest == e.ip + (" - - [" + (e.datetime + t1));
    FieldOf(NonSpaceClass, e.ip, " - - [", e.datetime + t1, 1);
    FieldOf(ExceptClass(']'), e.datetime, "] \"", e.verb + t2, 1);
    FieldOf(NonSpaceClass, e.verb, " ", e.path + t3, 1);
    FieldOf(NonSpaceClass, e.path, " ", run + t4, 1);
    FieldOf(NonSpaceClass, run, " ", tail, 2);
    assert run[..|run| - 1] == e.protocol;
    MatchResponseRendered(e, rest);
  }

  lemma MatchResponseSound(s: string) returns (rest: string)
    requires MatchResponse(s).Some?
    ensures var r := MatchResponse(s).value; s == RenderResponse(r.0, r.1, r.2, r.3) + rest
  {
    var status := Field(DigitClass, s, 1, " ");
    FieldSound(DigitClass, s, 1, " ");
    var size := Field(DigitClass, status.value.rest, 1, " \"");
    FieldSound(DigitClass, status.value.rest, 1, " \"");
    var referer := Field(ExceptClass('"'), size.value.rest, 0, "\" \"");
    FieldSound(ExceptClass('"'), size.value.rest, 0, "\" \"");
    var agent := Field(ExceptClass('"'), referer.value.rest, 0, "\"");
    FieldSound(ExceptClass('"'), referer.value.rest, 0, "\"");
    rest := agent.value.rest;
  }

  /** Soundness: whatever matches starts with the rendering of its groups;
      `rest` is the text after the closing quote that `re.match` ignores. */
  lemma MatchSound(s: string) returns (rest: string)
    requires MatchAccessLine(s).Some?
    ensures s == Render(MatchAccessLine(s).value) + rest
  {
    var e := MatchAccessLine(s).value;
    var ip := Field(NonSpaceClass, s, 1, " - - [");
    FieldSound(NonSpaceClass, s, 1, " - - [");
    var dt := Field(ExceptClass(']'), ip.value.rest, 1, "] \"");
    FieldSound(ExceptClass(']'), ip.value.rest, 1, "] \"");
    var verb := Field(NonSpaceClass, dt.value.rest, 1, " ");
    FieldSound(NonSpaceClass, dt.value.rest, 1, " ");
    var path := Field(NonSpaceClass, verb.value.rest, 1, " ");
    FieldSound(NonSpaceClass, verb.value.rest, 1, " ");
    var run := Field(NonSpaceClass, path.value.rest, 2, " ");
    FieldSound(NonSpaceClass, path.value.rest, 2, " ");
    assert run.value.group == e.protocol + "\"";
    rest := MatchResponseSound(run.value.rest);
    assert s == RenderThen(e, rest);
    RenderThenIs(e, rest);
  }

  /** The pattern matches `s` with groups `e` exactly when `e` is well formed
      and `s` starts with its rendering. */
  lemma MatchIff(s: string, e: Entry)
    ensures MatchAccessLine(s) == Some(e) <==> WellFormed(e) && Render(e) <= s
  {
    if MatchAccessLine(s) == Some(e) {
      var rest := MatchSound(s);
    }
    if WellFormed(e) && Render(e) <= s {
      var rest := s[|Render(e)|..];
      assert s == Render(e) + rest;
      MatchRendered(e, rest);
    }
  }

  /** A rendered line has no surrounding whitespace, so stripping keeps it
      and the parser recovers its groups. */
  lemma ParseRendered(e: Entry)
    requires WellFormed(e)
    ensures ParseAccessLine(Render(e)) == Some(e)
  {
    var s := Render(e);
    assert s[0] == e.ip[0];
    assert s[|s| - 1] == '"';
    assert TrimLeft(s) == s;
    assert TrimRight(s) == s;
    MatchRendered(e, "");
    assert s + "" == s;
  }
}
