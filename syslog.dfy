/**
 * The syslog parser: the RFC 5424 (section 6) line shape is tried first and
 * the BSD RFC 3164 (section 4.1) shape second. The priority is split into
 * facility and severity as in section 6.2.1 of RFC 5424, the severity code
 * is mapped onto the five-level scale and the message is categorised by an
 * ordered keyword heuristic.
 */
module Syslog {
  import opened Wrappers
  import opened Text
  import opened Gost

  // ---------------------------------------------------------------------
  // Line shapes
  // ---------------------------------------------------------------------

  /** The captured groups of an RFC 5424 line. */
  datatype Rfc5424 = Rfc5424(
    priority: string,
    version: string,
    timestamp: string,
    hostname: string,
    appName: string,
    procId: string,
    msgId: string,
    structuredData: string,
    message: string)

  /** The captured groups of an RFC 3164 line; `pid` is "" when the tag has no `[pid]`. */
  datatype Rfc3164 = Rfc3164(
    priority: string,
    timestamp: string,
    hostname: string,
    appName: string,
    pid: string,
    message: string)

  /** A message as the trailing `\s+(.*)$` leaves it: no leading blank, no newline. */
  predicate IsMessage(m: string)
  {
    StartsOutside(m, Space) && AllIn(m, LineChar)
  }

  /** `<digits>` at the front of the line: the priority digits and what follows. */
  function Pri(line: string): (r: Option<Cut>)
    ensures r.Some? ==> AllDigits(r.value.field)
  {
    var a :- Expect(line, "<");
    var pri :- Run(a, Digit);
    var b :- Expect(pri.rest, ">");
    RunParts(a, Digit);
    Some(Cut(pri.field, b))
  }

  lemma PriOf(p: string, b: string)
    requires AllDigits(p)
    ensures Pri("<" + (p + (">" + b))) == Some(Cut(p, b))
  {
    ExpectOf("<", p + (">" + b));
    RunOf(p, ">" + b, Digit);
    ExpectOf(">", b);
  }

  /**
   * `<digits>digits` followed by six blank-separated tokens (timestamp,
   * host, application, process id, message id, structured data) and the
   * message.
   */
  function Match5424(line: string): (r: Option<Rfc5424>)
    ensures r.Some? ==> AllDigits(r.value.priority)
  {
    var pri :- Pri(line);
    var ver :- Run(pri.rest, Digit);
    var t1 :- TokenPair(ver.rest);
    var t2 :- TokenPair(t1.rest);
    var t3 :- TokenPair(t2.rest);
    var msg :- Tail(t3.rest);
    Some(Rfc5424(pri.field, ver.field, t1.first, t1.second, t2.first, t2.second, t3.first, t3.second, msg))
  }

  predicate WF5424(m: Rfc5424)
  {
    AllDigits(m.priority) && AllDigits(m.version)
    && IsToken(m.timestamp) && IsToken(m.hostname) && IsToken(m.appName)
    && IsToken(m.procId) && IsToken(m.msgId) && IsToken(m.structuredData)
    && IsMessage(m.message)
  }

  /** Whatever `Match5424` captures has the shape of its groups. */
  lemma Match5424Sound(line: string)
    requires Match5424(line).Some?
    ensures WF5424(Match5424(line).value)
  {
    var pri := Pri(line).value;
    RunParts(pri.rest, Digit);
    var ver := Run(pri.rest, Digit).value;
    TokenPairParts(ver.rest);
    var t1 := TokenPair(ver.rest).value;
    TokenPairParts(t1.rest);
    var t2 := TokenPair(t1.rest).value;
    TokenPairParts(t2.rest);
    var t3 := TokenPair(t2.rest).value;
    TailParts(t3.rest);
  }

  /** The line with single blanks between the groups. */
  function Render5424(m: Rfc5424): string
  {
    "<" + (m.priority + (">" + (m.version + Fields5424(m))))
  }

  /** What follows the version: each token and the message after one blank. */
  function Fields5424(m: Rfc5424): string
  {
    " " + m.timestamp + (" " + m.hostname + (" " + m.appName + (" " + m.procId +
      (" " + m.msgId + (" " + m.structuredData + (" " + m.message))))))
  }

  /** The scanning steps of `Match5424`, stated one at a time. */
  lemma Match5424Steps(line: string, m: Rfc5424, s0: string, x0: string, x1: string, x2: string, x3: string)
    requires Pri(line) == Some(Cut(m.priority, s0))
    requires Run(s0, Digit) == Some(Cut(m.version, x0))
    requires TokenPair(x0) == Some(Pair(m.timestamp, m.hostname, x1))
    requires TokenPair(x1) == Some(Pair(m.appName, m.procId, x2))
    requires TokenPair(x2) == Some(Pair(m.msgId, m.structuredData, x3))
    requires Tail(x3) == Some(m.message)
    ensures Match5424(line) == Some(m)
  {
  }

  lemma Head5424Of(m: Rfc5424)
    requires AllDigits(m.priority) && AllDigits(m.version)
    ensures Pri(Render5424(m)) == Some(Cut(m.priority, m.version + Fields5424(m)))
    ensures Run(m.version + Fields5424(m), Digit) == Some(Cut(m.version, Fields5424(m)))
  {
    PriOf(m.priority, m.version + Fields5424(m));
    RunOf(m.version, Fields5424(m), Digit);
  }

  lemma Fields5424Of(m: Rfc5424) returns (x1: string, x2: string, x3: string)
    requires WF5424(m)
    ensures TokenPair(Fields5424(m)) == Some(Pair(m.timestamp, m.hostname, x1))
    ensures TokenPair(x1) == Some(Pair(m.appName, m.procId, x2))
    ensures TokenPair(x2) == Some(Pair(m.msgId, m.structuredData, x3))
    ensures Tail(x3) == Some(m.message)
  {
    x3 := " " + m.message;
    x2 := " " + m.msgId + (" " + m.structuredData + x3);
    x1 := " " + m.appName + (" " + m.procId + x2);
    TokenPairOf(m.timestamp, m.hostname, x1);
    TokenPairOf(m.appName, m.procId, x2);
    TokenPairOf(m.msgId, m.structuredData, x3);
    TailOf(" ", m.message);
  }

  /** Every well-formed group tuple is read back from its rendering. */
  lemma Match5424Render(m: Rfc5424)
    requires WF5424(m)
    ensures Match5424(Render5424(m)) == Some(m)
  {
    Head5424Of(m);
    var x1, x2, x3 := Fields5424Of(m);
    Match5424Steps(Render5424(m), m, m.version + Fields5424(m), Fields5424(m), x1, x2, x3);
  }

  /** `\w+\s+\d+\s+\d+:\d+:\d+`: the BSD timestamp, matched maximally. */
  function Stamp(s: string): Option<Cut>
  {
    var mon :- Run(s, Word);
    var g1 :- Run(mon.rest, Space);
    var day :- Run(g1.rest, Digit);
    var g2 :- Run(day.rest, Space);
    var hh :- Run(g2.rest, Digit);
    var c1 :- Expect(hh.rest, ":");
    var mm :- Run(c1, Digit);
    var c2 :- Expect(mm.rest, ":");
    var ss :- Run(c2, Digit);
    Some(Cut(mon.field + g1.field + day.field + g2.field + hh.field + ":" + mm.field + ":" + ss.field, ss.rest))
  }

  /** A complete BSD timestamp. */
  predicate IsStamp(t: string)
  {
    Stamp(t) == Some(Cut(t, []))
  }

  /** A complete timestamp is read back whole when a non-digit follows it. */
  lemma StampOf(t: string, b: string)
    requires IsStamp(t) && StartsOutside(b, Digit)
    ensures Stamp(t + b) == Some(Cut(t, b))
  {
    var mon := Run(t, Word).value;
    var g1 := Run(mon.rest, Space).value;
    var day := Run(g1.rest, Digit).value;
    var g2 := Run(day.rest, Space).value;
    var hh := Run(g2.rest, Digit).value;
    var c1 := Expect(hh.rest, ":").value;
    var mm := Run(c1, Digit).value;
    var c2 := Expect(mm.rest, ":").value;
    var ss := Run(c2, Digit).value;
    RunExtend(t, b, Word);
    RunExtend(mon.rest, b, Space);
    RunExtend(g1.rest, b, Digit);
    RunExtend(day.rest, b, Space);
    RunExtend(g2.rest, b, Digit);
    ExpectExtend(hh.rest, ":", b);
    RunExtend(c1, b, Digit);
    ExpectExtend(mm.rest, ":", b);
    RunExtend(c2, b, Digit);
    assert ss.rest + b == b;
  }

  /**
   * `(\S+?)(\[(\d+)\])?` over the tag without its colon: a trailing
   * `[digits]` after at least one character is the process id; otherwise the
   * whole tag is the application and there is no process id.
   */
  function SplitPid(x: string): (r: (string, string))
    ensures r.1 == [] ==> r.0 == x
    ensures r.1 != [] ==> x == r.0 + "[" + r.1 + "]" && r.0 != [] && AllDigits(r.1)
  {
    if '[' in x then
      var k := LastIndexOf(x, '[');
      if 1 <= k && k + 2 < |x| && x[|x| - 1] == ']' && AllIn(x[k + 1..|x| - 1], Digit) then
        assert x == x[..k] + "[" + x[k + 1..|x| - 1] + "]";
        (x[..k], x[k + 1..|x| - 1])
      else (x, "")
    else (x, "")
  }

  lemma SplitPidOf(app: string, pid: string)
    requires app != [] && AllDigits(pid)
    ensures SplitPid(app + "[" + pid + "]") == (app, pid)
  {
    var x := app + "[" + pid + "]";
    assert x[|app|] == '[';
    assert forall j :: |app| < j < |x| ==> x[j] != '[' by {
      assert forall j :: |app| < j < |x| - 1 ==> x[j] == pid[j - |app| - 1];
    }
    var k := LastIndexOf(x, '[');
    assert k == |app|;
    assert x[..k] == app;
    assert x[k + 1..|x| - 1] == pid;
  }

  /** The tag as it appears on the line: the application, `[pid]` when there is one, and the colon. */
  function Tag(m: Rfc3164): string
  {
    m.appName + (if m.pid == [] then "" else "[" + m.pid + "]") + ":"
  }

  /** `<digits>`, the BSD timestamp, the host, the tag ending in `:`, and the message. */
  function Match3164(line: string): (r: Option<Rfc3164>)
    ensures r.Some? ==> AllDigits(r.value.priority)
  {
    var pri :- Pri(line);
    var st :- Stamp(pri.rest);
    var tp :- TokenPair(st.rest);
    var t := tp.second;
    if 2 <= |t| && t[|t| - 1] == ':' then
      var msg :- Tail(tp.rest);
      var (app, pid) := SplitPid(t[..|t| - 1]);
      Some(Rfc3164(pri.field, st.field, tp.first, app, pid, msg))
    else None
  }

  /** Whatever `Match3164` captures is a host token, a non-empty application and a message. */
  lemma Match3164Sound(line: string)
    requires Match3164(line).Some?
    ensures IsToken(Match3164(line).value.hostname) && Match3164(line).value.appName != []
    ensures IsMessage(Match3164(line).value.message)
  {
    var pri := Pri(line).value;
    var st := Stamp(pri.rest).value;
    TokenPairParts(st.rest);
    var tp := TokenPair(st.rest).value;
    TailParts(tp.rest);
  }

  predicate WF3164(m: Rfc3164)
  {
    AllDigits(m.priority) && IsStamp(m.timestamp) && IsToken(m.hostname)
    && m.appName != [] && AllIn(m.appName, NonSpace)
    && (m.pid == [] ==> SplitPid(m.appName) == (m.appName, []))
    && (m.pid != [] ==> AllDigits(m.pid))
    && IsMessage(m.message)
  }

  function Render3164(m: Rfc3164): string
  {
    "<" + (m.priority + (">" + (m.timestamp + (" " + m.hostname + (" " + Tag(m) + (" " + m.message))))))
  }

  lemma TagIsToken(m: Rfc3164)
    requires m.appName != [] && AllIn(m.appName, NonSpace) && (m.pid != [] ==> AllDigits(m.pid))
    ensures IsToken(Tag(m))
  {
    var t := Tag(m);
    forall i | 0 <= i < |t| ensures !IsPatternSpace(t[i]) {
      if i >= |m.appName| && m.pid != [] && i > |m.appName| && i < |m.appName| + 1 + |m.pid| {
        assert t[i] == m.pid[i - |m.appName| - 1];
      }
    }
  }

  /** The scanning steps of `Match3164`, stated one at a time. */
  lemma Match3164Steps(line: string, m: Rfc3164, s0: string, x0: string, t: string, x1: string)
    requires Pri(line) == Some(Cut(m.priority, s0))
    requires Stamp(s0) == Some(Cut(m.timestamp, x0))
    requires TokenPair(x0) == Some(Pair(m.hostname, t, x1))
    requires 2 <= |t| && t[|t| - 1] == ':'
    requires Tail(x1) == Some(m.message)
    requires SplitPid(t[..|t| - 1]) == (m.appName, m.pid)
    ensures Match3164(line) == Some(m)
  {
  }

  /** The rendered tag ends in its colon, and what precedes the colon splits back. */
  lemma TagOf(m: Rfc3164)
    requires m.appName != [] && AllIn(m.appName, NonSpace)
    requires m.pid == [] ==> SplitPid(m.appName) == (m.appName, [])
    requires m.pid != [] ==> AllDigits(m.pid)
    ensures IsToken(Tag(m)) && 2 <= |Tag(m)| && Tag(m)[|Tag(m)| - 1] == ':'
    ensures SplitPid(Tag(m)[..|Tag(m)| - 1]) == (m.appName, m.pid)
  {
    var tag := Tag(m);
    var x := m.appName + (if m.pid == [] then "" else "[" + m.pid + "]");
    assert tag == x + ":";
    assert tag[..|tag| - 1] == x;
    if m.pid != [] {
      assert x == m.appName + "[" + m.pid + "]";
      SplitPidOf(m.appName, m.pid);
    } else {
      assert x == m.appName;
    }
    TagIsToken(m);
  }

  lemma Head3164Of(m: Rfc3164) returns (x0: string, x1: string)
    requires AllDigits(m.priority) && IsStamp(m.timestamp)
    requires IsToken(m.hostname) && IsToken(Tag(m)) && IsMessage(m.message)
    ensures Pri(Render3164(m)) == Some(Cut(m.priority, m.timestamp + x0))
    ensures Stamp(m.timestamp + x0) == Some(Cut(m.timestamp, x0))
    ensures TokenPair(x0) == Some(Pair(m.hostname, Tag(m), x1))
    ensures Tail(x1) == Some(m.message)
  {
    x1 := " " + m.message;
    x0 := " " + m.hostname + (" " + Tag(m) + x1);
    PriOf(m.priority, m.timestamp + x0);
    StampOf(m.timestamp, x0);
    TokenPairOf(m.hostname, Tag(m), x1);
    TailOf(" ", m.message);
  }

  /** Every well-formed group tuple is read back from its rendering. */
  lemma Match3164Render(m: Rfc3164)
    requires WF3164(m)
    ensures Match3164(Render3164(m)) == Some(m)
  {
    TagOf(m);
    var x0, x1 := Head3164Of(m);
    Match3164Steps(Render3164(m), m, m.timestamp + x0, x0, Tag(m), x1);
  }

  // ---------------------------------------------------------------------
  // Vocabulary
  // ---------------------------------------------------------------------

  /** The severity code of a priority: its remainder modulo 8 onto the five-level scale. */
  function SeverityOf(priority: nat): (s: Severity)
    ensures priority % 8 <= 2 <==> s == Critical
    ensures priority % 8 == 3 <==> s == High
    ensures priority % 8 == 4 <==> s == Medium
    ensures (priority % 8 == 5 || priority % 8 == 6) <==> s == Low
    ensures priority % 8 == 7 <==> s == Info
  {
    var code := priority % 8;
    if code <= 2 then Critical
    else if code == 3 then High
    else if code == 4 then Medium
    else if code <= 6 then Low
    else Info
  }

  /** Only the severity code counts: the facility never changes the mapping. */
  lemma SeverityIgnoresFacility(facility: nat, code: nat)
    requires code < 8
    ensures SeverityOf(8 * facility + code) == SeverityOf(code)
  {
  }

  /** A numerically higher severity code is never mapped to a more severe level. */
  lemma SeverityAntitone(p: nat, q: nat)
    requires p % 8 <= q % 8
    ensures Rank(SeverityOf(p)) >= Rank(SeverityOf(q))
  {
  }

  const CategoryRules: seq<Rule<Category>> := [
    Rule(["login", "auth"], Authentication),
    Rule(["access", "denied"], Access),
    Rule(["network", "connection"], NetworkEvent),
    Rule(["security", "breach"], SecurityEvent)]

  /** The first keyword group the lower-cased message mentions decides; else a system event. */
  function Categorize(message: string): (c: Category)
    ensures forall i :: FirstApplies(Lower(message), CategoryRules, i) ==> c == CategoryRules[i].outcome
    ensures (forall i :: 0 <= i < |CategoryRules| ==> !AnyIn(Lower(message), CategoryRules[i].words)) ==> c == SystemEvent
  {
    FirstMatch(Lower(message), CategoryRules, SystemEvent)
  }

  /** Categorisation does not depend on letter case. */
  lemma CategorizeIgnoresCase(message: string)
    ensures Categorize(Lower(message)) == Categorize(message)
  {
    LowerIdempotent(message);
  }

  // ---------------------------------------------------------------------
  // Events
  // ---------------------------------------------------------------------

  /**
   * The priority read from its digits the way a discarded-error Atoi does:
   * a value beyond the 64-bit range is clamped to the largest one.
   */
  function PriorityValue(digits: string): (p: nat)
    requires AllDigits(digits)
    ensures InInt64(DigitsValue(digits)) ==> p == DigitsValue(digits)
    ensures !InInt64(DigitsValue(digits)) ==> p == MaxInt64
  {
    if DigitsValue(digits) <= MaxInt64 then DigitsValue(digits) else MaxInt64
  }

  /** The priority and its decomposition, as stored in the additional data. */
  function PriorityData(priority: nat): (d: map<string, Value>)
    ensures d.Keys == {"syslog_priority", "syslog_facility", "syslog_severity"}
    ensures PriorityConsistent(d) && d["syslog_priority"] == Int(priority)
  {
    map["syslog_priority" := Int(priority), "syslog_facility" := Int(priority / 8),
        "syslog_severity" := Int(priority % 8)]
  }

  /** priority == 8 * facility + severity, with the severity code below 8. */
  predicate PriorityConsistent(d: map<string, Value>)
  {
    "syslog_priority" in d && "syslog_facility" in d && "syslog_severity" in d
    && d["syslog_priority"].Int? && d["syslog_facility"].Int? && d["syslog_severity"].Int?
    && d["syslog_priority"].i == 8 * d["syslog_facility"].i + d["syslog_severity"].i
    && 0 <= d["syslog_severity"].i < 8
  }

  const BsdLayout := "Jan 2 15:04:05"

  /** The BSD timestamp carries no year: a parsed time is moved into the current year. */
  function Timestamp3164(text: string, rt: Runtime): Instant
  {
    match rt.parseTime(BsdLayout, text)
    case Some(t) => rt.withCurrentYear(t)
    case None => rt.now
  }

  function From3164(m: Rfc3164, rt: Runtime): (e: GostEvent)
    requires AllDigits(m.priority)
    ensures e.timestamp == Timestamp3164(m.timestamp, rt)
    ensures e.description == m.message && e.result == Unknown
    ensures e.source.hostname == m.hostname && e.source.application == m.appName
    ensures e.source.ipAddress == "" && e.source.process == ""
    ensures m.pid == [] ==> e.source.processId == 0
    ensures m.pid != [] ==> e.source.processId == AtoiOrZero(m.pid)
    ensures e.severity == SeverityOf(PriorityValue(m.priority))
    ensures e.category == Categorize(m.message)
    ensures e.additionalData == PriorityData(PriorityValue(m.priority))
    ensures PriorityConsistent(e.additionalData)
    ensures e.subjectAccount.None? && e.objectAccount.None? && e.action == ""
  {
    var priority := PriorityValue(m.priority);
    GostEvent(
      Timestamp3164(m.timestamp, rt),
      Source(m.hostname, "", m.appName, "", if m.pid == [] then 0 else AtoiOrZero(m.pid)),
      Categorize(m.message),
      SeverityOf(priority),
      m.message,
      PriorityData(priority),
      None,
      None,
      Unknown,
      "")
  }

  function From5424(m: Rfc5424, rt: Runtime): (e: GostEvent)
    requires AllDigits(m.priority)
    ensures e.timestamp == OrNow(rt.parseTime(RFC3339, m.timestamp), rt)
    ensures e.description == m.message && e.result == Unknown
    ensures e.source.hostname == m.hostname && e.source.application == m.appName
    ensures e.source.ipAddress == "" && e.source.process == ""
    ensures m.procId == "-" ==> e.source.processId == 0
    ensures m.procId != "-" ==> e.source.processId == AtoiOrZero(m.procId)
    ensures e.severity == SeverityOf(PriorityValue(m.priority))
    ensures e.category == Categorize(m.message)
    ensures e.additionalData.Keys == PriorityData(PriorityValue(m.priority)).Keys + {"syslog_version", "syslog_msgid"}
    ensures forall k :: k in PriorityData(PriorityValue(m.priority)) ==>
      e.additionalData[k] == PriorityData(PriorityValue(m.priority))[k]
    ensures PriorityConsistent(e.additionalData)
    ensures "syslog_version" in e.additionalData && e.additionalData["syslog_version"] == Str(m.version)
    ensures "syslog_msgid" in e.additionalData && e.additionalData["syslog_msgid"] == Str(m.msgId)
    ensures e.subjectAccount.None? && e.objectAccount.None? && e.action == ""
  {
    var priority := PriorityValue(m.priority);
    var data := PriorityData(priority)["syslog_version" := Str(m.version)]["syslog_msgid" := Str(m.msgId)];
    GostEvent(
      OrNow(rt.parseTime(RFC3339, m.timestamp), rt),
      Source(m.hostname, "", m.appName, "", if m.procId == "-" then 0 else AtoiOrZero(m.procId)),
      Categorize(m.message),
      SeverityOf(priority),
      m.message,
      data,
      None,
      None,
      Unknown,
      "")
  }

  /** RFC 5424 first, then RFC 3164; a line of neither shape is rejected. */
  function Parse(line: string, rt: Runtime): (r: Result<GostEvent, ParseError>)
    ensures r.Err? <==> Match5424(line).None? && Match3164(line).None?
    ensures r.Err? ==> r.error == UnsupportedSyslog
    ensures Match5424(line).Some? ==> r == Ok(From5424(Match5424(line).value, rt))
    ensures Match5424(line).None? && Match3164(line).Some? ==> r == Ok(From3164(Match3164(line).value, rt))
    ensures r.Ok? ==> r.value.result == Unknown && PriorityConsistent(r.value.additionalData)
    ensures r.Ok? ==> r.value.category == Categorize(r.value.description)
  {
    match Match5424(line)
    case Some(m) => Ok(From5424(m, rt))
    case None =>
      match Match3164(line)
      case Some(m) => Ok(From3164(m, rt))
      case None => Err(UnsupportedSyslog)
  }
}
