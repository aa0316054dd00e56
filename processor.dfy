/**
 * The engine's front door: the shape classifier that picks a grammar for a
 * raw line, the dispatch to that grammar's parser, and the batch run that
 * separates events from numbered errors.
 */
module Processor {
  import opened Wrappers
  import opened Text
  import opened Gost
  import Syslog
  import Cef
  import Leef
  import Xml

  /** The formats the classifier tells apart. */
  datatype LogType = UnknownLog | SyslogLog | CefLog | LeefLog | XmlLog

  // ---------------------------------------------------------------------
  // Detection
  // ---------------------------------------------------------------------

  /** Every character is a decimal digit, and there is at least one. */
  method IsNumeric(s: string) returns (b: bool)
    ensures b <==> AllDigits(s)
  {
    var i := 0;
    while i < |s|
      invariant 0 <= i <= |s|
      invariant forall j :: 0 <= j < i ==> IsDigit(s[j])
    {
      if s[i] < '0' || s[i] > '9' {
        return false;
      }
      i := i + 1;
    }
    return |s| > 0;
  }

  /**
   * The classification of a trimmed line: a `CEF:` prefix, then a `LEEF:`
   * prefix, then the two XML rules, then a `<digits>` priority whose `>` is
   * the first one and comes at index 1 to 9; anything else is unknown.
   */
  function Classify(s: string): LogType
  {
    if HasPrefix(s, "CEF:") then CefLog
    else if HasPrefix(s, "LEEF:") then LeefLog
    else if (HasPrefix(s, "<") && Contains(s, "<?xml")) || HasPrefix(s, "<?xml") then XmlLog
    else if HasPrefix(s, "<Event") then XmlLog
    else if HasPrefix(s, "<") && Contains(s, ">") then
      ContainsChar(s, '>');
      var p := Find(s, '>').value;
      if 0 < p < 10 && AllDigits(s[1..p]) then SyslogLog else UnknownLog
    else UnknownLog
  }

  /** A line is classified with the white space around it removed. */
  function Detect(line: string): LogType
  {
    Classify(TrimSpace(line))
  }

  /** The classifier, with the digit test done by `IsNumeric`. */
  method DetectLogType(line: string) returns (t: LogType)
    ensures t == Detect(line)
  {
    var s := TrimSpace(line);
    if HasPrefix(s, "CEF:") {
      return CefLog;
    }
    if HasPrefix(s, "LEEF:") {
      return LeefLog;
    }
    if (HasPrefix(s, "<") && Contains(s, "<?xml")) || HasPrefix(s, "<?xml") {
      return XmlLog;
    }
    if HasPrefix(s, "<Event") {
      return XmlLog;
    }
    if HasPrefix(s, "<") && Contains(s, ">") {
      ContainsChar(s, '>');
      var p := Find(s, '>').value;
      if p > 0 && p < 10 {
        var numeric := IsNumeric(s[1..p]);
        if numeric {
          return SyslogLog;
        }
      }
    }
    return UnknownLog;
  }

  /** White space around a line never changes its classification. */
  lemma DetectIgnoresSpace(pre: string, line: string, post: string)
    requires AllSpace(pre) && AllSpace(post)
    ensures Detect(pre + line + post) == Detect(line)
  {
    TrimSurrounded(pre, line, post);
  }

  /** A `<digits>` priority tag: `<`, then 1 to 8 digits, then the first `>` at index 1 to 9. */
  predicate PriorityTag(s: string, p: nat)
  {
    0 < p < 10 && p < |s| && s[0] == '<' && s[p] == '>' && Free(s[..p], '>') && AllDigits(s[1..p])
  }

  lemma PrefixContained(s: string, p: string)
    requires HasPrefix(s, p)
    ensures Contains(s, p)
  {
    ContainsAt(s, p, 0);
  }

  /** A trimmed line classified as syslog opens with a priority tag and nowhere mentions `<?xml`. */
  lemma SyslogSound(s: string)
    requires Classify(s) == SyslogLog
    ensures !Contains(s, "<?xml") && exists p: nat :: PriorityTag(s, p)
  {
    ContainsChar(s, '>');
    var p := Find(s, '>').value;
    assert forall j :: 0 <= j < p ==> s[..p][j] == s[j];
    assert PriorityTag(s, p);
  }

  /** A trimmed line with a priority tag and no `<?xml` is classified as syslog. */
  lemma SyslogComplete(s: string, p: nat)
    requires !Contains(s, "<?xml") && PriorityTag(s, p)
    ensures Classify(s) == SyslogLog
  {
    assert forall j :: 0 <= j < p ==> s[j] == s[..p][j];
    FindAt(s, '>', p);
    ContainsChar(s, '>');
    assert s[1] == s[1..p][0];
    if HasPrefix(s, "<?xml") {
      PrefixContained(s, "<?xml");
    }
  }

  /**
   * A trimmed line is syslog exactly when it opens with a priority tag and
   * nowhere mentions `<?xml` (which would make it XML).
   */
  lemma SyslogIff(s: string)
    ensures Classify(s) == SyslogLog <==> !Contains(s, "<?xml") && exists p: nat :: PriorityTag(s, p)
  {
    if Classify(s) == SyslogLog {
      SyslogSound(s);
    }
    if !Contains(s, "<?xml") && exists p: nat :: PriorityTag(s, p) {
      var p: nat :| PriorityTag(s, p);
      SyslogComplete(s, p);
    }
  }

  /**
   * A trimmed line is XML exactly when it starts with `<` and somewhere holds
   * `<?xml`, or starts with `<Event`; the separate `<?xml` prefix rule adds
   * nothing.
   */
  lemma XmlIff(s: string)
    ensures Classify(s) == XmlLog <==> (HasPrefix(s, "<") && Contains(s, "<?xml")) || HasPrefix(s, "<Event")
  {
    if HasPrefix(s, "<?xml") {
      PrefixContained(s, "<?xml");
      assert s[0] == '<';
    }
    if HasPrefix(s, "<") {
      assert s[0] == '<';
    }
    if HasPrefix(s, "<Event") {
      assert s[0] == '<';
    }
  }

  // ---------------------------------------------------------------------
  // Dispatch
  // ---------------------------------------------------------------------

  /** The outcome of one line: the detected grammar's parser applied to the line as given, untrimmed. */
  function Dispatch(line: string, rt: Runtime): Result<GostEvent, ParseError>
  {
    match Detect(line)
    case SyslogLog => Syslog.Parse(line, rt)
    case CefLog => Cef.Normalize(line, rt)
    case LeefLog => Leef.Normalize(line, rt)
    case XmlLog => Xml.Normalize(line, rt)
    case UnknownLog => Err(UnknownLogType)
  }

  /** The error each grammar's parser reports. */
  function RejectionOf(t: LogType): ParseError
  {
    match t
    case UnknownLog => UnknownLogType
    case SyslogLog => UnsupportedSyslog
    case CefLog => InvalidCef
    case LeefLog => InvalidLeef
    case XmlLog => XmlDecodeFailure
  }

  /**
   * A line fails only with its grammar's own error, and an unknown line
   * always fails, without any parser being consulted.
   */
  lemma DispatchErrors(line: string, rt: Runtime)
    ensures Dispatch(line, rt).Err? ==> Dispatch(line, rt).error == RejectionOf(Detect(line))
    ensures Dispatch(line, rt) == Err(UnknownLogType) <==> Detect(line) == UnknownLog
  {
  }

  /**
   * The parser gets the line untrimmed: a CEF line after a leading space is
   * still detected as CEF, and the CEF parser then rejects it.
   */
  lemma LeadingSpaceRejected(line: string, rt: Runtime)
    requires Trimmed(line) && HasPrefix(line, "CEF:")
    ensures Detect(" " + line) == CefLog
    ensures Cef.Normalize(" " + line, rt) == Err(InvalidCef)
  {
    var s := " " + line;
    assert s[0] != 'C';
    assert Cef.MatchHeader(s).None?;
    TrimmedFixed(line);
    DetectIgnoresSpace(" ", line, "");
    assert s + "" == s;
  }

  /** One line through the classifier and the chosen parser. */
  method Process(line: string, rt: Runtime) returns (r: Result<GostEvent, ParseError>)
    ensures r == Dispatch(line, rt)
  {
    var t := DetectLogType(line);
    match t
    case SyslogLog => r := Syslog.Parse(line, rt);
    case CefLog => r := Cef.Parse(line, rt);
    case LeefLog => r := Leef.Parse(line, rt);
    case XmlLog => r := Xml.Parse(line, rt);
    case UnknownLog => r := Err(UnknownLogType);
  }

  // ---------------------------------------------------------------------
  // Batches
  // ---------------------------------------------------------------------

  /** A failed line: its number, counting from 1, and the parser's error. */
  datatype LineError = LineError(line: nat, error: ParseError)

  /** What each line comes to, in input order. */
  function Outcomes(lines: seq<string>, rt: Runtime): (rs: seq<Result<GostEvent, ParseError>>)
    ensures |rs| == |lines| && forall i :: 0 <= i < |lines| ==> rs[i] == Dispatch(lines[i], rt)
  {
    seq(|lines|, i requires 0 <= i < |lines| => Dispatch(lines[i], rt))
  }

  /** The events in input order, and the failures, each with its line number, in input order. */
  function Partition(rs: seq<Result<GostEvent, ParseError>>): (seq<GostEvent>, seq<LineError>)
  {
    if rs == [] then ([], [])
    else
      var rest := Partition(rs[..|rs| - 1]);
      var last := rs[|rs| - 1];
      if last.Ok? then (rest.0 + [last.value], rest.1)
      else (rest.0, rest.1 + [LineError(|rs|, last.error)])
  }

  function Batch(lines: seq<string>, rt: Runtime): (seq<GostEvent>, seq<LineError>)
  {
    Partition(Outcomes(lines, rt))
  }

  /** Every outcome becomes exactly one event or one error. */
  lemma {:induction false} PartitionCounts(rs: seq<Result<GostEvent, ParseError>>)
    ensures |Partition(rs).0| + |Partition(rs).1| == |rs|
  {
    if rs != [] {
      PartitionCounts(rs[..|rs| - 1]);
    }
  }

  /** Each error names a position, counting from 1, whose outcome was that error. */
  lemma {:induction false} PartitionErrorLines(rs: seq<Result<GostEvent, ParseError>>)
    ensures forall k :: 0 <= k < |Partition(rs).1| ==>
              1 <= Partition(rs).1[k].line <= |rs| && rs[Partition(rs).1[k].line - 1] == Err(Partition(rs).1[k].error)
  {
    if rs != [] {
      var pre := rs[..|rs| - 1];
      PartitionErrorLines(pre);
      var errors := Partition(rs).1;
      var before := Partition(pre).1;
      forall k | 0 <= k < |errors|
        ensures 1 <= errors[k].line <= |rs| && rs[errors[k].line - 1] == Err(errors[k].error)
      {
        if k < |before| {
          assert errors[k] == before[k];
          assert pre[before[k].line - 1] == rs[before[k].line - 1];
        }
      }
    }
  }

  /** The errors come in strictly increasing line order. */
  lemma {:induction false} PartitionOrdered(rs: seq<Result<GostEvent, ParseError>>)
    ensures forall k, k' :: 0 <= k < k' < |Partition(rs).1| ==> Partition(rs).1[k].line < Partition(rs).1[k'].line
  {
    if rs != [] {
      var pre := rs[..|rs| - 1];
      PartitionOrdered(pre);
      PartitionErrorLines(pre);
      var errors := Partition(rs).1;
      var before := Partition(pre).1;
      forall k, k' | 0 <= k < k' < |errors|
        ensures errors[k].line < errors[k'].line
      {
        assert errors[k] == before[k];
        if k' < |before| {
          assert errors[k'] == before[k'];
        }
      }
    }
  }

  /** Some error in the list is numbered `n`. */
  predicate Reported(errors: seq<LineError>, n: nat)
  {
    exists k :: 0 <= k < |errors| && errors[k].line == n
  }

  /** Every failed position has its error in the list. */
  lemma {:induction false} PartitionComplete(rs: seq<Result<GostEvent, ParseError>>)
    ensures forall i :: 0 <= i < |rs| && rs[i].Err? ==> Reported(Partition(rs).1, i + 1)
  {
    if rs != [] {
      var pre := rs[..|rs| - 1];
      PartitionComplete(pre);
      var errors := Partition(rs).1;
      var before := Partition(pre).1;
      forall i | 0 <= i < |rs| && rs[i].Err?
        ensures Reported(errors, i + 1)
      {
        if i < |pre| {
          assert pre[i] == rs[i];
          var k :| 0 <= k < |before| && before[k].line == i + 1;
          assert errors[k] == before[k];
        } else {
          assert errors[|errors| - 1].line == i + 1;
        }
      }
    }
  }

  /** The events of two runs are those of the first followed by those of the second. */
  lemma {:induction false} PartitionEventsAppend(a: seq<Result<GostEvent, ParseError>>, b: seq<Result<GostEvent, ParseError>>)
    ensures Partition(a + b).0 == Partition(a).0 + Partition(b).0
  {
    if b == [] {
      assert a + b == a;
    } else {
      var pre := b[..|b| - 1];
      assert (a + b)[..|a + b| - 1] == a + pre;
      assert (a + b)[|a + b| - 1] == b[|b| - 1];
      PartitionEventsAppend(a, pre);
    }
  }

  /** A batch has one entry, event or error, per line. */
  lemma BatchCounts(lines: seq<string>, rt: Runtime)
    ensures |Batch(lines, rt).0| + |Batch(lines, rt).1| == |lines|
  {
    PartitionCounts(Outcomes(lines, rt));
  }

  /** The error names a line of the batch, counting from 1, whose parser failed with that error. */
  predicate FailedAt(lines: seq<string>, rt: Runtime, e: LineError)
  {
    1 <= e.line <= |lines| && Dispatch(lines[e.line - 1], rt) == Err(e.error)
  }

  /** Every line that fails has its error in the batch. */
  lemma BatchComplete(lines: seq<string>, rt: Runtime)
    ensures forall i :: 0 <= i < |lines| && Dispatch(lines[i], rt).Err? ==> Reported(Batch(lines, rt).1, i + 1)
  {
    var rs := Outcomes(lines, rt);
    PartitionComplete(rs);
  }

  /** Each line processed in turn; an error is numbered by its line and the run goes on. */
  method ProcessBatch(lines: seq<string>, rt: Runtime) returns (events: seq<GostEvent>, errors: seq<LineError>)
    ensures (events, errors) == Batch(lines, rt)
    ensures forall k :: 0 <= k < |errors| ==> FailedAt(lines, rt, errors[k])
  {
    events, errors := [], [];
    var i := 0;
    while i < |lines|
      invariant 0 <= i <= |lines|
      invariant (events, errors) == Partition(Outcomes(lines[..i], rt))
      invariant forall k :: 0 <= k < |errors| ==> FailedAt(lines, rt, errors[k])
    {
      ghost var done := Outcomes(lines[..i + 1], rt);
      assert done[..i] == Outcomes(lines[..i], rt);
      var r := Process(lines[i], rt);
      assert done[i] == r;
      if r.Err? {
        errors := errors + [LineError(i + 1, r.error)];
      } else {
        events := events + [r.value];
      }
      i := i + 1;
    }
    assert lines[..|lines|] == lines;
  }

  // ---------------------------------------------------------------------
  // The classifier on the sample lines
  // ---------------------------------------------------------------------

  /** A short syslog line: the tag `<134>` decides. */
  lemma SyslogSample()
    ensures Classify("<134>ok") == SyslogLog
  {
    var s := "<134>ok";
    SyslogIff(s);
    ContainsIff(s, "<?xml");
    assert s[..4] == "<134";
    assert PriorityTag(s, 4);
  }
}
