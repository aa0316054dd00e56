/**
 * Windows Event Log records, taken over from the XML decoder as an `Event`
 * value: severity from the System level, category from the event-id ranges
 * and the channel or provider, the outcome from EventData, the description,
 * the additional data, and the enrichment of the record from EventData.
 */
module Xml {
  import opened Wrappers
  import opened Text
  import opened Gost
  import opened XmlSchema

  // ---------------------------------------------------------------------
  // Vocabulary
  // ---------------------------------------------------------------------

  /**
   * The System level: 1 to 3 descend from critical to medium, 5 is low, and
   * 4 and every other level are informational, so level 4 ranks below level 5.
   */
  function LevelSeverity(level: int): (s: Severity)
    ensures 1 <= level <= 3 ==> Rank(s) == 5 - level
    ensures level == 5 ==> s == Low
    ensures s == Info <==> !(1 <= level <= 3) && level != 5
  {
    match level
    case 1 => Critical
    case 2 => High
    case 3 => Medium
    case 4 => Info
    case 5 => Low
    case _ => Info
  }

  predicate InRange(id: int, lo: int, hi: int)
  {
    lo <= id <= hi
  }

  /** The category an event-id range assigns: logon, account management, object access, policy change. */
  function RangeCategory(id: int): (c: Option<Category>)
    ensures c.Some? <==> InRange(id, 4624, 4634) || InRange(id, 4720, 4767) || InRange(id, 4660, 4663) || InRange(id, 4670, 4690)
    ensures InRange(id, 4624, 4634) ==> c == Some(Authentication)
    ensures InRange(id, 4720, 4767) ==> c == Some(Authorization)
    ensures InRange(id, 4660, 4663) ==> c == Some(Access)
    ensures InRange(id, 4670, 4690) ==> c == Some(DataModification)
  {
    if InRange(id, 4624, 4634) then Some(Authentication)
    else if InRange(id, 4720, 4767) then Some(Authorization)
    else if InRange(id, 4660, 4663) then Some(Access)
    else if InRange(id, 4670, 4690) then Some(DataModification)
    else None
  }

  /** "security" in the lower-cased channel or provider name. */
  predicate MentionsSecurity(sys: System)
  {
    Contains(Lower(sys.channel), "security") || Contains(Lower(sys.providerName), "security")
  }

  /**
   * An event-id range decides; otherwise a security channel or provider
   * makes a security event; every other event (a system or application
   * channel among them) is a system event.
   */
  function Categorize(e: Event): (c: Category)
    ensures RangeCategory(e.system.eventId).Some? ==> c == RangeCategory(e.system.eventId).value
    ensures RangeCategory(e.system.eventId).None? ==> (c == SecurityEvent <==> MentionsSecurity(e.system))
    ensures RangeCategory(e.system.eventId).None? ==> (c == SystemEvent <==> !MentionsSecurity(e.system))
    ensures c != NetworkEvent
  {
    match RangeCategory(e.system.eventId)
    case Some(c) => c
    case None => if MentionsSecurity(e.system) then SecurityEvent else SystemEvent
  }

  /** The channel and provider matter only outside the event-id ranges. */
  lemma RangeDecides(e: Event, channel: string, provider: string)
    requires RangeCategory(e.system.eventId).Some?
    ensures Categorize(Event(e.system.(channel := channel, providerName := provider), e.data)) == Categorize(e)
  {
  }

  predicate StatusName(name: string)
  {
    Contains(Lower(name), "status") || Contains(Lower(name), "result")
  }

  predicate SuccessValue(value: string)
  {
    Contains(Lower(value), "success") || Lower(value) == "0" || Lower(value) == "0x0"
  }

  predicate FailureValue(value: string)
  {
    Contains(Lower(value), "fail") || Contains(Lower(value), "error")
  }

  /** What one EventData pair says about the outcome; only a status or result pair speaks. */
  function PairVerdict(d: Data): (r: Option<EventResult>)
    ensures r == Some(Success) <==> StatusName(d.name) && SuccessValue(d.value)
    ensures r == Some(Failure) <==> StatusName(d.name) && !SuccessValue(d.value) && FailureValue(d.value)
    ensures r.None? <==> !StatusName(d.name) || (!SuccessValue(d.value) && !FailureValue(d.value))
  {
    if StatusName(d.name) then
      if SuccessValue(d.value) then Some(Success)
      else if FailureValue(d.value) then Some(Failure)
      else None
    else None
  }

  /** The first value that is present. */
  function FirstSome<T>(vs: seq<Option<T>>): (r: Option<T>)
    ensures r.None? <==> forall i :: 0 <= i < |vs| ==> vs[i].None?
    ensures r.Some? ==> exists i :: 0 <= i < |vs| && r == vs[i] && forall j :: 0 <= j < i ==> vs[j].None?
  {
    if vs == [] then None
    else if vs[0].Some? then vs[0]
    else
      var r := FirstSome(vs[1..]);
      assert forall i :: 1 <= i < |vs| ==> vs[i] == vs[1..][i - 1];
      r
  }

  lemma {:induction false} FirstSomeAppend<T>(a: seq<Option<T>>, b: seq<Option<T>>)
    requires FirstSome(a).Some?
    ensures FirstSome(a + b) == FirstSome(a)
  {
    if a[0].None? {
      assert (a + b)[1..] == a[1..] + b;
      FirstSomeAppend(a[1..], b);
    }
  }

  /** The verdict of each pair, in order. */
  function Verdicts(data: seq<Data>): (vs: seq<Option<EventResult>>)
    ensures |vs| == |data| && forall i :: 0 <= i < |data| ==> vs[i] == PairVerdict(data[i])
  {
    seq(|data|, i requires 0 <= i < |data| => PairVerdict(data[i]))
  }

  /** The verdict of the first pair that has one. */
  function FirstVerdict(data: seq<Data>): Option<EventResult>
  {
    FirstSome(Verdicts(data))
  }

  /**
   * A conclusive status or result pair decides; otherwise level 1 or 2 is
   * a failure; otherwise a failed logon (4625) is a failure and a logon
   * (4624) or logoff (4634 to 4647) a success; else the outcome is unknown.
   */
  function ResultOf(e: Event): (r: EventResult)
    ensures FirstVerdict(e.data).Some? ==> r == FirstVerdict(e.data).value
    ensures FirstVerdict(e.data).None? && (e.system.level == 1 || e.system.level == 2) ==> r == Failure
    ensures FirstVerdict(e.data).None? && e.system.level != 1 && e.system.level != 2 ==>
              (r == Failure <==> e.system.eventId == 4625)
              && (r == Success <==> e.system.eventId == 4624 || InRange(e.system.eventId, 4634, 4647))
  {
    match FirstVerdict(e.data)
    case Some(v) => v
    case None =>
      var id := e.system.eventId;
      if e.system.level == 1 || e.system.level == 2 then Failure
      else if InRange(id, 4624, 4625) || InRange(id, 4634, 4647) then
        if id == 4625 then Failure else Success
      else Unknown
  }

  /** Once a pair is conclusive, the pairs after it do not matter. */
  lemma ConclusivePairDecides(e: Event, more: seq<Data>)
    requires FirstVerdict(e.data).Some?
    ensures ResultOf(Event(e.system, e.data + more)) == ResultOf(e)
  {
    VerdictsAppend(e.data, more);
    FirstSomeAppend(Verdicts(e.data), Verdicts(more));
  }

  lemma VerdictsAppend(a: seq<Data>, b: seq<Data>)
    ensures Verdicts(a + b) == Verdicts(a) + Verdicts(b)
  {
    var l, r := Verdicts(a + b), Verdicts(a) + Verdicts(b);
    forall i | 0 <= i < |l| ensures l[i] == r[i] {
      if i < |a| {
        assert (a + b)[i] == a[i];
      } else {
        assert (a + b)[i] == b[i - |a|];
      }
    }
  }

  // ---------------------------------------------------------------------
  // Description
  // ---------------------------------------------------------------------

  function DescriptionLine(d: Data): string
  {
    d.name + ": " + d.value
  }

  /** The "Name: Value" lines of the pairs whose value is not empty, in order. */
  function DescriptionLines(data: seq<Data>): (r: seq<string>)
    ensures |r| <= |data|
    ensures r == [] <==> forall i :: 0 <= i < |data| ==> data[i].value == ""
  {
    if data == [] then []
    else
      var pre := data[..|data| - 1];
      var d := data[|data| - 1];
      var r := DescriptionLines(pre);
      assert forall i :: 0 <= i < |pre| ==> pre[i] == data[i];
      if d.value != "" then r + [DescriptionLine(d)] else r
  }

  /** The lines of a concatenation are the lines of its halves, in order: the pairs are filtered, never reordered. */
  lemma {:induction false} DescriptionLinesAppend(a: seq<Data>, b: seq<Data>)
    ensures DescriptionLines(a + b) == DescriptionLines(a) + DescriptionLines(b)
  {
    if b != [] {
      var pre := b[..|b| - 1];
      assert (a + b)[..|a + b| - 1] == a + pre;
      assert (a + b)[|a + b| - 1] == b[|b| - 1];
      DescriptionLinesAppend(a, pre);
    } else {
      assert a + b == a;
    }
  }

  /** The lines joined by "; ", or "Event ID <id> from <provider>" when no pair has a value. */
  function Description(e: Event): string
  {
    var lines := DescriptionLines(e.data);
    if lines != [] then Join(lines, "; ")
    else "Event ID " + IntToString(e.system.eventId) + " from " + e.system.providerName
  }

  /** The description falls back to the event id and provider exactly when no pair has a value. */
  lemma DescriptionFallback(e: Event)
    ensures Description(e) == "Event ID " + IntToString(e.system.eventId) + " from " + e.system.providerName
            <== forall i :: 0 <= i < |e.data| ==> e.data[i].value == ""
    ensures (exists i :: 0 <= i < |e.data| && e.data[i].value != "") ==> Description(e) == Join(DescriptionLines(e.data), "; ")
  {
  }

  /** The lines collected pair by pair, then joined, or the fallback text. */
  method BuildDescription(e: Event) returns (s: string)
    ensures s == Description(e)
  {
    var parts: seq<string> := [];
    if |e.data| > 0 {
      var i := 0;
      while i < |e.data|
        invariant 0 <= i <= |e.data|
        invariant parts == DescriptionLines(e.data[..i])
      {
        assert e.data[..i + 1][..i] == e.data[..i];
        if e.data[i].value != "" {
          parts := parts + [e.data[i].name + ": " + e.data[i].value];
        }
        i := i + 1;
      }
      assert e.data[..|e.data|] == e.data;
    }
    if |parts| > 0 {
      s := Join(parts, "; ");
    } else {
      s := "Event ID " + IntToString(e.system.eventId) + " from " + e.system.providerName;
    }
  }

  // ---------------------------------------------------------------------
  // Additional data
  // ---------------------------------------------------------------------

  /** Name to value for the pairs with a non-empty name; a later pair overwrites an earlier one. */
  function Named(data: seq<Data>): map<string, string>
  {
    if data == [] then map[]
    else
      var m := Named(data[..|data| - 1]);
      var d := data[|data| - 1];
      if d.name != "" then m[d.name := d.value] else m
  }

  /** A name is stored exactly when it is non-empty and some pair carries it. */
  lemma {:induction false} NamedKeys(data: seq<Data>, k: string)
    ensures k in Named(data) <==> k != "" && exists i :: 0 <= i < |data| && data[i].name == k
  {
    if data != [] {
      var pre := data[..|data| - 1];
      NamedKeys(pre, k);
      assert forall i :: 0 <= i < |pre| ==> pre[i] == data[i];
      if k != "" && (exists i :: 0 <= i < |data| && data[i].name == k) && data[|data| - 1].name != k {
        var i :| 0 <= i < |data| && data[i].name == k;
        assert i < |pre| && pre[i].name == k;
      }
    }
  }

  /** The stored value is that of the last pair with the name. */
  lemma {:induction false} NamedLastWins(data: seq<Data>, k: string)
    requires k in Named(data)
    ensures exists i :: 0 <= i < |data| && data[i].name == k && Named(data)[k] == data[i].value
                        && forall j :: i < j < |data| ==> data[j].name != k
  {
    assert data != [];
    var pre := data[..|data| - 1];
    var d := data[|data| - 1];
    if d.name != k {
      assert Named(data) == if d.name != "" then Named(pre)[d.name := d.value] else Named(pre);
      assert k in Named(pre) && Named(data)[k] == Named(pre)[k];
      NamedLastWins(pre, k);
      var i :| 0 <= i < |pre| && pre[i].name == k && Named(pre)[k] == pre[i].value
               && forall j :: i < j < |pre| ==> pre[j].name != k;
      assert pre[i] == data[i];
      forall j | i < j < |data| ensures data[j].name != k {
        if j < |pre| {
          assert pre[j] == data[j];
        }
      }
    } else {
      NamedKeys(data, k);
      assert Named(data) == Named(pre)[k := d.value];
      assert data[|data| - 1].name == k && Named(data)[k] == data[|data| - 1].value;
    }
  }

  /** The System entries of the additional data. */
  function SystemData(sys: System): map<string, Value>
  {
    map["xml_event_id" := Int(sys.eventId), "xml_level" := Int(sys.level), "xml_task" := Int(sys.task),
        "xml_opcode" := Int(sys.opcode), "xml_keywords" := Str(sys.keywords), "xml_channel" := Str(sys.channel),
        "xml_record_id" := Int(sys.eventRecordId), "provider_guid" := Str(sys.providerGuid)]
  }

  /** The System entries, then every named pair under `xml_`. */
  function AdditionalData(e: Event): map<string, Value>
  {
    SystemData(e.system) + Prefixed("xml_", Named(e.data))
  }

  /** The provider GUID is never shadowed, since no key under `xml_` reaches it. */
  lemma ProviderGuidKept(e: Event)
    ensures AdditionalData(e)["provider_guid"] == Str(e.system.providerGuid)
  {
    assert !HasPrefix("provider_guid", "xml_") by {
      assert "provider_guid"[..4][0] == 'p';
    }
  }

  /**
   * Every named pair is stored under `xml_`, and nothing else is added to
   * the System entries: an extra key comes from a pair whose name is not empty.
   */
  lemma DataKeys(e: Event)
    ensures forall k :: k in Named(e.data) ==> AdditionalData(e)["xml_" + k] == Str(Named(e.data)[k])
    ensures forall key :: key in AdditionalData(e) && key !in SystemData(e.system) ==>
              HasPrefix(key, "xml_") && key[4..] != "" && exists i :: 0 <= i < |e.data| && e.data[i].name == key[4..]
  {
    forall key | key in AdditionalData(e) && key !in SystemData(e.system)
      ensures HasPrefix(key, "xml_") && key[4..] != "" && exists i :: 0 <= i < |e.data| && e.data[i].name == key[4..]
    {
      NamedKeys(e.data, key[4..]);
    }
  }

  /** Writes each named pair under `xml_` into `into`, in order. */
  method CopyEventData(into: map<string, Value>, data: seq<Data>) returns (r: map<string, Value>)
    ensures r == into + Prefixed("xml_", Named(data))
  {
    r := into;
    var i := 0;
    while i < |data|
      invariant 0 <= i <= |data|
      invariant r == into + Prefixed("xml_", Named(data[..i]))
    {
      assert data[..i + 1][..i] == data[..i];
      if data[i].name != "" {
        PrefixedPut("xml_", Named(data[..i]), data[i].name, data[i].value);
        UnionPut(into, Prefixed("xml_", Named(data[..i])), "xml_" + data[i].name, Str(data[i].value));
        r := r["xml_" + data[i].name := Str(data[i].value)];
      }
      i := i + 1;
    }
    assert data[..|data|] == data;
  }

  // ---------------------------------------------------------------------
  // Enrichment
  // ---------------------------------------------------------------------

  /** What an EventData name feeds, by the first of these it mentions (lower-cased). */
  datatype Field = UserName | DomainName | Address | ProcessName | Other

  function FieldOf(name: string): Field
  {
    var n := Lower(name);
    if Contains(n, "targetusername") || Contains(n, "subjectusername") then UserName
    else if Contains(n, "targetdomainname") || Contains(n, "subjectdomainname") then DomainName
    else if Contains(n, "ipaddress") || Contains(n, "workstationname") then Address
    else if Contains(n, "processname") then ProcessName
    else Other
  }

  /** A pair as the enrichment sees it: what it feeds, and its value. */
  datatype Tagged = Tagged(field: Field, value: string)

  function Tags(data: seq<Data>): (ts: seq<Tagged>)
    ensures |ts| == |data| && forall i :: 0 <= i < |data| ==> ts[i] == Tagged(FieldOf(data[i].name), data[i].value)
  {
    seq(|data|, i requires 0 <= i < |data| => Tagged(FieldOf(data[i].name), data[i].value))
  }

  /** The subject account, or an empty one when there is none yet. */
  function AccountOrEmpty(a: Option<Account>): Account
  {
    match a
    case Some(x) => x
    case None => Account("", "", "")
  }

  /** One pair applied: user and domain names overwrite, an address fills an empty one, a process name overwrites. */
  function EnrichStep(e: GostEvent, t: Tagged): GostEvent
  {
    match t.field
    case UserName => e.(subjectAccount := Some(AccountOrEmpty(e.subjectAccount).(username := t.value)))
    case DomainName => e.(subjectAccount := Some(AccountOrEmpty(e.subjectAccount).(domain := t.value)))
    case Address => if e.source.ipAddress == "" then e.(source := e.source.(ipAddress := t.value)) else e
    case ProcessName => e.(source := e.source.(process := t.value))
    case Other => e
  }

  /** The pairs applied in order. */
  function Enriched(e: GostEvent, ts: seq<Tagged>): GostEvent
  {
    if ts == [] then e else EnrichStep(Enriched(e, ts[..|ts| - 1]), ts[|ts| - 1])
  }

  /** The value of the last pair feeding `f`. */
  function LastOf(ts: seq<Tagged>, f: Field): (r: Option<string>)
    ensures r.Some? <==> exists i :: 0 <= i < |ts| && ts[i].field == f
    ensures r.Some? ==> exists i :: 0 <= i < |ts| && ts[i].field == f && r.value == ts[i].value
                                    && forall j :: i < j < |ts| ==> ts[j].field != f
  {
    if ts == [] then None
    else
      var pre := ts[..|ts| - 1];
      assert forall i :: 0 <= i < |pre| ==> pre[i] == ts[i];
      if ts[|ts| - 1].field == f then Some(ts[|ts| - 1].value) else LastOf(pre, f)
  }

  /** The value of the first address pair with a non-empty value, or "". */
  function FirstAddress(ts: seq<Tagged>): (r: string)
    ensures r == "" <==> forall i :: 0 <= i < |ts| ==> ts[i].field != Address || ts[i].value == ""
    ensures r != "" ==> exists i :: 0 <= i < |ts| && ts[i].field == Address && r == ts[i].value
                                    && forall j :: 0 <= j < i ==> ts[j].field != Address || ts[j].value == ""
  {
    if ts == [] then ""
    else if ts[0].field == Address && ts[0].value != "" then ts[0].value
    else
      var r := FirstAddress(ts[1..]);
      assert forall i :: 1 <= i < |ts| ==> ts[i] == ts[1..][i - 1];
      r
  }

  lemma {:induction false} FirstAddressSnoc(a: seq<Tagged>, t: Tagged)
    ensures FirstAddress(a + [t]) == if FirstAddress(a) != "" then FirstAddress(a)
                                     else if t.field == Address then t.value else ""
  {
    if a == [] {
      assert [t][1..] == [];
    } else {
      assert (a + [t])[1..] == a[1..] + [t];
      FirstAddressSnoc(a[1..], t);
    }
  }

  /** `o`'s value, or `d` when there is none. */
  function Override(o: Option<string>, d: string): string
  {
    match o
    case Some(v) => v
    case None => d
  }

  /** An address already set is never overwritten; an empty one takes the first non-empty address pair. */
  lemma {:induction false} EnrichedAddress(e: GostEvent, ts: seq<Tagged>)
    ensures e.source.ipAddress != "" ==> Enriched(e, ts).source.ipAddress == e.source.ipAddress
    ensures e.source.ipAddress == "" ==> Enriched(e, ts).source.ipAddress == FirstAddress(ts)
  {
    if ts != [] {
      var pre := ts[..|ts| - 1];
      var t := ts[|ts| - 1];
      assert ts == pre + [t];
      assert Enriched(e, ts) == EnrichStep(Enriched(e, pre), t);
      EnrichedAddress(e, pre);
      FirstAddressSnoc(pre, t);
    }
  }

  /** The process is that of the last process-name pair, else unchanged. */
  lemma {:induction false} EnrichedProcess(e: GostEvent, ts: seq<Tagged>)
    ensures Enriched(e, ts).source.process == Override(LastOf(ts, ProcessName), e.source.process)
  {
    if ts != [] {
      EnrichedProcess(e, ts[..|ts| - 1]);
    }
  }

  /**
   * A subject exists afterwards exactly when it did before or a user or
   * domain pair occurs. Username and domain are those of the last such
   * pairs, and a user id seeded before is kept.
   */
  lemma {:induction false} EnrichedSubject(e: GostEvent, ts: seq<Tagged>)
    ensures Enriched(e, ts).subjectAccount.Some? <==>
              e.subjectAccount.Some? || LastOf(ts, UserName).Some? || LastOf(ts, DomainName).Some?
    ensures Enriched(e, ts).subjectAccount.Some? ==>
              Enriched(e, ts).subjectAccount.value ==
                Account(Override(LastOf(ts, UserName), AccountOrEmpty(e.subjectAccount).username),
                        Override(LastOf(ts, DomainName), AccountOrEmpty(e.subjectAccount).domain),
                        AccountOrEmpty(e.subjectAccount).userId)
  {
    if ts != [] {
      EnrichedSubject(e, ts[..|ts| - 1]);
    }
  }

  /** Everything but the subject, the address and the process is left as it was. */
  lemma {:induction false} EnrichedKeeps(e: GostEvent, ts: seq<Tagged>)
    ensures var r := Enriched(e, ts);
            r.timestamp == e.timestamp && r.category == e.category && r.severity == e.severity
            && r.description == e.description && r.additionalData == e.additionalData
            && r.objectAccount == e.objectAccount && r.result == e.result && r.action == e.action
            && r.source.hostname == e.source.hostname && r.source.application == e.source.application
            && r.source.processId == e.source.processId
  {
    if ts != [] {
      EnrichedKeeps(e, ts[..|ts| - 1]);
    }
  }

  /** Walks the pairs and updates the record as the first matching rule says. */
  method Enrich(e: GostEvent, data: seq<Data>) returns (r: GostEvent)
    ensures r == Enriched(e, Tags(data))
  {
    r := e;
    var i := 0;
    while i < |data|
      invariant 0 <= i <= |data|
      invariant r == Enriched(e, Tags(data[..i]))
    {
      ghost var done := Tags(data[..i + 1]);
      assert done[..i] == Tags(data[..i]);
      assert done[i] == Tagged(FieldOf(data[i].name), data[i].value);
      var d := data[i];
      var name := Lower(d.name);
      if Contains(name, "targetusername") || Contains(name, "subjectusername") {
        var account := if r.subjectAccount.None? then Account("", "", "") else r.subjectAccount.value;
        r := r.(subjectAccount := Some(account.(username := d.value)));
      } else if Contains(name, "targetdomainname") || Contains(name, "subjectdomainname") {
        var account := if r.subjectAccount.None? then Account("", "", "") else r.subjectAccount.value;
        r := r.(subjectAccount := Some(account.(domain := d.value)));
      } else if Contains(name, "ipaddress") || Contains(name, "workstationname") {
        if r.source.ipAddress == "" {
          r := r.(source := r.source.(ipAddress := d.value));
        }
      } else if Contains(name, "processname") {
        r := r.(source := r.source.(process := d.value));
      }
      i := i + 1;
    }
    assert data[..|data|] == data;
  }

  // ---------------------------------------------------------------------
  // Events
  // ---------------------------------------------------------------------

  /** An account holding only the System user id, when there is one. */
  function Seeded(userId: string): Option<Account>
  {
    if userId != "" then Some(Account("", "", userId)) else None
  }

  /** The record before enrichment. */
  function BaseEvent(ev: Event, rt: Runtime): GostEvent
  {
    var sys := ev.system;
    GostEvent(
      OrNow(rt.parseTime(RFC3339Nano, sys.systemTime), rt),
      Source(sys.computer, "", sys.providerName, "", sys.processId),
      Categorize(ev),
      LevelSeverity(sys.level),
      Description(ev),
      AdditionalData(ev),
      Seeded(sys.userId),
      None,
      ResultOf(ev),
      "")
  }

  function ToEvent(ev: Event, rt: Runtime): GostEvent
  {
    Enriched(BaseEvent(ev, rt), Tags(ev.data))
  }

  /** What parsing a document yields: the record, or the decoder's rejection. */
  function Normalize(text: string, rt: Runtime): Result<GostEvent, ParseError>
  {
    match rt.decodeXml(text)
    case None => Err(XmlDecodeFailure)
    case Some(ev) => Ok(ToEvent(ev, rt))
  }

  /**
   * The subject of a parsed record: present when the System user id is set
   * or a user or domain pair occurs, carrying the user id and the last user
   * and domain names.
   */
  lemma SubjectOf(ev: Event, rt: Runtime)
    ensures ToEvent(ev, rt).subjectAccount.Some? <==>
              ev.system.userId != "" || LastOf(Tags(ev.data), UserName).Some? || LastOf(Tags(ev.data), DomainName).Some?
    ensures ToEvent(ev, rt).subjectAccount.Some? ==>
              ToEvent(ev, rt).subjectAccount.value ==
                Account(Override(LastOf(Tags(ev.data), UserName), ""), Override(LastOf(Tags(ev.data), DomainName), ""), ev.system.userId)
  {
    EnrichedSubject(BaseEvent(ev, rt), Tags(ev.data));
  }

  /** The address of a parsed record is the first non-empty address pair, or "". */
  lemma AddressOf(ev: Event, rt: Runtime)
    ensures ToEvent(ev, rt).source.ipAddress == FirstAddress(Tags(ev.data))
  {
    EnrichedAddress(BaseEvent(ev, rt), Tags(ev.data));
  }

  /** Parsing: decode, then the record built field by field, then enriched. */
  method Parse(text: string, rt: Runtime) returns (r: Result<GostEvent, ParseError>)
    ensures r == Normalize(text, rt)
  {
    var decoded := rt.decodeXml(text);
    if decoded.None? {
      return Err(XmlDecodeFailure);
    }
    var ev := decoded.value;
    var sys := ev.system;
    var timestamp := rt.now;
    var t := rt.parseTime(RFC3339Nano, sys.systemTime);
    if t.Some? {
      timestamp := t.value;
    }
    var description := BuildDescription(ev);
    var data := CopyEventData(SystemData(sys), ev.data);
    var subject: Option<Account> := None;
    if sys.userId != "" {
      subject := Some(Account("", "", sys.userId));
    }
    var event := GostEvent(timestamp, Source(sys.computer, "", sys.providerName, "", sys.processId),
                           Categorize(ev), LevelSeverity(sys.level), description, data, subject, None,
                           ResultOf(ev), "");
    assert event == BaseEvent(ev, rt);
    event := Enrich(event, ev.data);
    r := Ok(event);
  }
}
