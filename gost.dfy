/**
 * The canonical security event every parser produces (a record in the
 * GOST R 59710-2021 layout), its closed vocabularies, and the collaborators
 * outside the engine that parsing consults: the clock, the time-layout
 * parser and the XML decoder.
 */
module Gost {
  import opened Wrappers
  import opened Text
  import XmlSchema

  /** The five-level criticality scale, from most to least severe. */
  datatype Severity = Critical | High | Medium | Low | Info

  datatype Category =
    | Authentication
    | Authorization
    | Access
    | DataModification
    | SystemEvent
    | SecurityEvent
    | NetworkEvent

  /** Outcome of the recorded action. */
  datatype EventResult = Success | Failure | Unknown

  /** The wire labels the record carries for each enumeration value. */
  function SeverityLabel(s: Severity): string
  {
    match s
    case Critical => "КРИТИЧЕСКИЙ"
    case High => "ВЫСОКИЙ"
    case Medium => "СРЕДНИЙ"
    case Low => "НИЗКИЙ"
    case Info => "ИНФОРМАЦИОННЫЙ"
  }

  function ResultLabel(r: EventResult): string
  {
    match r
    case Success => "УСПЕХ"
    case Failure => "НЕУСПЕХ"
    case Unknown => "НЕИЗВЕСТНО"
  }

  function CategoryLabel(c: Category): string
  {
    match c
    case Authentication => "АУТЕНТИФИКАЦИЯ"
    case Authorization => "АВТОРИЗАЦИЯ"
    case Access => "ДОСТУП"
    case DataModification => "ИЗМЕНЕНИЕ_ДАННЫХ"
    case SystemEvent => "СИСТЕМНОЕ_СОБЫТИЕ"
    case SecurityEvent => "СОБЫТИЕ_БЕЗОПАСНОСТИ"
    case NetworkEvent => "СЕТЕВОЕ_СОБЫТИЕ"
  }

  /** Position on the severity scale: a higher rank is more severe. */
  function Rank(s: Severity): nat
  {
    match s
    case Critical => 4
    case High => 3
    case Medium => 2
    case Low => 1
    case Info => 0
  }

  /** A value stored under a key of `additionalData`: a string or an integer. */
  datatype Value = Str(s: string) | Int(i: int)

  datatype Source = Source(hostname: string, ipAddress: string, application: string, process: string, processId: int)

  datatype Account = Account(username: string, domain: string, userId: string)

  /** A point in time, as nanoseconds since the Unix epoch. */
  type Instant = int

  /** The normalised record. Its fresh random identifier is not modelled. */
  datatype GostEvent = GostEvent(
    timestamp: Instant,
    source: Source,
    category: Category,
    severity: Severity,
    description: string,
    additionalData: map<string, Value>,
    subjectAccount: Option<Account>,
    objectAccount: Option<Account>,
    result: EventResult,
    action: string)

  /** Why a line produced no event. */
  datatype ParseError =
    | UnknownLogType      // the detector recognised no format
    | UnsupportedSyslog   // neither syslog shape matched
    | InvalidCef          // the CEF header pattern did not match
    | InvalidLeef         // the LEEF header pattern did not match
    | XmlDecodeFailure    // the XML decoder rejected the document

  /**
   * What the engine takes from its surroundings: the processing time, the
   * time-layout parser (layout, text), the re-stamping of a year-less
   * time into the current year, and the XML decoder.
   */
  datatype Runtime = Runtime(
    now: Instant,
    parseTime: (string, string) -> Option<Instant>,
    withCurrentYear: Instant -> Instant,
    decodeXml: string -> Option<XmlSchema.Event>)

  const RFC3339 := "2006-01-02T15:04:05Z07:00"
  const RFC3339Nano := "2006-01-02T15:04:05.999999999Z07:00"

  /** The time given by the first layout that parses `text`, if any does. */
  function FirstParse(rt: Runtime, layouts: seq<string>, text: string): (r: Option<Instant>)
    ensures r.Some? <==> exists i :: 0 <= i < |layouts| && rt.parseTime(layouts[i], text).Some?
    ensures r.Some? ==> exists i :: 0 <= i < |layouts| && r == rt.parseTime(layouts[i], text)
                                   && forall j :: 0 <= j < i ==> rt.parseTime(layouts[j], text).None?
  {
    if layouts == [] then None
    else if rt.parseTime(layouts[0], text).Some? then rt.parseTime(layouts[0], text)
    else
      var r := FirstParse(rt, layouts[1..], text);
      assert forall i :: 1 <= i < |layouts| ==> layouts[i] == layouts[1..][i - 1];
      r
  }

  /**
   * What a status text says about the outcome: success when it mentions a
   * success word, else failure when it mentions a failure word, else nothing.
   */
  function Verdict(text: string, success: seq<string>, failure: seq<string>): (r: Option<EventResult>)
    ensures r == Some(Success) <==> AnyIn(text, success)
    ensures r == Some(Failure) <==> !AnyIn(text, success) && AnyIn(text, failure)
    ensures r.None? <==> !AnyIn(text, success) && !AnyIn(text, failure)
  {
    if AnyIn(text, success) then Some(Success)
    else if AnyIn(text, failure) then Some(Failure)
    else None
  }

  /** What the key `k`, when present, says about the outcome. */
  function KeyVerdict(ext: map<string, string>, k: string, success: seq<string>, failure: seq<string>): Option<EventResult>
  {
    if k in ext then Verdict(Lower(ext[k]), success, failure) else None
  }

  /** The time itself, or the processing time when there is none. */
  function OrNow(t: Option<Instant>, rt: Runtime): Instant
  {
    match t
    case Some(v) => v
    case None => rt.now
  }

  /** The value under `k`, or "" when `k` is absent (a Go map read). */
  function Get(m: map<string, string>, k: string): string
  {
    if k in m then m[k] else ""
  }

  predicate Filled(m: map<string, string>, k: string)
  {
    k in m && m[k] != ""
  }

  /** The value of the first listed key that is present with a non-empty value, else "". */
  function FirstNonEmpty(m: map<string, string>, keys: seq<string>): (v: string)
    ensures v == "" <==> forall i :: 0 <= i < |keys| ==> !Filled(m, keys[i])
    ensures v != "" ==> exists i :: 0 <= i < |keys| && Filled(m, keys[i]) && v == m[keys[i]]
                                    && forall j :: 0 <= j < i ==> !Filled(m, keys[j])
  {
    if keys == [] then ""
    else if Filled(m, keys[0]) then m[keys[0]]
    else
      var v := FirstNonEmpty(m, keys[1..]);
      assert forall i :: 1 <= i < |keys| ==> keys[i] == keys[1..][i - 1];
      v
  }

  lemma PrefixCancel(p: string, a: string, b: string)
    ensures p + a == p + b ==> a == b
  {
    if p + a == p + b {
      assert a == (p + a)[|p|..];
      assert b == (p + b)[|p|..];
    }
  }

  /** Every entry of `m` re-keyed under `prefix`, as a string value. */
  function Prefixed(prefix: string, m: map<string, string>): (r: map<string, Value>)
    ensures forall k :: k in m ==> prefix + k in r && r[prefix + k] == Str(m[k])
    ensures forall key :: key in r ==> HasPrefix(key, prefix) && key[|prefix|..] in m
  {
    assert forall a, b :: prefix + a == prefix + b ==> a == b by {
      forall a, b ensures prefix + a == prefix + b ==> a == b {
        PrefixCancel(prefix, a, b);
      }
    }
    var r := map k | k in m :: prefix + k := Str(m[k]);
    assert forall key :: key in r ==> HasPrefix(key, prefix) && key[|prefix|..] in m by {
      forall key | key in r ensures HasPrefix(key, prefix) && key[|prefix|..] in m {
        var k :| k in m && key == prefix + k;
        assert key[..|prefix|] == prefix && key[|prefix|..] == k;
      }
    }
    r
  }

  /** Adding one entry to `m` adds its prefixed counterpart to `Prefixed(prefix, m)`. */
  lemma PrefixedPut(prefix: string, m: map<string, string>, k: string, v: string)
    ensures Prefixed(prefix, m[k := v]) == Prefixed(prefix, m)[prefix + k := Str(v)]
  {
    var lhs := Prefixed(prefix, m[k := v]);
    var rhs := Prefixed(prefix, m)[prefix + k := Str(v)];
    forall key | key in lhs ensures key in rhs && lhs[key] == rhs[key] {
      var j := key[|prefix|..];
      assert key == prefix + j;
      PrefixCancel(prefix, j, k);
    }
    forall key | key in rhs ensures key in lhs {
      if key != prefix + k {
        assert key == prefix + key[|prefix|..];
      }
    }
  }

  lemma UnionPut(a: map<string, Value>, b: map<string, Value>, x: string, v: Value)
    ensures (a + b)[x := v] == a + b[x := v]
  {
  }

  lemma MinusStep(m: map<string, string>, todo: set<string>, k: string)
    requires k in todo && todo <= m.Keys
    ensures m - (todo - {k}) == (m - todo)[k := m[k]]
  {
  }

  /**
   * Writes every entry of `m` into `data` under `prefix`, one key at a time;
   * a written key replaces an entry already there.
   */
  method PutPrefixed(data: map<string, Value>, prefix: string, m: map<string, string>) returns (r: map<string, Value>)
    ensures r == data + Prefixed(prefix, m)
  {
    r := data;
    ghost var done: map<string, string> := map[];
    var todo := m.Keys;
    while todo != {}
      invariant todo <= m.Keys
      invariant done == m - todo
      invariant r == data + Prefixed(prefix, done)
      decreases todo
    {
      var k :| k in todo;
      PrefixedPut(prefix, done, k, m[k]);
      UnionPut(data, Prefixed(prefix, done), prefix + k, Str(m[k]));
      MinusStep(m, todo, k);
      r := r[prefix + k := Str(m[k])];
      done := done[k := m[k]];
      todo := todo - {k};
    }
    assert done == m;
  }
}
