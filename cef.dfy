/**
 * The Common Event Format parser: the `CEF:` header with its seven
 * pipe-terminated fields, the space-separated `key=value` extension, and
 * the mapping of header and extension onto the normalised record.
 */
module Cef {
  import opened Wrappers
  import opened Text
  import opened Gost

  // ---------------------------------------------------------------------
  // Header
  // ---------------------------------------------------------------------

  /** The captured groups of a CEF line. */
  datatype Header = Header(
    version: string,
    deviceVendor: string,
    deviceProduct: string,
    deviceVersion: string,
    signatureId: string,
    name: string,
    severity: string,
    extension: string)

  /**
   * `CEF:` and the version digits, then six fields each ended by `|` (a
   * field may hold anything but `|`, newlines included), then the extension,
   * which runs to the end of the text and holds no newline.
   */
  function MatchHeader(line: string): Option<Header>
  {
    var a :- Expect(line, "CEF:");
    var ver :- Run(a, Digit);
    var b :- Expect(ver.rest, "|");
    var fs :- CutFields(b, '|', 6);
    var ext :- LineRest(fs.1);
    var f := fs.0;
    Some(Header(ver.field, f[0], f[1], f[2], f[3], f[4], f[5], ext))
  }

  /** The six pipe-terminated header fields, in order. */
  function HeaderFields(h: Header): seq<string>
  {
    [h.deviceVendor, h.deviceProduct, h.deviceVersion, h.signatureId, h.name, h.severity]
  }

  predicate WFHeader(h: Header)
  {
    AllDigits(h.version)
    && (forall i :: 0 <= i < 6 ==> Free(HeaderFields(h)[i], '|'))
    && AllIn(h.extension, LineChar)
  }

  /** The line a header is read from. */
  function Render(h: Header): string
  {
    "CEF:" + (h.version + ("|" + (Terminated(HeaderFields(h), '|') + h.extension)))
  }

  /** Every well-formed header is read back from its rendering. */
  lemma MatchRender(h: Header)
    requires WFHeader(h)
    ensures MatchHeader(Render(h)) == Some(h)
  {
    var fields := Terminated(HeaderFields(h), '|') + h.extension;
    ExpectOf("CEF:", h.version + ("|" + fields));
    RunOf(h.version, "|" + fields, Digit);
    ExpectOf("|", fields);
    CutFieldsOf(HeaderFields(h), '|', h.extension);
  }

  /** Whatever `MatchHeader` accepts is well formed and is the rendering of its groups. */
  lemma MatchSound(line: string)
    requires MatchHeader(line).Some?
    ensures WFHeader(MatchHeader(line).value)
    ensures line == Render(MatchHeader(line).value)
  {
    var h := MatchHeader(line).value;
    var a := Expect(line, "CEF:").value;
    var ver := Run(a, Digit).value;
    var b := Expect(ver.rest, "|").value;
    var fs := CutFields(b, '|', 6).value;
    assert fs.0 == HeaderFields(h);
    CutFieldsParts(b, '|', 6);
    ExpectParts(line, "CEF:");
    RunParts(a, Digit);
    ExpectParts(ver.rest, "|");
  }

  /** A line is accepted exactly when it is the rendering of a well-formed header. */
  lemma MatchIff(line: string, h: Header)
    ensures MatchHeader(line) == Some(h) <==> WFHeader(h) && line == Render(h)
  {
    if MatchHeader(line) == Some(h) {
      MatchSound(line);
    }
    if WFHeader(h) && line == Render(h) {
      MatchRender(h);
    }
  }

  // ---------------------------------------------------------------------
  // Extension
  // ---------------------------------------------------------------------

  /** The extension map: its blank-separated `key=value` tokens, later keys overwriting earlier ones. */
  function Extensions(extension: string): map<string, string>
  {
    KeyValues(Split(extension, ' '), false)
  }

  /** An extension key holds neither a blank nor '='. */
  lemma ExtensionKeys(extension: string, k: string)
    requires k in Extensions(extension)
    ensures Free(k, ' ') && Free(k, '=')
  {
    var parts := Split(extension, ' ');
    KeyValuesLastWins(parts, false, k);
    var i :| 0 <= i < |parts| && Entry(parts[i], false) == Some((k, KeyValues(parts, false)[k]))
             && forall j :: i < j < |parts| ==> !KeyedBy(parts[j], false, k);
    EntryShape(parts[i], false);
    UntilParts(parts[i], '=');
    var kv := Until(parts[i], '=').value;
    assert forall j :: 0 <= j < |kv.field| ==> kv.field[j] == parts[i][j];
  }

  /** The extension split on single blanks, and every `key=value` token stored in turn. */
  method ParseExtensions(extension: string) returns (m: map<string, string>)
    ensures m == Extensions(extension)
  {
    var parts := Split(extension, ' ');
    m := StoreEntries(parts, false);
  }

  // ---------------------------------------------------------------------
  // Vocabulary
  // ---------------------------------------------------------------------

  /** The numeric severity threshold ladder. */
  function Ladder(n: int): (s: Severity)
    ensures n >= 8 <==> s == Critical
    ensures 6 <= n < 8 <==> s == High
    ensures 4 <= n < 6 <==> s == Medium
    ensures 2 <= n < 4 <==> s == Low
    ensures n < 2 <==> s == Info
  {
    if n >= 8 then Critical
    else if n >= 6 then High
    else if n >= 4 then Medium
    else if n >= 2 then Low
    else Info
  }

  /** A higher number never gives a less severe level. */
  lemma LadderMonotone(a: int, b: int)
    requires a <= b
    ensures Rank(Ladder(a)) <= Rank(Ladder(b))
  {
  }

  /** The header severity: an integer through the ladder, anything else informational. */
  function SeverityOf(severity: string): (s: Severity)
    ensures Atoi(severity).None? ==> s == Info
    ensures Atoi(severity).Some? ==> s == Ladder(Atoi(severity).value)
  {
    match Atoi(severity)
    case Some(n) => Ladder(n)
    case None => Info
  }

  const CategoryRules: seq<Rule<Category>> := [
    Rule(["login", "logon", "authentication"], Authentication),
    Rule(["access", "denied", "permission"], Access),
    Rule(["modify", "change", "update", "delete"], DataModification),
    Rule(["network", "connection", "firewall"], NetworkEvent),
    Rule(["security", "threat", "attack", "malware"], SecurityEvent)]

  /** The first keyword group the lower-cased event name mentions decides; else a system event. */
  function Categorize(name: string): (c: Category)
    ensures forall i :: FirstApplies(Lower(name), CategoryRules, i) ==> c == CategoryRules[i].outcome
    ensures (forall i :: 0 <= i < |CategoryRules| ==> !AnyIn(Lower(name), CategoryRules[i].words)) ==> c == SystemEvent
  {
    FirstMatch(Lower(name), CategoryRules, SystemEvent)
  }

  function OutcomeVerdict(ext: map<string, string>): Option<EventResult>
  {
    KeyVerdict(ext, "outcome", ["success"], ["fail", "deny"])
  }

  function ActVerdict(ext: map<string, string>): Option<EventResult>
  {
    KeyVerdict(ext, "act", ["allow", "permit"], ["block", "deny"])
  }

  /** A conclusive `outcome` decides; otherwise a conclusive `act`; otherwise the result is unknown. */
  function ResultOf(ext: map<string, string>): (r: EventResult)
    ensures OutcomeVerdict(ext).Some? ==> r == OutcomeVerdict(ext).value
    ensures OutcomeVerdict(ext).None? && ActVerdict(ext).Some? ==> r == ActVerdict(ext).value
    ensures r == Unknown <==> OutcomeVerdict(ext).None? && ActVerdict(ext).None?
  {
    match OutcomeVerdict(ext)
    case Some(v) => v
    case None =>
      match ActVerdict(ext)
      case Some(v) => v
      case None => Unknown
  }

  /** Only `outcome` and `act` are consulted: the other keys never change the result. */
  lemma ResultOnlyReadsOutcomeAndAct(ext: map<string, string>, k: string, v: string)
    requires k != "outcome" && k != "act"
    ensures ResultOf(ext[k := v]) == ResultOf(ext)
  {
    assert OutcomeVerdict(ext[k := v]) == OutcomeVerdict(ext);
    assert ActVerdict(ext[k := v]) == ActVerdict(ext);
  }

  /** A conclusive `outcome` cannot be overruled by `act`. */
  lemma OutcomeOverridesAct(ext: map<string, string>, v: string)
    requires OutcomeVerdict(ext).Some?
    ensures ResultOf(ext["act" := v]) == ResultOf(ext)
  {
    assert OutcomeVerdict(ext["act" := v]) == OutcomeVerdict(ext);
  }

  // ---------------------------------------------------------------------
  // Time
  // ---------------------------------------------------------------------

  const TimeLayouts: seq<string> := [RFC3339, "Jan 02 2006 15:04:05", "2006-01-02 15:04:05", "1136239445000"]

  /**
   * The first layout that parses the text; failing all of them, a 64-bit
   * count of milliseconds since the epoch, scaled to nanoseconds with 64-bit
   * wrap-around.
   */
  function ParseTime(text: string, rt: Runtime): (t: Option<Instant>)
    ensures FirstParse(rt, TimeLayouts, text).Some? ==> t == FirstParse(rt, TimeLayouts, text)
    ensures FirstParse(rt, TimeLayouts, text).None? && Atoi(text).Some? ==> t == Some(Wrap64(Atoi(text).value * 1_000_000))
    ensures t.None? <==> FirstParse(rt, TimeLayouts, text).None? && Atoi(text).None?
  {
    var t := FirstParse(rt, TimeLayouts, text);
    if t.Some? then t
    else
      match Atoi(text)
      case Some(ms) => Some(Wrap64(ms * 1_000_000))
      case None => None
  }

  /** The time of `rt` when that key is present, else that of `end`, else the processing time. */
  function Timestamp(ext: map<string, string>, rt: Runtime): Instant
  {
    if "rt" in ext then OrNow(ParseTime(ext["rt"], rt), rt)
    else if "end" in ext then OrNow(ParseTime(ext["end"], rt), rt)
    else rt.now
  }

  /** Once `rt` is present `end` is never consulted, even when `rt` does not parse. */
  lemma RtShadowsEnd(ext: map<string, string>, rt: Runtime, v: string)
    requires "rt" in ext
    ensures Timestamp(ext["end" := v], rt) == Timestamp(ext, rt)
    ensures ParseTime(ext["rt"], rt).None? ==> Timestamp(ext, rt) == rt.now
  {
    assert ext["end" := v]["rt"] == ext["rt"];
  }

  // ---------------------------------------------------------------------
  // Events
  // ---------------------------------------------------------------------

  /** The account named by `userKey`, with its domain from `domainKey`, when `userKey` is present. */
  function AccountOf(ext: map<string, string>, userKey: string, domainKey: string): (a: Option<Account>)
    ensures a.Some? <==> userKey in ext
    ensures a.Some? ==> a.value == Account(ext[userKey], Get(ext, domainKey), "")
  {
    if userKey in ext then Some(Account(ext[userKey], Get(ext, domainKey), "")) else None
  }

  /** The header entries of the additional data. */
  function HeaderData(h: Header): map<string, Value>
  {
    map["cef_version" := Str(h.version), "device_vendor" := Str(h.deviceVendor),
        "device_product" := Str(h.deviceProduct), "device_version" := Str(h.deviceVersion),
        "signature_id" := Str(h.signatureId), "cef_severity" := Str(h.severity)]
  }

  /** The additional data: the header entries, then every extension entry under `cef_`. */
  function Data(h: Header, ext: map<string, string>): map<string, Value>
  {
    HeaderData(h) + Prefixed("cef_", ext)
  }

  /** The record a header and its extension map produce. */
  function ToEvent(h: Header, ext: map<string, string>, rt: Runtime): GostEvent
  {
    GostEvent(
      Timestamp(ext, rt),
      Source(FirstNonEmpty(ext, ["dvc", "shost", "dvchost"]), FirstNonEmpty(ext, ["src", "dst"]),
             h.deviceVendor + " " + h.deviceProduct, "", 0),
      Categorize(h.name),
      SeverityOf(h.severity),
      h.name,
      Data(h, ext),
      AccountOf(ext, "suser", "sdomain"),
      AccountOf(ext, "duser", "ddomain"),
      ResultOf(ext),
      Get(ext, "act"))
  }

  /** What parsing a line yields: the record, or the rejection of a line that is not CEF. */
  function Normalize(line: string, rt: Runtime): Result<GostEvent, ParseError>
  {
    match MatchHeader(line)
    case None => Err(InvalidCef)
    case Some(h) => Ok(ToEvent(h, Extensions(h.extension), rt))
  }

  /**
   * The accounts and the action of a CEF record: `suser` and `duser`, with
   * the domains `sdomain` and `ddomain`, name the subject and the object,
   * and the action is `act` or "".
   */
  lemma EventAccounts(h: Header, ext: map<string, string>, rt: Runtime)
    ensures ToEvent(h, ext, rt).subjectAccount.Some? <==> "suser" in ext
    ensures ToEvent(h, ext, rt).objectAccount.Some? <==> "duser" in ext
    ensures "suser" in ext ==> ToEvent(h, ext, rt).subjectAccount.value.username == ext["suser"]
    ensures "duser" in ext ==> ToEvent(h, ext, rt).objectAccount.value.username == ext["duser"]
    ensures "suser" in ext ==> ToEvent(h, ext, rt).subjectAccount == Some(Account(ext["suser"], Get(ext, "sdomain"), ""))
    ensures "duser" in ext ==> ToEvent(h, ext, rt).objectAccount == Some(Account(ext["duser"], Get(ext, "ddomain"), ""))
    ensures ToEvent(h, ext, rt).action == Get(ext, "act")
    ensures ToEvent(h, ext, rt).description == h.name
  {
  }

  /** Every extension key is stored under `cef_`, and wins over a header entry of the same name. */
  lemma ExtensionData(h: Header, ext: map<string, string>)
    ensures forall k :: k in ext ==> "cef_" + k in Data(h, ext) && Data(h, ext)["cef_" + k] == Str(ext[k])
  {
  }

  lemma NotCefKey(key: string)
    requires |key| >= 4 && key[0] != 'c'
    ensures !HasPrefix(key, "cef_")
  {
    assert key[..4][0] == key[0];
  }

  /** The device and signature entries are never shadowed: no extension key reaches them. */
  lemma DeviceDataKept(h: Header, ext: map<string, string>)
    ensures Data(h, ext)["device_vendor"] == Str(h.deviceVendor)
    ensures Data(h, ext)["device_product"] == Str(h.deviceProduct)
    ensures Data(h, ext)["device_version"] == Str(h.deviceVersion)
    ensures Data(h, ext)["signature_id"] == Str(h.signatureId)
  {
    KeptEntry(h, ext, "device_vendor");
    KeptEntry(h, ext, "device_product");
    KeptEntry(h, ext, "device_version");
    KeptEntry(h, ext, "signature_id");
  }

  lemma KeptEntry(h: Header, ext: map<string, string>, key: string)
    requires key in HeaderData(h) && |key| >= 4 && key[0] != 'c'
    ensures key in Data(h, ext) && Data(h, ext)[key] == HeaderData(h)[key]
  {
    NotCefKey(key);
  }

  /** The header version and severity are kept unless an extension key `version` or `severity` overwrites them. */
  lemma ShadowedDataKept(h: Header, ext: map<string, string>)
    ensures "version" !in ext ==> Data(h, ext)["cef_version"] == Str(h.version)
    ensures "severity" !in ext ==> Data(h, ext)["cef_severity"] == Str(h.severity)
    ensures "version" in ext ==> Data(h, ext)["cef_version"] == Str(ext["version"])
    ensures "severity" in ext ==> Data(h, ext)["cef_severity"] == Str(ext["severity"])
  {
    assert "cef_version" == "cef_" + "version";
    assert "cef_severity" == "cef_" + "severity";
  }

  /** Nothing else is stored: each key is a header entry or an extension key under `cef_`. */
  lemma DataKeys(h: Header, ext: map<string, string>)
    ensures forall key :: key in Data(h, ext) ==> key in HeaderData(h) || (HasPrefix(key, "cef_") && key[4..] in ext)
  {
  }

  /** Parsing: the header, then the extension map, then the record. */
  method Parse(line: string, rt: Runtime) returns (r: Result<GostEvent, ParseError>)
    ensures r == Normalize(line, rt)
  {
    var m := MatchHeader(line);
    if m.None? {
      return Err(InvalidCef);
    }
    var h := m.value;
    var ext := ParseExtensions(h.extension);
    var event := Assemble(h, ext, rt);
    r := Ok(event);
  }

  /** The record assembled step by step from the header and the extension map. */
  method Assemble(h: Header, ext: map<string, string>, rt: Runtime) returns (e: GostEvent)
    ensures e == ToEvent(h, ext, rt)
  {
    var timestamp := rt.now;
    if "rt" in ext {
      var t := ParseTime(ext["rt"], rt);
      if t.Some? {
        timestamp := t.value;
      }
    } else if "end" in ext {
      var t := ParseTime(ext["end"], rt);
      if t.Some? {
        timestamp := t.value;
      }
    }
    assert timestamp == Timestamp(ext, rt);
    var subject: Option<Account> := None;
    if "suser" in ext {
      subject := Some(Account(ext["suser"], Get(ext, "sdomain"), ""));
    }
    var target: Option<Account> := None;
    if "duser" in ext {
      target := Some(Account(ext["duser"], Get(ext, "ddomain"), ""));
    }
    var action := "";
    if "act" in ext {
      action := ext["act"];
    }
    var data := PutPrefixed(HeaderData(h), "cef_", ext);
    var source := Source(FirstNonEmpty(ext, ["dvc", "shost", "dvchost"]), FirstNonEmpty(ext, ["src", "dst"]),
                         h.deviceVendor + " " + h.deviceProduct, "", 0);
    e := GostEvent(timestamp, source, Categorize(h.name), SeverityOf(h.severity), h.name, data,
                   subject, target, ResultOf(ext), action);
  }
}
