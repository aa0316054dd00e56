/**
 * The Log Event Extended Format parser: the `LEEF:` header with its five
 * pipe-terminated fields, the attribute list whose delimiter depends on the
 * version, and the mapping of header and attributes onto the normalised
 * record.
 */
module Leef {
  import opened Wrappers
  import opened Text
  import opened Gost

  // ---------------------------------------------------------------------
  // Header
  // ---------------------------------------------------------------------

  /** The captured groups of a LEEF line. */
  datatype Header = Header(
    version: string,
    vendor: string,
    product: string,
    productVersion: string,
    eventId: string,
    attributes: string)

  /**
   * `LEEF:` and a version of digits and dots, then four fields each ended by
   * `|`, then the attributes, which run to the end of the text and hold no
   * newline.
   */
  function MatchHeader(line: string): Option<Header>
  {
    var a :- Expect(line, "LEEF:");
    var ver :- Run(a, VersionChar);
    var b :- Expect(ver.rest, "|");
    var fs :- CutFields(b, '|', 4);
    var attrs :- LineRest(fs.1);
    var f := fs.0;
    Some(Header(ver.field, f[0], f[1], f[2], f[3], attrs))
  }

  /** The four pipe-terminated header fields, in order. */
  function HeaderFields(h: Header): seq<string>
  {
    [h.vendor, h.product, h.productVersion, h.eventId]
  }

  predicate WFHeader(h: Header)
  {
    h.version != [] && AllIn(h.version, VersionChar)
    && (forall i :: 0 <= i < 4 ==> Free(HeaderFields(h)[i], '|'))
    && AllIn(h.attributes, LineChar)
  }

  /** The line a header is read from. */
  function Render(h: Header): string
  {
    "LEEF:" + (h.version + ("|" + (Terminated(HeaderFields(h), '|') + h.attributes)))
  }

  /** Every well-formed header is read back from its rendering. */
  lemma MatchRender(h: Header)
    requires WFHeader(h)
    ensures MatchHeader(Render(h)) == Some(h)
  {
    var fields := Terminated(HeaderFields(h), '|') + h.attributes;
    ExpectOf("LEEF:", h.version + ("|" + fields));
    RunOf(h.version, "|" + fields, VersionChar);
    ExpectOf("|", fields);
    CutFieldsOf(HeaderFields(h), '|', h.attributes);
  }

  /** Whatever `MatchHeader` accepts is well formed and is the rendering of its groups. */
  lemma MatchSound(line: string)
    requires MatchHeader(line).Some?
    ensures WFHeader(MatchHeader(line).value)
    ensures line == Render(MatchHeader(line).value)
  {
    var h := MatchHeader(line).value;
    var a := Expect(line, "LEEF:").value;
    var ver := Run(a, VersionChar).value;
    var b := Expect(ver.rest, "|").value;
    var fs := CutFields(b, '|', 4).value;
    assert fs.0 == HeaderFields(h);
    CutFieldsParts(b, '|', 4);
    ExpectParts(line, "LEEF:");
    RunParts(a, VersionChar);
    ExpectParts(ver.rest, "|");
  }

  /** A line is accepted exactly when it is the rendering of a well-formed header. */
  lemma MatchIff(line: string, h: Header)
    ensures MatchHeader(line) == Some(h) <==> WFHeader(h) && line == Render(h)
  {
    if MatchHeader(line) == Some(h) {
      MatchSound(line);
    }
    if WFHeader(h) && line == Render(h) {
      MatchRender(h);
    }
  }

  // ---------------------------------------------------------------------
  // Attributes
  // ---------------------------------------------------------------------

  /** How the attributes are separated: a tab, the escape `x09` standing for a tab, or `^`. */
  datatype Delimiter = Tab | EscapedTab | Caret

  /** Only version "2.0" may change the tab: to `x09` when it occurs, else to `^` when that occurs. */
  function DelimiterOf(version: string, attributes: string): (d: Delimiter)
    ensures version != "2.0" ==> d == Tab
    ensures version == "2.0" ==> (d == EscapedTab <==> Contains(attributes, "x09"))
    ensures version == "2.0" ==> (d == Caret <==> !Contains(attributes, "x09") && Contains(attributes, "^"))
  {
    if version == "2.0" then
      if Contains(attributes, "x09") then EscapedTab
      else if Contains(attributes, "^") then Caret
      else Tab
    else Tab
  }

  /** The attribute tokens under the chosen delimiter. */
  function Parts(attributes: string, d: Delimiter): seq<string>
  {
    match d
    case Tab => Split(attributes, '\t')
    case EscapedTab => Split(ReplaceAll(attributes, "x09", "\t"), '\t')
    case Caret => Split(attributes, '^')
  }

  /** The attribute map: white space trimmed around key and value, later keys overwriting earlier ones. */
  function Attributes(attributes: string, version: string): map<string, string>
  {
    KeyValues(Parts(attributes, DelimiterOf(version, attributes)), true)
  }

  /** Keys and values are trimmed, and a key holds no '='. */
  lemma AttributeShape(attributes: string, version: string, k: string)
    requires k in Attributes(attributes, version)
    ensures Trimmed(k) && Trimmed(Attributes(attributes, version)[k]) && Free(k, '=')
  {
    var parts := Parts(attributes, DelimiterOf(version, attributes));
    KeyValuesLastWins(parts, true, k);
    var i :| 0 <= i < |parts| && Entry(parts[i], true) == Some((k, KeyValues(parts, true)[k]))
             && forall j :: i < j < |parts| ==> !KeyedBy(parts[j], true, k);
    EntryShape(parts[i], true);
  }

  /** The delimiter is chosen, the attributes split, and every `key=value` part stored in turn. */
  method ParseAttributes(attributes: string, version: string) returns (m: map<string, string>)
    ensures m == Attributes(attributes, version)
  {
    var delimiter := Tab;
    if version == "2.0" {
      if Contains(attributes, "x09") {
        delimiter := EscapedTab;
      } else if Contains(attributes, "^") {
        delimiter := Caret;
      }
    }
    var parts: seq<string>;
    if delimiter == EscapedTab {
      parts := Split(ReplaceAll(attributes, "x09", "\t"), '\t');
    } else if delimiter == Caret {
      parts := Split(attributes, '^');
    } else {
      parts := Split(attributes, '\t');
    }
    assert parts == Parts(attributes, DelimiterOf(version, attributes));
    m := StoreEntries(parts, true);
  }

  // ---------------------------------------------------------------------
  // Vocabulary
  // ---------------------------------------------------------------------

  /** A severity class: any of its words in the lower-cased text, or one of its exact codes. */
  predicate SevApplies(sev: string, words: seq<string>, codes: seq<string>)
  {
    AnyIn(Lower(sev), words) || sev in codes
  }

  /** The `sev` text through the keyword and code ladder; no match is informational. */
  function SevLevel(sev: string): (s: Severity)
    ensures s == Critical <==> SevApplies(sev, ["critical", "fatal"], ["10"])
    ensures s == High <==> !SevApplies(sev, ["critical", "fatal"], ["10"])
                           && SevApplies(sev, ["high", "error"], ["8", "7"])
    ensures s == Medium <==> !SevApplies(sev, ["critical", "fatal"], ["10"])
                             && !SevApplies(sev, ["high", "error"], ["8", "7"])
                             && SevApplies(sev, ["medium", "warn"], ["5", "6"])
    ensures s == Low <==> !SevApplies(sev, ["critical", "fatal"], ["10"])
                          && !SevApplies(sev, ["high", "error"], ["8", "7"])
                          && !SevApplies(sev, ["medium", "warn"], ["5", "6"])
                          && SevApplies(sev, ["low"], ["3", "4"])
  {
    if SevApplies(sev, ["critical", "fatal"], ["10"]) then Critical
    else if SevApplies(sev, ["high", "error"], ["8", "7"]) then High
    else if SevApplies(sev, ["medium", "warn"], ["5", "6"]) then Medium
    else if SevApplies(sev, ["low"], ["3", "4"]) then Low
    else Info
  }

  /** The severity from the `sev` attribute; without one, informational. */
  function SeverityOf(attrs: map<string, string>): (s: Severity)
    ensures "sev" !in attrs ==> s == Info
    ensures "sev" in attrs ==> s == SevLevel(attrs["sev"])
  {
    if "sev" in attrs then SevLevel(attrs["sev"]) else Info
  }

  /** A text of digits contains no word that starts with anything but a digit. */
  lemma DigitsMissWords(code: string, words: seq<string>)
    requires AllDigits(code)
    requires forall i :: 0 <= i < |words| ==> words[i] != [] && !IsDigit(words[i][0])
    ensures !AnyIn(Lower(code), words)
  {
    forall i | 0 <= i < |words| ensures !Contains(Lower(code), words[i]) {
      ContainsIff(Lower(code), words[i]);
    }
  }

  /**
   * A numeric `sev` is classified by its exact code alone: 10 critical, 7-8
   * high, 5-6 medium, 3-4 low, and every other number, 9 among them,
   * informational.
   */
  lemma NumericLevel(code: string)
    requires AllDigits(code)
    ensures SevLevel(code) == (if code == "10" then Critical
                               else if code == "8" || code == "7" then High
                               else if code == "5" || code == "6" then Medium
                               else if code == "3" || code == "4" then Low
                               else Info)
  {
    DigitsMissWords(code, ["critical", "fatal"]);
    DigitsMissWords(code, ["high", "error"]);
    DigitsMissWords(code, ["medium", "warn"]);
    DigitsMissWords(code, ["low"]);
  }

  lemma NineIsInfo()
    ensures SevLevel("9") == Info
  {
    NumericLevel("9");
  }

  const CatRules: seq<Rule<Option<Category>>> := [
    Rule(["auth"], Some(Authentication)),
    Rule(["access"], Some(Access)),
    Rule(["network"], Some(NetworkEvent))]

  const EventRules: seq<Rule<Category>> := [
    Rule(["login", "auth"], Authentication),
    Rule(["access", "permission"], Access),
    Rule(["modify", "change"], DataModification),
    Rule(["network", "connection"], NetworkEvent),
    Rule(["security", "threat"], SecurityEvent)]

  /** What the lower-cased `cat` attribute says, if it mentions auth, access or network. */
  function CatCategory(attrs: map<string, string>): Option<Category>
  {
    if "cat" in attrs then FirstMatch(Lower(attrs["cat"]), CatRules, None) else None
  }

  /** A telling `cat` attribute decides; otherwise the keywords of the event id; otherwise a system event. */
  function Categorize(eventId: string, attrs: map<string, string>): (c: Category)
    ensures CatCategory(attrs).Some? ==> c == CatCategory(attrs).value
    ensures CatCategory(attrs).None? ==> c == FirstMatch(Lower(eventId), EventRules, SystemEvent)
  {
    match CatCategory(attrs)
    case Some(c) => c
    case None => FirstMatch(Lower(eventId), EventRules, SystemEvent)
  }

  /** `cat` can only speak for authentication, access or network events. */
  lemma CatCategories(attrs: map<string, string>)
    requires CatCategory(attrs).Some?
    ensures CatCategory(attrs).value in {Authentication, Access, NetworkEvent}
  {
    var text := Lower(attrs["cat"]);
    if AnyIn(text, CatRules[0].words) {
    } else if AnyIn(text, CatRules[1].words) {
      assert FirstApplies(text, CatRules, 1);
    } else if AnyIn(text, CatRules[2].words) {
      assert FirstApplies(text, CatRules, 2);
    } else {
      assert false;
    }
  }

  function ResultVerdict(attrs: map<string, string>): Option<EventResult>
  {
    KeyVerdict(attrs, "result", ["success", "allow"], ["fail", "deny"])
  }

  function ActionVerdict(attrs: map<string, string>): Option<EventResult>
  {
    KeyVerdict(attrs, "action", ["allow", "permit"], ["block", "deny"])
  }

  /** A conclusive `result` decides; otherwise a conclusive `action`; otherwise the result is unknown. */
  function ResultOf(attrs: map<string, string>): (r: EventResult)
    ensures ResultVerdict(attrs).Some? ==> r == ResultVerdict(attrs).value
    ensures ResultVerdict(attrs).None? && ActionVerdict(attrs).Some? ==> r == ActionVerdict(attrs).value
    ensures r == Unknown <==> ResultVerdict(attrs).None? && ActionVerdict(attrs).None?
  {
    match ResultVerdict(attrs)
    case Some(v) => v
    case None =>
      match ActionVerdict(attrs)
      case Some(v) => v
      case None => Unknown
  }

  /** A conclusive `result` cannot be overruled by `action`. */
  lemma ResultOverridesAction(attrs: map<string, string>, v: string)
    requires ResultVerdict(attrs).Some?
    ensures ResultOf(attrs["action" := v]) == ResultOf(attrs)
  {
    assert ResultVerdict(attrs["action" := v]) == ResultVerdict(attrs);
  }

  // ---------------------------------------------------------------------
  // Events
  // ---------------------------------------------------------------------

  const TimeLayouts: seq<string> := [RFC3339, "2006-01-02 15:04:05", "Jan 02 2006 15:04:05", "MMM dd yyyy HH:mm:ss"]

  /** The device time, when present and parsable; otherwise the processing time. */
  function Timestamp(attrs: map<string, string>, rt: Runtime): Instant
  {
    if "devTime" in attrs then OrNow(FirstParse(rt, TimeLayouts, attrs["devTime"]), rt) else rt.now
  }

  /** The subject: `srcUser` with `srcDomain` when present, else `usrName` alone, else none. */
  function Subject(attrs: map<string, string>): Option<Account>
  {
    if "srcUser" in attrs then Some(Account(attrs["srcUser"], Get(attrs, "srcDomain"), ""))
    else if "usrName" in attrs then Some(Account(attrs["usrName"], "", ""))
    else None
  }

  /** The object: `dstUser` with `dstDomain`, when present. */
  function Object(attrs: map<string, string>): Option<Account>
  {
    if "dstUser" in attrs then Some(Account(attrs["dstUser"], Get(attrs, "dstDomain"), "")) else None
  }

  /** The action: `action` when present, else `cat`, else "". */
  function Action(attrs: map<string, string>): string
  {
    if "action" in attrs then attrs["action"] else if "cat" in attrs then attrs["cat"] else ""
  }

  /** The header entries of the additional data. */
  function HeaderData(h: Header): map<string, Value>
  {
    map["leef_version" := Str(h.version), "vendor" := Str(h.vendor), "product" := Str(h.product),
        "product_version" := Str(h.productVersion), "event_id" := Str(h.eventId)]
  }

  /** The additional data: the header entries, then every attribute under `leef_`. */
  function Data(h: Header, attrs: map<string, string>): map<string, Value>
  {
    HeaderData(h) + Prefixed("leef_", attrs)
  }

  /** The record a header and its attribute map produce. */
  function ToEvent(h: Header, attrs: map<string, string>, rt: Runtime): GostEvent
  {
    GostEvent(
      Timestamp(attrs, rt),
      Source(FirstNonEmpty(attrs, ["devName", "srcHostName", "dstHostName"]), FirstNonEmpty(attrs, ["src", "dst"]),
             h.vendor + " " + h.product, "", 0),
      Categorize(h.eventId, attrs),
      SeverityOf(attrs),
      FirstNonEmpty(attrs, ["usrName", "msg", "eventId"]),
      Data(h, attrs),
      Subject(attrs),
      Object(attrs),
      ResultOf(attrs),
      Action(attrs))
  }

  /** What parsing a line yields: the record, or the rejection of a line that is not LEEF. */
  function Normalize(line: string, rt: Runtime): Result<GostEvent, ParseError>
  {
    match MatchHeader(line)
    case None => Err(InvalidLeef)
    case Some(h) => Ok(ToEvent(h, Attributes(h.attributes, h.version), rt))
  }

  /**
   * The accounts and the action of a LEEF record: `srcUser` with its
   * `srcDomain` names the subject ahead of `usrName`, `dstUser` with its
   * `dstDomain` names the object, and `action` wins over `cat`.
   */
  lemma EventAccounts(h: Header, attrs: map<string, string>, rt: Runtime)
    ensures ToEvent(h, attrs, rt).subjectAccount.Some? <==> "srcUser" in attrs || "usrName" in attrs
    ensures "srcUser" in attrs ==>
              ToEvent(h, attrs, rt).subjectAccount == Some(Account(attrs["srcUser"], Get(attrs, "srcDomain"), ""))
    ensures "srcUser" !in attrs && "usrName" in attrs ==>
              ToEvent(h, attrs, rt).subjectAccount == Some(Account(attrs["usrName"], "", ""))
    ensures ToEvent(h, attrs, rt).objectAccount.Some? <==> "dstUser" in attrs
    ensures "dstUser" in attrs ==>
              ToEvent(h, attrs, rt).objectAccount == Some(Account(attrs["dstUser"], Get(attrs, "dstDomain"), ""))
    ensures "action" in attrs ==> ToEvent(h, attrs, rt).action == attrs["action"]
    ensures "action" !in attrs && "cat" in attrs ==> ToEvent(h, attrs, rt).action == attrs["cat"]
    ensures "action" !in attrs && "cat" !in attrs ==> ToEvent(h, attrs, rt).action == ""
  {
  }

  /** Every attribute is stored under `leef_`, and wins over a header entry of the same name. */
  lemma AttributeData(h: Header, attrs: map<string, string>)
    ensures forall k :: k in attrs ==> "leef_" + k in Data(h, attrs) && Data(h, attrs)["leef_" + k] == Str(attrs[k])
  {
  }

  lemma NotLeefKey(key: string)
    requires |key| >= 5 && key[0] != 'l'
    ensures !HasPrefix(key, "leef_")
  {
    assert key[..5][0] == key[0];
  }

  lemma KeptEntry(h: Header, attrs: map<string, string>, key: string)
    requires key in HeaderData(h) && |key| >= 5 && key[0] != 'l'
    ensures key in Data(h, attrs) && Data(h, attrs)[key] == HeaderData(h)[key]
  {
    NotLeefKey(key);
  }

  /** The vendor, product and event-id entries are never shadowed: no attribute key reaches them. */
  lemma ProductDataKept(h: Header, attrs: map<string, string>)
    ensures Data(h, attrs)["vendor"] == Str(h.vendor)
    ensures Data(h, attrs)["product"] == Str(h.product)
    ensures Data(h, attrs)["product_version"] == Str(h.productVersion)
    ensures Data(h, attrs)["event_id"] == Str(h.eventId)
  {
    KeptEntry(h, attrs, "vendor");
    KeptEntry(h, attrs, "product");
    KeptEntry(h, attrs, "product_version");
    KeptEntry(h, attrs, "event_id");
  }

  /** The header version is kept unless an attribute `version` overwrites it. */
  lemma VersionDataKept(h: Header, attrs: map<string, string>)
    ensures "version" !in attrs ==> Data(h, attrs)["leef_version"] == Str(h.version)
    ensures "version" in attrs ==> Data(h, attrs)["leef_version"] == Str(attrs["version"])
  {
    assert "leef_version" == "leef_" + "version";
  }

  /** Nothing else is stored: each key is a header entry or an attribute key under `leef_`. */
  lemma DataKeys(h: Header, attrs: map<string, string>)
    ensures forall key :: key in Data(h, attrs) ==> key in HeaderData(h) || (HasPrefix(key, "leef_") && key[5..] in attrs)
  {
  }

  /** Parsing: the header, then the attribute map, then the record. */
  method Parse(line: string, rt: Runtime) returns (r: Result<GostEvent, ParseError>)
    ensures r == Normalize(line, rt)
  {
    var m := MatchHeader(line);
    if m.None? {
      return Err(InvalidLeef);
    }
    var h := m.value;
    var attrs := ParseAttributes(h.attributes, h.version);
    var event := Assemble(h, attrs, rt);
    r := Ok(event);
  }

  /** The record assembled step by step from the header and the attribute map. */
  method Assemble(h: Header, attrs: map<string, string>, rt: Runtime) returns (e: GostEvent)
    ensures e == ToEvent(h, attrs, rt)
  {
    var timestamp := rt.now;
    if "devTime" in attrs {
      var t := FirstParse(rt, TimeLayouts, attrs["devTime"]);
      if t.Some? {
        timestamp := t.value;
      }
    }
    assert timestamp == Timestamp(attrs, rt);
    var subject: Option<Account> := None;
    if "srcUser" in attrs {
      subject := Some(Account(attrs["srcUser"], Get(attrs, "srcDomain"), ""));
    } else if "usrName" in attrs {
      subject := Some(Account(attrs["usrName"], "", ""));
    }
    var target: Option<Account> := None;
    if "dstUser" in attrs {
      target := Some(Account(attrs["dstUser"], Get(attrs, "dstDomain"), ""));
    }
    var action := "";
    if "action" in attrs {
      action := attrs["action"];
    } else if "cat" in attrs {
      action := attrs["cat"];
    }
    var data := PutPrefixed(HeaderData(h), "leef_", attrs);
    var source := Source(FirstNonEmpty(attrs, ["devName", "srcHostName", "dstHostName"]),
                         FirstNonEmpty(attrs, ["src", "dst"]), h.vendor + " " + h.product, "", 0);
    e := GostEvent(timestamp, source, Categorize(h.eventId, attrs), SeverityOf(attrs),
                   FirstNonEmpty(attrs, ["usrName", "msg", "eventId"]), data, subject, target,
                   ResultOf(attrs), action);
  }
}
