/**
 * The sample lines of the repository's own tests, with lemmas stating what
 * the model computes for each: the detected format, and the fields the
 * parsers read from the line.
 * Each line is written as a concatenation of short pieces.
 */
module Samples {
  import opened Wrappers
  import opened Text
  import opened Gost
  import opened Processor
  import Syslog
  import Cef
  import Leef
  import XmlSchema
  import Xml

  /** A line without surrounding white space is classified as it stands. */
  lemma DetectTrimmed(s: string)
    requires Trimmed(s)
    ensures Detect(s) == Classify(s)
  {
    TrimmedFixed(s);
  }

  /** The CEF test line is detected as CEF. */
  lemma CefDetected()
    ensures Detect("CEF:" + "0|Vendor|Product|1.0|100|Test|5|src=1.1.1.1") == CefLog
  {
    var s := "CEF:" + "0|Vendor|Product|1.0|100|Test|5|src=1.1.1.1";
    assert s[..4] == "CEF:";
    assert s[0] == 'C' && s[|s| - 1] == '1';
    DetectTrimmed(s);
  }

  /** The LEEF test line is detected as LEEF. */
  lemma LeefDetected()
    ensures Detect("LEEF:" + "1.0|Vendor|Product|1.0|100|test=value") == LeefLog
  {
    var s := "LEEF:" + "1.0|Vendor|Product|1.0|100|test=value";
    assert s[..5] == "LEEF:";
    assert s[0] == 'L' && s[|s| - 1] == 'e';
    DetectTrimmed(s);
  }

  /** The Windows event test line is detected as XML. */
  lemma EventDetected()
    ensures Detect("<Event" + "><System><EventID>100</EventID></System></Event>") == XmlLog
  {
    var s := "<Event" + "><System><EventID>100</EventID></System></Event>";
    assert s[..6] == "<Event";
    assert s[0] == '<' && s[|s| - 1] == '>';
    DetectTrimmed(s);
  }

  /** A string without `?` never holds `<?xml`. */
  lemma NoXmlMark(s: string)
    requires '?' !in s
    ensures !Contains(s, "<?xml")
  {
    ContainsIff(s, "<?xml");
    if exists i: nat :: OccursAt(s, "<?xml", i) {
      var i: nat :| OccursAt(s, "<?xml", i);
      assert s[i..i + 5][1] == s[i + 1];
    }
  }

  /** The BSD syslog test line is detected as syslog. */
  lemma SyslogDetected()
    ensures Detect("<134>" + "Oct 11 22:14:15 mymachine test: message") == SyslogLog
  {
    var s := "<134>" + "Oct 11 22:14:15 mymachine test: message";
    assert s[0] == '<' && s[|s| - 1] == 'e';
    DetectTrimmed(s);
    SyslogTagged(s);
  }

  lemma SyslogTagged(s: string)
    requires s == "<134>" + "Oct 11 22:14:15 mymachine test: message"
    ensures Classify(s) == SyslogLog
  {
    NoXmlMark(s);
    assert s[..4] == "<134" && s[1..4] == "134" && s[4] == '>';
    SyslogComplete(s, 4);
  }

  /** A line opening with none of the characters the formats start with is of no format. */
  lemma Untagged(s: string)
    requires |s| > 0 && s[0] != 'C' && s[0] != 'L' && s[0] != '<'
    ensures Classify(s) == UnknownLog
  {
    if |s| >= 4 { assert s[..4][0] == s[0]; }
    if |s| >= 5 { assert s[..5][0] == s[0]; }
    if |s| >= 6 { assert s[..6][0] == s[0]; }
    if |s| >= 1 { assert s[..1][0] == s[0]; }
  }

  /** The prose test line is detected as no format, and processing it fails as unknown. */
  lemma ProseRejected(rt: Runtime)
    ensures Detect("This is not " + "a valid log format") == UnknownLog
    ensures Dispatch("This is not " + "a valid log format", rt) == Err(UnknownLogType)
  {
    var s := "This is not " + "a valid log format";
    assert s[0] == 'T' && s[|s| - 1] == 't';
    DetectTrimmed(s);
    Untagged(s);
  }

  // ---------------------------------------------------------------------
  // BSD syslog
  // ---------------------------------------------------------------------

  /** A string without any of the five pattern-space characters is a token when it is not empty. */
  lemma TokenOf(t: string)
    requires t != [] && ' ' !in t && '\t' !in t && '\n' !in t && '\r' !in t && '\U{000C}' !in t
    ensures IsToken(t)
  {
    forall i | 0 <= i < |t| ensures !IsPatternSpace(t[i]) {
      assert t[i] in t;
    }
  }

  /** A string without a newline is one line of text. */
  lemma OneLine(t: string)
    requires '\n' !in t
    ensures AllIn(t, LineChar)
  {
    forall i | 0 <= i < |t| ensures t[i] != '\n' {
      assert t[i] in t;
    }
  }

  /** A BSD timestamp built from its month word and its digit groups is read back whole. */
  lemma StampFrom(mon: string, day: string, hh: string, mm: string, ss: string)
    requires mon != [] && AllIn(mon, Word)
    requires AllDigits(day) && AllDigits(hh) && AllDigits(mm) && AllDigits(ss)
    ensures Syslog.IsStamp(mon + (" " + (day + (" " + (hh + (":" + (mm + (":" + ss))))))))
  {
    var c2 := ":" + ss;
    var m2 := mm + c2;
    var c1 := ":" + m2;
    var h := hh + c1;
    var g2 := " " + h;
    var d := day + g2;
    var g1 := " " + d;
    var t := mon + g1;
    RunOf(mon, g1, Word);
    RunOf(" ", d, Space);
    RunOf(day, g2, Digit);
    RunOf(" ", h, Space);
    RunOf(hh, c1, Digit);
    ExpectOf(":", m2);
    RunOf(mm, c2, Digit);
    ExpectOf(":", ss);
    RunOf(ss, [], Digit);
    assert ss + [] == ss;
    assert Syslog.Stamp(t) == Some(Cut(mon + " " + day + " " + hh + ":" + mm + ":" + ss, []));
    Regroup(mon + " " + day + " " + hh + ":" + mm, ":", ss);
    Regroup(mon + " " + day + " " + hh + ":", mm, c2);
    Regroup(mon + " " + day + " " + hh, ":", m2);
    Regroup(mon + " " + day + " ", hh, c1);
    Regroup(mon + " " + day, " ", h);
    Regroup(mon + " ", day, g2);
    Regroup(mon, " ", d);
  }

  lemma Regroup(a: string, b: string, c: string)
    ensures a + b + c == a + (b + c)
  {
  }

  /** `Oct 11 22:14:15`, the timestamp of the BSD test line. */
  function SuStamp(): string
  {
    "Oct" + (" " + ("11" + (" " + ("22" + (":" + ("14" + (":" + "15")))))))
  }

  /** The group tuple of the BSD test lines, which differ only in their message. */
  function Su3164(message: string): Syslog.Rfc3164
  {
    Syslog.Rfc3164("134", SuStamp(), "mymachine", "su", "", message)
  }

  /** The message of the BSD parser test line. */
  function SuMessage(): string
  {
    "'su root' " + "failed for " + "lonvick on " + "/dev/pts/8"
  }

  /** The pieces spell the description the test expects. */
  lemma SuMessageSpelled()
    ensures SuMessage() == "'su root' failed for lonvick on /dev/pts/8"
  {
  }

  lemma SuMessageIsMessage()
    ensures Syslog.IsMessage(SuMessage())
  {
    OneLine(SuMessage());
    assert SuMessage()[0] == '\'';
  }

  lemma SuStampIsStamp(message: string)
    ensures Syslog.IsStamp(Su3164(message).timestamp)
  {
    StampFrom("Oct", "11", "22", "14", "15");
  }

  lemma SuTag(message: string)
    ensures IsToken(Su3164(message).hostname) && IsToken(Su3164(message).appName)
    ensures Syslog.SplitPid(Su3164(message).appName) == (Su3164(message).appName, [])
  {
    TokenOf("mymachine");
    TokenOf("su");
    assert '[' !in "su";
  }

  lemma SuPriority(message: string)
    ensures AllDigits(Su3164(message).priority) && Su3164(message).pid == []
  {
  }

  lemma SuWellFormed(message: string)
    requires Syslog.IsMessage(message)
    ensures Syslog.WF3164(Su3164(message))
  {
    SuPriority(message);
    SuStampIsStamp(message);
    SuTag(message);
  }

  /**
   * The BSD test line `<134>Oct 11 22:14:15 mymachine su: ...` parses as
   * BSD syslog: host `mymachine`, application `su`, the text after the tag
   * as description, and priority 134 (severity code 6) as Low.
   */
  lemma SuParsed(rt: Runtime)
    ensures var r := Syslog.Parse(Syslog.Render3164(Su3164(SuMessage())), rt);
      r.Ok? && r.value.source.hostname == "mymachine" && r.value.source.application == "su"
      && r.value.description == SuMessage()
      && r.value.severity == Low
  {
    SuMessageIsMessage();
    SuRead(SuMessage());
    SuNot5424(SuMessage());
    SuSeverity(SuMessage());
  }

  lemma SuRead(message: string)
    requires Syslog.IsMessage(message)
    ensures Syslog.Match3164(Syslog.Render3164(Su3164(message))) == Some(Su3164(message))
  {
    SuWellFormed(message);
    Syslog.Match3164Render(Su3164(message));
  }

  /** A BSD line is not read as an RFC 5424 line: no version digits follow the priority. */
  lemma SuNot5424(message: string)
    requires Syslog.IsMessage(message)
    ensures Syslog.Match5424(Syslog.Render3164(Su3164(message))).None?
  {
    var rest := SuHead(message);
  }

  /** The priority of a BSD test line is followed by the month, not by digits. */
  lemma SuHead(message: string) returns (rest: string)
    requires Syslog.IsMessage(message)
    ensures Syslog.Pri(Syslog.Render3164(Su3164(message))) == Some(Cut("134", rest))
    ensures rest != [] && rest[0] == 'O'
  {
    var m := Su3164(message);
    SuWellFormed(message);
    Syslog.TagOf(m);
    var x0, x1 := Syslog.Head3164Of(m);
    rest := m.timestamp + x0;
    assert rest[0] == 'O';
  }

  lemma SuSeverity(message: string)
    ensures Syslog.SeverityOf(Syslog.PriorityValue(Su3164(message).priority)) == Low
  {
    SuPriority(message);
    assert DigitsValue("134") == 134 by {
      assert "134"[..2] == "13" && "13"[..1] == "1" && "1"[..0] == "";
    }
  }

  /** The message of the BSD processing test line. */
  function TestMessage(): string
  {
    "test " + "message"
  }

  lemma TestMessageIsMessage()
    ensures Syslog.IsMessage(TestMessage()) && '?' !in TestMessage()
  {
    OneLine(TestMessage());
    assert TestMessage()[0] == 't';
  }

  /** A BSD line of the test record ends as its message does. */
  lemma SuTrimmed(message: string)
    requires message != [] && !IsUnicodeSpace(message[|message| - 1])
    ensures Trimmed(Syslog.Render3164(Su3164(message)))
  {
    var s := Syslog.Render3164(Su3164(message));
    assert s[0] == '<';
    assert s[|s| - 1] == message[|message| - 1];
  }

  /** A BSD line of the test record is tagged as syslog when its message has no `?`. */
  lemma SuTagged(message: string)
    requires '?' !in message
    ensures Classify(Syslog.Render3164(Su3164(message))) == SyslogLog
  {
    var s := Syslog.Render3164(Su3164(message));
    SuNoMark(message);
    SuPriorityTag(message);
    SyslogComplete(s, 4);
  }

  /** With no `?` in the message, a BSD test line holds no XML declaration. */
  lemma SuNoMark(message: string)
    requires '?' !in message
    ensures !Contains(Syslog.Render3164(Su3164(message)), "<?xml")
  {
    var m := Su3164(message);
    assert '?' !in SuStamp() && '?' !in Syslog.Tag(m);
    NoXmlMark(Syslog.Render3164(m));
  }

  /** A BSD test line opens with the priority tag `<134>`. */
  lemma SuPriorityTag(message: string)
    ensures PriorityTag(Syslog.Render3164(Su3164(message)), 4)
  {
    var m := Su3164(message);
    var s := Syslog.Render3164(m);
    var rest := m.timestamp + (" " + m.hostname + (" " + Syslog.Tag(m) + (" " + m.message)));
    assert s == "<" + ("134" + (">" + rest));
    assert s[..4] == "<134" && s[1..4] == "134" && s[4] == '>';
  }

  /** The BSD processing test line `<134>Oct 11 22:14:15 mymachine su: test message` is detected as syslog. */
  lemma TestLineDetected()
    ensures Detect(Syslog.Render3164(Su3164(TestMessage()))) == SyslogLog
  {
    TestMessageIsMessage();
    assert TestMessage()[|TestMessage()| - 1] == 'e';
    SuTrimmed(TestMessage());
    DetectTrimmed(Syslog.Render3164(Su3164(TestMessage())));
    SuTagged(TestMessage());
  }

  /** Processing the BSD line of the processing test yields an event. */
  lemma TestLineProcessed(rt: Runtime)
    ensures Dispatch(Syslog.Render3164(Su3164(TestMessage())), rt).Ok?
  {
    TestLineDetected();
    TestMessageIsMessage();
    SuRead(TestMessage());
    SuNot5424(TestMessage());
  }

  // ---------------------------------------------------------------------
  // RFC 5424 syslog
  // ---------------------------------------------------------------------

  /** The group tuple of the RFC 5424 test line, with `-` for the process id and the structured data. */
  function Login5424(): Syslog.Rfc5424
  {
    Syslog.Rfc5424("165", "1", "2023-10-11T" + "22:14:15.003Z", "mymachine" + ".example.com",
      "evntslog", "-", "ID47", "-", "User login " + "successful")
  }

  lemma LoginDigits()
    ensures AllDigits(Login5424().priority) && AllDigits(Login5424().version)
  {
  }

  /** Two tokens side by side make one. */
  lemma TokenJoin(a: string, b: string)
    requires IsToken(a) && IsToken(b)
    ensures IsToken(a + b)
  {
    forall i | 0 <= i < |a + b| ensures !IsPatternSpace((a + b)[i]) {
      if i >= |a| { assert (a + b)[i] == b[i - |a|]; }
    }
  }

  lemma LoginStampToken()
    ensures IsToken(Login5424().timestamp)
  {
    TokenOf("2023-10-11T");
    TokenOf("22:14:15.003Z");
    TokenJoin("2023-10-11T", "22:14:15.003Z");
  }

  lemma LoginHostToken()
    ensures IsToken(Login5424().hostname)
  {
    TokenOf("mymachine");
    TokenOf(".example.com");
    TokenJoin("mymachine", ".example.com");
  }

  lemma LoginTagTokens()
    ensures IsToken(Login5424().appName) && IsToken(Login5424().procId)
    ensures IsToken(Login5424().msgId) && IsToken(Login5424().structuredData)
  {
    TokenOf(Login5424().appName);
    TokenOf(Login5424().procId);
    TokenOf(Login5424().msgId);
  }

  lemma LoginMessage()
    ensures Syslog.IsMessage(Login5424().message)
  {
    OneLine(Login5424().message);
    assert Login5424().message[0] == 'U';
  }

  lemma LoginWellFormed()
    ensures Syslog.WF5424(Login5424())
  {
    LoginDigits();
    LoginStampToken();
    LoginHostToken();
    LoginTagTokens();
    LoginMessage();
  }

  /**
   * The RFC 5424 test line `<165>1 2023-10-11T22:14:15.003Z mymachine.example.com
   * evntslog - ID47 - User login successful` parses as RFC 5424: host
   * `mymachine.example.com`, application `evntslog`, no process id, and
   * priority 165 (severity code 5) as Low.
   */
  lemma LoginParsed(rt: Runtime)
    ensures var r := Syslog.Parse(Syslog.Render5424(Login5424()), rt);
      r.Ok? && r.value.source.hostname == Login5424().hostname
      && r.value.source.application == "evntslog" && r.value.source.processId == 0
      && r.value.severity == Low
  {
    LoginWellFormed();
    Syslog.Match5424Render(Login5424());
    LoginSeverity();
  }

  lemma LoginSeverity()
    ensures Syslog.SeverityOf(Syslog.PriorityValue(Login5424().priority)) == Low
  {
    LoginDigits();
    assert DigitsValue("165") == 165 by {
      assert "165"[..2] == "16" && "16"[..1] == "1" && "1"[..0] == "";
    }
  }

  // ---------------------------------------------------------------------
  // CEF
  // ---------------------------------------------------------------------

  /** A string without `c` is free of it. */
  lemma FreeOf(t: string, c: char)
    requires c !in t
    ensures Free(t, c)
  {
    forall j | 0 <= j < |t| ensures t[j] != c {
      assert t[j] in t;
    }
  }

  /** Header fields without `|` are read back as they stand. */
  lemma FieldsFree(h: Cef.Header)
    requires '|' !in h.deviceVendor && '|' !in h.deviceProduct && '|' !in h.deviceVersion
    requires '|' !in h.signatureId && '|' !in h.name && '|' !in h.severity
    ensures forall i :: 0 <= i < 6 ==> Free(Cef.HeaderFields(h)[i], '|')
  {
    FreeOf(h.deviceVendor, '|');
    FreeOf(h.deviceProduct, '|');
    FreeOf(h.deviceVersion, '|');
    FreeOf(h.signatureId, '|');
    FreeOf(h.name, '|');
    FreeOf(h.severity, '|');
  }

  /** The header of the first CEF test line. */
  function Worm(): Cef.Header
  {
    Cef.Header("0", "Security", "threatmanager", "1.0", "100", "worm successfully " + "stopped", "10",
      "src=10.0.0.1 " + "dst=2.1.2.2 spt=1232")
  }

  lemma WormFields()
    ensures forall i :: 0 <= i < 6 ==> Free(Cef.HeaderFields(Worm())[i], '|')
  {
    FieldsFree(Worm());
  }

  lemma WormWellFormed()
    ensures Cef.WFHeader(Worm())
  {
    WormFields();
    OneLine(Worm().extension);
    assert AllDigits(Worm().version);
  }

  /** CEF severity `10` is at the top of the scale. */
  lemma WormSeverity()
    ensures Cef.SeverityOf(Worm().severity) == Critical
  {
    assert "10"[..1] == "1" && "1"[..0] == "";
    assert DigitsValue("10") == 10;
  }

  /**
   * The first CEF test line `CEF:0|Security|threatmanager|1.0|100|worm
   * successfully stopped|10|src=...` is accepted: the name is the
   * description, severity 10 is Critical, and the vendor and product are
   * kept under `device_vendor` and `device_product`.
   */
  lemma WormParsed(rt: Runtime)
    ensures var r := Cef.Normalize(Cef.Render(Worm()), rt);
      r.Ok? && r.value.description == Worm().name && r.value.severity == Critical
      && r.value.additionalData["device_vendor"] == Str("Security")
      && r.value.additionalData["device_product"] == Str("threatmanager")
  {
    WormWellFormed();
    Cef.MatchRender(Worm());
    WormSeverity();
    Cef.DeviceDataKept(Worm(), Cef.Extensions(Worm().extension));
  }

  /** The extension tokens of the second CEF test line. */
  function UserTokens(): seq<string>
  {
    ["suser" + "=" + "john.doe", "sdomain" + "=" + "EXAMPLE", "act" + "=" + "login", "outcome" + "=" + "success"]
  }

  /** The header of the second CEF test line; its extension is the tokens joined by blanks. */
  function UserLogin(): Cef.Header
  {
    Cef.Header("0", "Vendor", "Product", "1.0", "200", "User Login", "5", Join(UserTokens(), " "))
  }

  lemma UserTokensSplit()
    ensures Split(UserLogin().extension, ' ') == UserTokens()
  {
    var t := UserTokens();
    FreeOf(t[0], ' ');
    FreeOf(t[1], ' ');
    FreeOf(t[2], ' ');
    FreeOf(t[3], ' ');
    SplitJoin(t, ' ');
  }

  lemma UserEntries()
    ensures Entry(UserTokens()[0], false) == Some(("suser", "john.doe"))
    ensures Entry(UserTokens()[1], false) == Some(("sdomain", "EXAMPLE"))
    ensures Entry(UserTokens()[2], false) == Some(("act", "login"))
    ensures Entry(UserTokens()[3], false) == Some(("outcome", "success"))
  {
    FreeOf("suser", '=');
    FreeOf("sdomain", '=');
    FreeOf("act", '=');
    FreeOf("outcome", '=');
    UntilOf("suser", '=', "john.doe");
    UntilOf("sdomain", '=', "EXAMPLE");
    UntilOf("act", '=', "login");
    UntilOf("outcome", '=', "success");
  }

  lemma UserPrefix1()
    ensures KeyValues(UserTokens()[..1], false) == map["suser" := "john.doe"]
  {
    UserEntries();
    assert UserTokens()[..1][..0] == [];
  }

  lemma UserPrefix2()
    ensures KeyValues(UserTokens()[..2], false) == map["suser" := "john.doe", "sdomain" := "EXAMPLE"]
  {
    UserPrefix1();
    UserEntries();
    assert UserTokens()[..2][..1] == UserTokens()[..1];
  }

  lemma UserPrefix3()
    ensures KeyValues(UserTokens()[..3], false)
      == map["suser" := "john.doe", "sdomain" := "EXAMPLE", "act" := "login"]
  {
    UserPrefix2();
    UserEntries();
    assert UserTokens()[..3][..2] == UserTokens()[..2];
  }

  /** The extension map of the second CEF test line. */
  lemma UserExtensions()
    ensures Cef.Extensions(UserLogin().extension)
      == map["suser" := "john.doe", "sdomain" := "EXAMPLE", "act" := "login", "outcome" := "success"]
  {
    UserTokensSplit();
    UserPrefix3();
    UserEntries();
    assert UserTokens()[..3] == UserTokens()[..|UserTokens()| - 1];
  }

  /** Joining parts by a separator, none of which holds `c`, gives a string without `c`. */
  lemma {:induction false} JoinLacks(parts: seq<string>, sep: string, c: char)
    requires forall i :: 0 <= i < |parts| ==> c !in parts[i]
    requires c !in sep
    ensures c !in Join(parts, sep)
  {
    if |parts| > 1 {
      JoinLacks(parts[1..], sep, c);
      assert c !in parts[0];
    }
  }

  lemma UserFields()
    ensures forall i :: 0 <= i < 6 ==> Free(Cef.HeaderFields(UserLogin())[i], '|')
  {
    FieldsFree(UserLogin());
  }

  lemma UserOneLine()
    ensures AllIn(UserLogin().extension, LineChar)
  {
    JoinLacks(UserTokens(), " ", '\n');
    OneLine(UserLogin().extension);
  }

  lemma UserWellFormed()
    ensures Cef.WFHeader(UserLogin())
  {
    UserFields();
    UserOneLine();
    assert AllDigits(UserLogin().version);
  }

  /** `suser` and `sdomain` name the subject. */
  lemma UserSubject()
    ensures Cef.AccountOf(Cef.Extensions(UserLogin().extension), "suser", "sdomain")
      == Some(Account("john.doe", "EXAMPLE", ""))
  {
    UserExtensions();
  }

  /** `success` is written in lower case and names itself. */
  lemma SuccessWord()
    ensures Lower("success") == "success" && AnyIn("success", ["success"])
  {
    PrefixContained("success", "success");
    assert Contains("success", ["success"][0]);
  }

  /** `outcome=success` decides the result. */
  lemma UserOutcome()
    ensures Cef.ResultOf(Cef.Extensions(UserLogin().extension)) == Success
  {
    UserExtensions();
    SuccessWord();
  }

  /**
   * The second CEF test line `CEF:0|Vendor|Product|1.0|200|User Login|5|suser=john.doe
   * sdomain=EXAMPLE act=login outcome=success` is accepted: the subject is
   * `john.doe` in domain `EXAMPLE`, and the result is Success.
   */
  lemma UserParsed(rt: Runtime)
    ensures var r := Cef.Normalize(Cef.Render(UserLogin()), rt);
      r.Ok? && r.value.subjectAccount == Some(Account("john.doe", "EXAMPLE", ""))
      && r.value.result == Success
  {
    UserWellFormed();
    Cef.MatchRender(UserLogin());
    UserSubject();
    UserOutcome();
  }

  // ---------------------------------------------------------------------
  // Processing
  // ---------------------------------------------------------------------

  /** The header of the CEF line the processing test uses. */
  function SmallCef(): Cef.Header
  {
    Cef.Header("0", "Vendor", "Product", "1.0", "100", "Test", "5", "src=1.1.1.1")
  }

  lemma SmallCefWellFormed()
    ensures Cef.WFHeader(SmallCef())
  {
    FieldsFree(SmallCef());
    OneLine(SmallCef().extension);
  }

  /** The processing test's CEF line `CEF:0|Vendor|Product|1.0|100|Test|5|src=1.1.1.1` is detected as CEF. */
  lemma SmallCefDetected()
    ensures Detect(Cef.Render(SmallCef())) == CefLog
  {
    var s := Cef.Render(SmallCef());
    assert s[..4] == "CEF:";
    assert s[0] == 'C' && s[|s| - 1] == '1';
    DetectTrimmed(s);
  }

  /** Processing the CEF line of the processing test yields an event. */
  lemma SmallCefProcessed(rt: Runtime)
    ensures Dispatch(Cef.Render(SmallCef()), rt).Ok?
  {
    SmallCefDetected();
    SmallCefWellFormed();
    Cef.MatchRender(SmallCef());
  }

  // ---------------------------------------------------------------------
  // Windows event XML
  // ---------------------------------------------------------------------

  /** `s` cannot contain `sub` when `sub` holds a character `s` lacks. */
  lemma Lacks(s: string, sub: string, c: char)
    requires c in sub && c !in s
    ensures !Contains(s, sub)
  {
    ContainsIff(s, sub);
    var k :| 0 <= k < |sub| && sub[k] == c;
    forall i: nat | i + |sub| <= |s|
      ensures !OccursAt(s, sub, i)
    {
      assert s[i..i + |sub|][k] == s[i + k];
    }
  }

  /** A string contains itself. */
  lemma ContainsSelf(s: string)
    ensures Contains(s, s)
  {
    ContainsAt(s, s, 0);
  }

  /** The logon document of the XML test, as the decoder hands it over. */
  function Logon(): XmlSchema.Event
  {
    XmlSchema.Event(
      XmlSchema.System("Microsoft-Windows-" + "Security-Auditing", "{54849625-5478-4994-" + "A5BA-3E3B0328C30D}",
                       4624, 0, 0, 0, 0, "", "2023-10-11T" + "22:14:15.123456Z", 0, "", 500, 600, "",
                       "workstation" + ".example.com", ""),
      [XmlSchema.Data("Target" + "UserName", "john.doe"), XmlSchema.Data("Target" + "DomainName", "EXAMPLE")])
  }

  lemma UserNameField()
    ensures Xml.FieldOf(Logon().data[0].name) == Xml.UserName
  {
    assert Lower(Logon().data[0].name) == "targetusername";
    ContainsSelf("targetusername");
  }

  lemma DomainNameLower()
    ensures Lower(Logon().data[1].name) == "targetdomainname"
  {
  }

  lemma DomainNameField()
    ensures Xml.FieldOf(Logon().data[1].name) == Xml.DomainName
  {
    DomainNameLower();
    DomainNameMatches();
  }

  /** `targetdomainname` names a domain and not a user. */
  lemma DomainNameMatches()
    ensures !Contains("targetdomainname", "targetusername") && !Contains("targetdomainname", "subjectusername")
    ensures Contains("targetdomainname", "targetdomainname")
  {
    Lacks("targetdomainname", "targetusername", 'u');
    Lacks("targetdomainname", "subjectusername", 'u');
    ContainsSelf("targetdomainname");
  }

  /** The pairs of the logon document feed the user name and then the domain name. */
  lemma LogonTags()
    ensures Xml.Tags(Logon().data) == [Xml.Tagged(Xml.UserName, "john.doe"), Xml.Tagged(Xml.DomainName, "EXAMPLE")]
  {
    UserNameField();
    DomainNameField();
  }

  /**
   * Parsing the logon document: host `workstation.example.com`, application
   * the provider, process 500, an authentication event, and the subject
   * `john.doe` of domain `EXAMPLE`.
   */
  lemma XmlParsed(text: string, rt: Runtime)
    requires rt.decodeXml(text) == Some(Logon())
    ensures Xml.Normalize(text, rt).Ok?
    ensures Xml.Normalize(text, rt).value.source.hostname == "workstation" + ".example.com"
    ensures Xml.Normalize(text, rt).value.source.application == "Microsoft-Windows-" + "Security-Auditing"
    ensures Xml.Normalize(text, rt).value.source.processId == 500
    ensures Xml.Normalize(text, rt).value.category == Authentication
    ensures Xml.Normalize(text, rt).value.subjectAccount == Some(Account("john.doe", "EXAMPLE", ""))
  {
    var ev := Logon();
    LogonTags();
    assert Xml.LastOf(Xml.Tags(ev.data), Xml.UserName) == Some("john.doe");
    assert Xml.LastOf(Xml.Tags(ev.data), Xml.DomainName) == Some("EXAMPLE");
    Xml.SubjectOf(ev, rt);
    Xml.EnrichedKeeps(Xml.BaseEvent(ev, rt), Xml.Tags(ev.data));
    assert Xml.RangeCategory(4624) == Some(Authentication);
  }

  // ---------------------------------------------------------------------
  // LEEF
  // ---------------------------------------------------------------------

  /** The attribute token `k=v`. */
  function Token(k: string, v: string): string
  {
    k + "=" + v
  }

  /** A trimmed `key=value` token is read as its key and value. */
  lemma TrimmedEntry(k: string, v: string)
    requires '=' !in k && Trimmed(k) && Trimmed(v)
    ensures Entry(Token(k, v), true) == Some((k, v))
  {
    FreeOf(k, '=');
    UntilOf(k, '=', v);
    TrimmedFixed(k);
    TrimmedFixed(v);
  }

  /** LEEF header fields without `|` are read back as they stand. */
  lemma LeefFieldsFree(h: Leef.Header)
    requires '|' !in h.vendor && '|' !in h.product && '|' !in h.productVersion && '|' !in h.eventId
    ensures forall i :: 0 <= i < 4 ==> Free(Leef.HeaderFields(h)[i], '|')
  {
    FreeOf(h.vendor, '|');
    FreeOf(h.product, '|');
    FreeOf(h.productVersion, '|');
    FreeOf(h.eventId, '|');
  }

  /** The tokens `ks[i]=vs[i]`, in order. */
  function Tokens(ks: seq<string>, vs: seq<string>): (t: seq<string>)
    requires |ks| == |vs|
    ensures |t| == |ks| && forall i :: 0 <= i < |ks| ==> t[i] == Token(ks[i], vs[i])
  {
    seq(|ks|, i requires 0 <= i < |ks| => Token(ks[i], vs[i]))
  }

  /** The map that assigns each key its value, later keys overwriting earlier ones. */
  function Pairs(ks: seq<string>, vs: seq<string>): map<string, string>
    requires |ks| == |vs|
  {
    if ks == [] then map[] else Pairs(ks[..|ks| - 1], vs[..|vs| - 1])[ks[|ks| - 1] := vs[|vs| - 1]]
  }

  /** A key no later key repeats maps to its own value. */
  lemma {:induction false} PairsAt(ks: seq<string>, vs: seq<string>, i: nat)
    requires |ks| == |vs| && i < |ks|
    requires forall j :: i < j < |ks| ==> ks[j] != ks[i]
    ensures ks[i] in Pairs(ks, vs) && Pairs(ks, vs)[ks[i]] == vs[i]
  {
    var n := |ks|;
    if i < n - 1 {
      PairsAt(ks[..n - 1], vs[..n - 1], i);
    }
  }

  /** A key that is not among the keys is not in the map. */
  lemma {:induction false} PairsMissing(ks: seq<string>, vs: seq<string>, k: string)
    requires |ks| == |vs| && k !in ks
    ensures k !in Pairs(ks, vs)
  {
    if ks != [] {
      var n := |ks|;
      assert ks == ks[..n - 1] + [ks[n - 1]];
      PairsMissing(ks[..n - 1], vs[..n - 1], k);
    }
  }

  /** Keys without `=` and keys and values without surrounding white space. */
  predicate Plain(ks: seq<string>, vs: seq<string>)
  {
    |ks| == |vs| && forall i :: 0 <= i < |ks| ==> '=' !in ks[i] && Trimmed(ks[i]) && Trimmed(vs[i])
  }

  lemma PlainInit(ks: seq<string>, vs: seq<string>)
    requires Plain(ks, vs) && ks != []
    ensures Plain(ks[..|ks| - 1], vs[..|vs| - 1])
  {
    var n := |ks|;
    forall i | 0 <= i < n - 1 ensures ks[..n - 1][i] == ks[i] && vs[..n - 1][i] == vs[i] {
    }
  }

  lemma TokensInit(ks: seq<string>, vs: seq<string>)
    requires |ks| == |vs| && ks != []
    ensures Tokens(ks, vs)[..|ks| - 1] == Tokens(ks[..|ks| - 1], vs[..|vs| - 1])
  {
  }

  /** The map of the tokens is that of all but the last, updated by the last entry. */
  lemma KeyValuesSnoc(parts: seq<string>, k: string, v: string)
    requires parts != [] && Entry(parts[|parts| - 1], true) == Some((k, v))
    ensures KeyValues(parts, true) == KeyValues(parts[..|parts| - 1], true)[k := v]
  {
  }

  /** Plain tokens are read back, trimmed, as the map of their keys and values. */
  lemma {:induction false} TokensRead(ks: seq<string>, vs: seq<string>)
    requires Plain(ks, vs)
    ensures KeyValues(Tokens(ks, vs), true) == Pairs(ks, vs)
  {
    if ks != [] {
      var n := |ks|;
      var t := Tokens(ks, vs);
      PlainInit(ks, vs);
      TokensRead(ks[..n - 1], vs[..n - 1]);
      TokensInit(ks, vs);
      TrimmedEntry(ks[n - 1], vs[n - 1]);
      KeyValuesSnoc(t, ks[n - 1], vs[n - 1]);
    }
  }

  /** No token holds `c` when no key or value does and `c` is not `=`. */
  lemma TokensLack(ks: seq<string>, vs: seq<string>, c: char)
    requires |ks| == |vs| && c != '='
    requires forall i :: 0 <= i < |ks| ==> c !in ks[i] && c !in vs[i]
    ensures forall i :: 0 <= i < |ks| ==> c !in Tokens(ks, vs)[i] && Free(Tokens(ks, vs)[i], c)
  {
    forall i | 0 <= i < |ks| ensures c !in Tokens(ks, vs)[i] && Free(Tokens(ks, vs)[i], c) {
      FreeOf(Tokens(ks, vs)[i], c);
    }
  }

  /** The keys and values of the LEEF 1.0 test line. */
  function ExchangeKeys(): seq<string>
  {
    ["src", "dst", "sev", "cat", "srcPort", "dstPort"]
  }

  function ExchangeValues(): seq<string>
  {
    ["10.0.0.1", "172.50.123.1", "5", "anomaly", "81", "21"]
  }

  /** The header of the LEEF 1.0 test line; its attributes are the tokens joined by tabs. */
  function Exchange(): Leef.Header
  {
    Leef.Header("1.0", "Microsoft", "MSExchange", "4.0 SP1", "15345", Join(Tokens(ExchangeKeys(), ExchangeValues()), "\t"))
  }

  lemma ExchangePlain()
    ensures Plain(ExchangeKeys(), ExchangeValues())
  {
  }

  /** The attribute map of the LEEF 1.0 test line: version 1.0 always splits on tabs. */
  lemma ExchangeAttributes()
    ensures Leef.Attributes(Exchange().attributes, Exchange().version)
      == Pairs(ExchangeKeys(), ExchangeValues())
  {
    var ks, vs := ExchangeKeys(), ExchangeValues();
    TokensLack(ks, vs, '\t');
    SplitJoin(Tokens(ks, vs), '\t');
    ExchangePlain();
    TokensRead(ks, vs);
  }

  lemma ExchangeOneLine()
    ensures AllIn(Exchange().attributes, LineChar)
  {
    var ks, vs := ExchangeKeys(), ExchangeValues();
    TokensLack(ks, vs, '\n');
    JoinLacks(Tokens(ks, vs), "\t", '\n');
    OneLine(Exchange().attributes);
  }

  /** The header fields of the LEEF 1.0 test line, whatever its attributes. */
  lemma ExchangeFields(attributes: string)
    ensures forall i :: 0 <= i < 4 ==>
      Free(Leef.HeaderFields(Leef.Header("1.0", "Microsoft", "MSExchange", "4.0 SP1", "15345", attributes))[i], '|')
  {
    LeefFieldsFree(Leef.Header("1.0", "Microsoft", "MSExchange", "4.0 SP1", "15345", attributes));
  }

  lemma ExchangeWellFormed()
    ensures Leef.WFHeader(Exchange())
  {
    ExchangeFields(Exchange().attributes);
    ExchangeOneLine();
    assert AllIn("1.0", VersionChar);
  }

  /** The `src` address of the LEEF 1.0 test line. */
  lemma ExchangeSource()
    ensures "src" in Pairs(ExchangeKeys(), ExchangeValues()) && Pairs(ExchangeKeys(), ExchangeValues())["src"] == "10.0.0.1"
  {
    PairsAt(ExchangeKeys(), ExchangeValues(), 0);
  }

  /**
   * Parsing the LEEF 1.0 test line
   * `LEEF:1.0|Microsoft|MSExchange|4.0 SP1|15345|src=10.0.0.1<TAB>dst=...`:
   * vendor and product are kept in the additional data, and the address is
   * that of `src`.
   */
  lemma LeefParsed(rt: Runtime)
    ensures Leef.Normalize(Leef.Render(Exchange()), rt).Ok?
    ensures Leef.Normalize(Leef.Render(Exchange()), rt).value.additionalData["vendor"] == Str("Microsoft")
    ensures Leef.Normalize(Leef.Render(Exchange()), rt).value.additionalData["product"] == Str("MSExchange")
    ensures Leef.Normalize(Leef.Render(Exchange()), rt).value.source.ipAddress == "10.0.0.1"
  {
    var h := Exchange();
    ExchangeWellFormed();
    Leef.MatchRender(h);
    var attrs := Leef.Attributes(h.attributes, h.version);
    ExchangeAttributes();
    ExchangeSource();
    Leef.ProductDataKept(h, attrs);
    assert Filled(attrs, ["src", "dst"][0]);
  }

  /** The keys and values of the LEEF 2.0 test line. */
  function AdminKeys(): seq<string>
  {
    ["usrName", "action", "result"]
  }

  function AdminValues(): seq<string>
  {
    ["admin", "login", "success"]
  }

  /** The header of the LEEF 2.0 test line; its attributes are the tokens joined by `^`. */
  function Admin(): Leef.Header
  {
    Leef.Header("2.0", "Vendor", "Product", "1.0", "EventID", Join(Tokens(AdminKeys(), AdminValues()), "^"))
  }

  /** The 2.0 attributes hold `^` but no `x09`, so they are split on `^`. */
  lemma AdminDelimiter()
    ensures Leef.DelimiterOf(Admin().version, Admin().attributes) == Leef.Caret
  {
    var t := Tokens(AdminKeys(), AdminValues());
    var a := Admin().attributes;
    TokensLack(AdminKeys(), AdminValues(), 'x');
    JoinLacks(t, "^", 'x');
    Lacks(a, "x09", 'x');
    assert a == t[0] + "^" + Join(t[1..], "^");
    assert a[|t[0]|..|t[0]| + 1] == "^";
    ContainsAt(a, "^", |t[0]|);
  }

  lemma AdminPlain()
    ensures Plain(AdminKeys(), AdminValues())
  {
  }

  /** The attributes of the LEEF 2.0 test line split back into its tokens. */
  lemma AdminParts()
    ensures Leef.Parts(Admin().attributes, Leef.DelimiterOf(Admin().version, Admin().attributes))
      == Tokens(AdminKeys(), AdminValues())
  {
    TokensLack(AdminKeys(), AdminValues(), '^');
    SplitJoin(Tokens(AdminKeys(), AdminValues()), '^');
    AdminDelimiter();
  }

  /** The attribute map of the LEEF 2.0 test line. */
  lemma AdminAttributes()
    ensures Leef.Attributes(Admin().attributes, Admin().version) == Pairs(AdminKeys(), AdminValues())
  {
    AdminParts();
    AdminPlain();
    TokensRead(AdminKeys(), AdminValues());
  }

  lemma AdminOneLine()
    ensures AllIn(Admin().attributes, LineChar)
  {
    var ks, vs := AdminKeys(), AdminValues();
    TokensLack(ks, vs, '\n');
    JoinLacks(Tokens(ks, vs), "^", '\n');
    OneLine(Admin().attributes);
  }

  lemma AdminWellFormed()
    ensures Leef.WFHeader(Admin())
  {
    LeefFieldsFree(Admin());
    AdminOneLine();
    assert AllIn("2.0", VersionChar);
  }

  /** `usrName` names the user of the LEEF 2.0 test line, and there is no `srcUser`. */
  lemma AdminUser()
    ensures "srcUser" !in Pairs(AdminKeys(), AdminValues())
    ensures "usrName" in Pairs(AdminKeys(), AdminValues()) && Pairs(AdminKeys(), AdminValues())["usrName"] == "admin"
  {
    PairsMissing(AdminKeys(), AdminValues(), "srcUser");
    PairsAt(AdminKeys(), AdminValues(), 0);
  }

  /**
   * Parsing the LEEF 2.0 test line
   * `LEEF:2.0|Vendor|Product|1.0|EventID|usrName=admin^action=login^result=success`:
   * the subject is `admin`.
   */
  lemma LeefV2Parsed(rt: Runtime)
    ensures Leef.Normalize(Leef.Render(Admin()), rt).Ok?
    ensures Leef.Normalize(Leef.Render(Admin()), rt).value.subjectAccount == Some(Account("admin", "", ""))
  {
    var h := Admin();
    AdminWellFormed();
    Leef.MatchRender(h);
    AdminAttributes();
    AdminUser();
    Leef.EventAccounts(h, Leef.Attributes(h.attributes, h.version), rt);
  }
}
