# loggerv2 normalisation core, in Dafny

This project models the log-normalisation engine of loggerv2. The engine takes one raw log line in one of four formats and turns it into a single canonical security record, the GOST R 59710-2021 event. The four formats are syslog (RFC 5424 and BSD/RFC 3164), ArcSight CEF, IBM QRadar LEEF and Windows Event XML. The record has a severity, a category, a result, source host and application, accounts, an action and a map of additional data.

Modules, one file each:

- `Wrappers`: `Option` and `Result`.
- `Text`: the string primitives the parsers rely on. These are deterministic scanners that replace each regular expression, plus `strings.Split`, `TrimSpace`, ASCII `ToLower`, substring search and `strconv.Atoi`.
- `Gost`: the record, its closed vocabularies, and the `Runtime` collaborators.
- `XmlSchema`: the decoded Windows event.
- `Syslog`, `Cef`, `Leef`, `Xml`: the four parsers.
- `Processor`: format detection, dispatch and batch processing.
- `Forwarder`: the priority and header fallbacks the syslog forwarder computes.
- `Samples`: the lines of the repository's own tests, with lemmas stating what the model computes for each.

Where the source works by updating state in loops, the model has methods with loops, and each method is proved equal to a function. These are `IsNumeric` (used by `DetectLogType`), the extension and attribute parsers, the additional-data copy loops, `buildDescription`, the XML enrichment loop and `ProcessBatch`. `Process` has no loop; it is a method because the source's `Process` is a method of the processor, and it is proved equal to `Dispatch`. The properties are proved about those functions.

Collaborators outside the engine are parameters, bundled in `Gost.Runtime`:

- the processing time;
- Go's `time.Parse` for a layout and a text;
- the year re-stamp for BSD syslog times;
- the XML decoder.

So every timestamp is "the first layout that parses, else now", with the clock and the layout grammar left abstract.

Where the code and the format descriptions could be read two ways, the model follows the code:

- The XML level mapping is kept as written: level 4 gives informational and level 5 gives low.
- The format detector trims the line, but each parser receives the untrimmed line. A CEF line with a leading space is therefore detected as CEF and then rejected (`Processor.LeadingSpaceRejected`).
- A LEEF severity of `"9"` falls through to informational (`Leef.NineIsInfo`).

## Model

| member | source | states |
|---|---|---|
| Processor.IsNumeric | internal/processor/processor.go:128-135 | true exactly when the string is non-empty and every character is a decimal digit |
| Processor.DetectLogType | internal/processor/processor.go:77-108 | the loop-based detector agrees with the classification of the trimmed line |
| Processor.DetectIgnoresSpace | internal/processor/processor.go:78 | white space around a line never changes its detected format |
| Processor.SyslogSound | internal/processor/processor.go:97-104 | a line detected as syslog opens with `<`, 1 to 8 digits and its first `>`, and contains no `<?xml` |
| Processor.SyslogComplete | internal/processor/processor.go:97-104 | a line with such a priority tag and no `<?xml` is detected as syslog |
| Processor.SyslogIff | internal/processor/processor.go:88-104 | both directions together: syslog exactly when there is a priority tag and no `<?xml` |
| Processor.XmlIff | internal/processor/processor.go:88-95 | XML exactly when the line starts with `<` and contains `<?xml`, or starts with `<Event`; the separate `<?xml` prefix rule is subsumed |
| Processor.PrefixContained | internal/processor/processor.go:88-89 | a line that starts with a pattern contains it |
| Processor.SyslogSample | internal/processor/processor.go:97-104 | `<134>ok` is detected as syslog |
| Processor.DispatchErrors | internal/processor/processor.go:42-57 | a line fails only with its own format's error, and fails as unknown exactly when no format was detected |
| Processor.LeadingSpaceRejected | internal/processor/processor.go:42-49 | a trimmed CEF line after one space is still detected as CEF, and the CEF parser rejects it |
| Processor.Process | internal/processor/processor.go:42-57 | processing one line equals dispatching it to the detected format's parser |
| Processor.PartitionCounts | internal/processor/processor.go:64-71 | every line becomes exactly one event or one error |
| Processor.PartitionErrorLines | internal/processor/processor.go:66-67 | every error carries a line number from 1 to the batch size, and that line failed with that error |
| Processor.PartitionOrdered | internal/processor/processor.go:64-67 | error line numbers strictly increase |
| Processor.PartitionComplete | internal/processor/processor.go:64-68 | every failed line is reported under its own number |
| Processor.PartitionEventsAppend | internal/processor/processor.go:64-71 | the events of two consecutive runs of lines are the first run's events followed by the second's |
| Processor.BatchCounts | internal/processor/processor.go:60-74 | a batch has as many events plus errors as lines |
| Processor.BatchComplete | internal/processor/processor.go:64-68 | every line whose dispatch fails is reported under its number |
| Processor.ProcessBatch | internal/processor/processor.go:60-74 | the loop produces the events in input order and the numbered errors, and every error names a line, counting from 1, whose dispatch failed with exactly that error |
| Syslog.Match5424Render | internal/parser/syslog.go:21 | a well-formed RFC 5424 record renders to a line that the RFC 5424 matcher reads back unchanged |
| Syslog.Match5424Sound | internal/parser/syslog.go:21 | every RFC 5424 match is well formed: a digit priority and version, single-token fields, a message without a line break |
| Syslog.Match3164Render | internal/parser/syslog.go:18 | a well-formed BSD record renders to a line that the RFC 3164 matcher reads back unchanged, including the optional `[pid]` |
| Syslog.Match3164Sound | internal/parser/syslog.go:18 | every BSD match has a token hostname, a non-empty application name and a single-line message |
| Syslog.SplitPid | internal/parser/syslog.go:18 | a tag splits into application and pid only as `app[digits]` with a non-empty app; otherwise the whole tag is the application |
| Syslog.SplitPidOf | internal/parser/syslog.go:18 | `app[pid]` with a non-empty app and digit pid splits back into the two |
| Syslog.PriorityValue | internal/parser/syslog.go:41 | the priority digits as a number, clamped to the 64-bit maximum as the ignored Atoi error leaves it |
| Syslog.SeverityOf | internal/parser/syslog.go:124-141 | codes 0-2 give critical, 3 high, 4 medium, 5-6 low and 7 info, of `priority % 8`; each in both directions |
| Syslog.SeverityIgnoresFacility | internal/parser/syslog.go:125 | the facility never changes the severity |
| Syslog.SeverityAntitone | internal/parser/syslog.go:124-141 | a larger syslog code never gives a more severe level |
| Syslog.Categorize | internal/parser/syslog.go:143-160 | the first keyword group found in the lower-cased message decides; none found gives system event |
| Syslog.CategorizeIgnoresCase | internal/parser/syslog.go:144 | the category does not depend on letter case |
| Syslog.PriorityData | internal/parser/syslog.go:73-75 | exactly the three priority keys, with priority = 8 × facility + severity and the code below 8 |
| Syslog.From3164 | internal/parser/syslog.go:40-78 | the timestamp parsed by the BSD layout and moved into the current year, else now; the BSD record's message, host, app, severity, category and unknown result; the process id is `AtoiOrZero` of the pid, or 0 without one; the additional data is exactly the priority, facility and severity entries; no accounts, empty action, ip address and process |
| Syslog.From5424 | internal/parser/syslog.go:80-122 | the same for RFC 5424, with the timestamp parsed as RFC 3339, else now: the process id is `AtoiOrZero` of the procid, or 0 for `-`; the additional data holds exactly the priority entries plus `syslog_version` and `syslog_msgid`; no accounts, empty action, ip address and process |
| Syslog.Parse | internal/parser/syslog.go:28-38 | RFC 5424 is tried first and then RFC 3164; the parse fails, with the syslog error, exactly when neither matches |
| Cef.MatchRender | internal/parser/cef.go:18 | a well-formed header renders to a line that the header matcher reads back unchanged |
| Cef.MatchSound | internal/parser/cef.go:18 | every match is well formed, and the line is its rendering |
| Cef.MatchIff | internal/parser/cef.go:18-29 | a line matches as a header exactly when it is the rendering of a well-formed one |
| Cef.ExtensionKeys | internal/parser/cef.go:100-113 | extension keys contain neither space nor `=` |
| Cef.ParseExtensions | internal/parser/cef.go:100-113 | the loop builds the key=value map of the space-separated tokens, with later keys winning |
| Cef.Ladder | internal/parser/cef.go:142-153 | the thresholds 8, 6, 4 and 2, each band in both directions |
| Cef.LadderMonotone | internal/parser/cef.go:142-153 | a larger number is never less severe |
| Cef.SeverityOf | internal/parser/cef.go:136-154 | the ladder applied to the parsed integer; a non-integer gives info |
| Cef.Categorize | internal/parser/cef.go:156-181 | the first keyword group found in the lower-cased name decides; none found gives system event |
| Cef.ResultOf | internal/parser/cef.go:183-205 | a conclusive `outcome` decides, else a conclusive `act`, else unknown, in both directions |
| Cef.ResultOnlyReadsOutcomeAndAct | internal/parser/cef.go:183-205 | changing any other extension never changes the result |
| Cef.OutcomeOverridesAct | internal/parser/cef.go:184-192 | with a conclusive `outcome`, `act` does not matter |
| Cef.ParseTime | internal/parser/cef.go:115-134 | the first layout that parses, else the integer as milliseconds with 64-bit wrap, else nothing |
| Cef.RtShadowsEnd | internal/parser/cef.go:42-51 | with `rt` present, `end` is never consulted, and an unparsable `rt` gives the processing time |
| Cef.AccountOf | internal/parser/cef.go:75-87 | an account exists exactly when the user key is present, with the domain or "" |
| Cef.EventAccounts | internal/parser/cef.go:53-95 | the subject is `suser` with its `sdomain`, the object `duser` with its `ddomain`, each present exactly when its user key is; the action is `act` or empty, and the description is the name |
| Cef.ExtensionData | internal/parser/cef.go:89-91 | every extension is stored under `cef_`, winning over a header entry of the same key |
| Cef.DeviceDataKept | internal/parser/cef.go:69-72 | the vendor, product, version and signature entries are never overwritten |
| Cef.KeptEntry | internal/parser/cef.go:68-73 | a header entry not starting with `cef_` survives the copy |
| Cef.ShadowedDataKept | internal/parser/cef.go:68-91 | `cef_version` and `cef_severity` hold the header value unless an extension of that name replaces it |
| Cef.DataKeys | internal/parser/cef.go:65-91 | every stored key is a header key or `cef_` plus an extension key |
| Cef.Assemble | internal/parser/cef.go:40-97 | the record built step by step equals the record of the header and extensions |
| Cef.Parse | internal/parser/cef.go:25-98 | parsing is the rejection of a non-matching line or the record of the matched one |
| Leef.MatchRender | internal/parser/leef.go:17 | a well-formed header renders to a line that the header matcher reads back unchanged |
| Leef.MatchSound | internal/parser/leef.go:17 | every match is well formed, and the line is its rendering |
| Leef.MatchIff | internal/parser/leef.go:17-28 | a line matches exactly when it is the rendering of a well-formed header |
| Leef.DelimiterOf | internal/parser/leef.go:101-108 | only version 2.0 changes the tab delimiter: `x09` first, then `^` |
| Leef.AttributeShape | internal/parser/leef.go:119-125 | attribute keys and values are trimmed, and keys contain no `=` |
| Leef.ParseAttributes | internal/parser/leef.go:98-128 | the loop builds the trimmed key=value map of the delimited parts, with later keys winning |
| Leef.SevLevel | internal/parser/leef.go:150-161 | every level holds exactly when its keyword or literal code applies and no earlier level's does |
| Leef.SeverityOf | internal/parser/leef.go:147-165 | no `sev` gives info, otherwise its level |
| Leef.DigitsMissWords | internal/parser/leef.go:150-159 | a numeric severity never matches a keyword |
| Leef.NumericLevel | internal/parser/leef.go:151-158 | numeric severities map 10 to critical, 7-8 high, 5-6 medium, 3-4 low, anything else info |
| Leef.NineIsInfo | internal/parser/leef.go:151-164 | `"9"` is informational |
| Leef.Categorize | internal/parser/leef.go:167-200 | a `cat` keyword decides first, else the first keyword group in the event id, else system event |
| Leef.CatCategories | internal/parser/leef.go:170-181 | `cat` can only yield authentication, access or network |
| Leef.ResultOf | internal/parser/leef.go:202-224 | a conclusive `result` decides, else a conclusive `action`, else unknown, in both directions |
| Leef.ResultOverridesAction | internal/parser/leef.go:203-211 | with a conclusive `result`, `action` does not matter |
| Leef.EventAccounts | internal/parser/leef.go:67-93 | `srcUser` with its `srcDomain` is the subject, ahead of `usrName` with no domain; `dstUser` with its `dstDomain` is the object; the action is `action`, else `cat`, else empty |
| Leef.AttributeData | internal/parser/leef.go:85-87 | every attribute is stored under `leef_` |
| Leef.NotLeefKey | internal/parser/leef.go:61-87 | a key not starting with `l` cannot be a `leef_` key |
| Leef.KeptEntry | internal/parser/leef.go:61-65 | a header entry outside `leef_` survives the copy |
| Leef.ProductDataKept | internal/parser/leef.go:62-65 | vendor, product, product version and event id are never overwritten |
| Leef.VersionDataKept | internal/parser/leef.go:61-87 | `leef_version` is the header version unless a `version` attribute replaces it |
| Leef.DataKeys | internal/parser/leef.go:58-87 | every stored key is a header key or `leef_` plus an attribute key |
| Leef.Assemble | internal/parser/leef.go:37-95 | the record built step by step equals the record of the header and attributes |
| Leef.Parse | internal/parser/leef.go:24-96 | parsing is the rejection of a non-matching line or the record of the matched one |
| Xml.LevelSeverity | internal/parser/xml.go:146-161 | levels 1-3 give ranks 4-2, 5 gives low, and every other level gives info |
| Xml.RangeCategory | internal/parser/xml.go:168-177 | the four event id ranges and their categories; no range outside them |
| Xml.Categorize | internal/parser/xml.go:163-192 | a range decides; otherwise security exactly when channel or provider mentions security, else system; never network |
| Xml.RangeDecides | internal/parser/xml.go:168-177 | inside a range, channel and provider are irrelevant |
| Xml.PairVerdict | internal/parser/xml.go:196-206 | a status or result pair is success on a success value, else failure on a failure value, in both directions |
| Xml.FirstSome | internal/parser/xml.go:195-207 | the first conclusive verdict, with none before it |
| Xml.ResultOf | internal/parser/xml.go:194-222 | the first conclusive pair, else failure for level 1-2, else 4625 failure and 4624 or 4634-4647 success, else unknown |
| Xml.ConclusivePairDecides | internal/parser/xml.go:195-207 | pairs after a conclusive one never change the result |
| Xml.DescriptionLines | internal/parser/xml.go:131-137 | no more lines than pairs, and none exactly when every value is empty |
| Xml.DescriptionLinesAppend | internal/parser/xml.go:133-137 | the lines of concatenated data are concatenated |
| Xml.DescriptionFallback | internal/parser/xml.go:130-144 | with no values, `Event ID <id> from <provider>`; otherwise the lines joined by `; ` |
| Xml.BuildDescription | internal/parser/xml.go:130-144 | the loop builds that description |
| Xml.NamedKeys | internal/parser/xml.go:113-117 | a name is copied exactly when it is non-empty and some pair carries it |
| Xml.NamedLastWins | internal/parser/xml.go:113-117 | the copied value is that of the last pair with the name |
| Xml.ProviderGuidKept | internal/parser/xml.go:111 | the provider guid entry is always present |
| Xml.DataKeys | internal/parser/xml.go:104-117 | every named pair is stored under `xml_`; any other key beyond the System entries is `xml_` plus a non-empty data name |
| Xml.CopyEventData | internal/parser/xml.go:113-117 | the loop adds exactly the prefixed named pairs |
| Xml.LastOf | internal/parser/xml.go:225-248 | the value of the last pair of a field, when there is one |
| Xml.FirstAddress | internal/parser/xml.go:241-244 | the first non-empty address value, or "" when there is none |
| Xml.FirstAddressSnoc | internal/parser/xml.go:241-244 | a later address never replaces an earlier non-empty one |
| Xml.EnrichedAddress | internal/parser/xml.go:241-244 | an address already set is kept, otherwise the first non-empty one is taken |
| Xml.EnrichedProcess | internal/parser/xml.go:246-247 | the last process name wins |
| Xml.EnrichedSubject | internal/parser/xml.go:229-239 | a subject exists exactly when it did or a user or domain pair appears; the last user and domain win and the seeded user id stays |
| Xml.EnrichedKeeps | internal/parser/xml.go:224-250 | enrichment touches nothing but the subject, address and process |
| Xml.Enrich | internal/parser/xml.go:224-250 | the loop equals the enrichment of the classified pairs |
| Xml.SubjectOf | internal/parser/xml.go:119-125 | a record's subject comes from the security user id and the last user and domain pairs |
| Xml.AddressOf | internal/parser/xml.go:89-125 | a record's address is the first non-empty address pair |
| Xml.Parse | internal/parser/xml.go:76-128 | a decoding failure is the XML error; otherwise the assembled and enriched record |
| Forwarder.CalculatePriority | internal/siem/syslog_forwarder.go:96-116 | always 130-134 with facility 16; each label is 134 minus its rank, and an unknown label gives 134 |
| Forwarder.DecodeAgrees | internal/siem/syslog_forwarder.go:101-110 | the syslog parser reads a forwarded priority back to the same severity, except info, which comes back as low |
| Forwarder.DecodedNeverInfo | internal/siem/syslog_forwarder.go:96-116 | no forwarded priority is read back as info |
| Forwarder.OrDefault | internal/siem/syslog_forwarder.go:75-82 | a non-empty value passes through; an empty one becomes the fallback |
| Forwarder.HeaderHostname | internal/siem/syslog_forwarder.go:75-78 | the HOSTNAME field keeps a non-empty host, and an empty host becomes `unknown` |
| Forwarder.HeaderAppName | internal/siem/syslog_forwarder.go:79-82 | the APP-NAME field keeps a non-empty application, and an empty application becomes `loggerv2` |
| Gost.FirstParse | internal/parser/leef.go:138-144 | the result of the first layout that parses, with none before it; nothing exactly when none parses |
| Gost.Verdict | internal/parser/cef.go:184-192 | success on a success word, else failure on a failure word, else undecided, in both directions |
| Gost.FirstNonEmpty | internal/parser/cef.go:207-214 | the first listed key with a non-empty value, or "" exactly when there is none |
| Gost.Prefixed | internal/parser/cef.go:89-91 | each entry under the prefix, and nothing else |
| Gost.PutPrefixed | internal/parser/cef.go:89-91 | the map-iteration copy loop yields the prefixed map laid over the existing data, whatever the order |
| Text.Split | internal/parser/cef.go:103 | at least one part, none containing the separator, and they join back to the input |
| Text.SplitJoin | internal/parser/cef.go:103 | splitting a join of separator-free parts returns the parts |
| Text.KeyValuesKeys | internal/parser/cef.go:104-110 | a key is stored exactly when some part has it before its first `=` |
| Text.KeyValuesLastWins | internal/parser/cef.go:104-110 | the stored value comes from the last part with that key |
| Text.StoreEntries | internal/parser/leef.go:119-125 | the loop builds exactly that key=value map |
| Text.TrimSurrounded | internal/processor/processor.go:78 | trimming ignores white space added around a line |
| Text.TrimSpace | internal/processor/processor.go:78 | the result is the input with its leading and trailing white space removed, and has none itself |
| Text.TrimmedFixed | internal/processor/processor.go:78 | a line without surrounding white space is its own trim |
| Text.Lower | internal/parser/cef.go:157 | character by character the lower-case letter, and lower-casing twice changes nothing further |
| Text.ContainsIff | internal/parser/cef.go:159-160 | substring search succeeds exactly when the pattern occurs at some offset |
| Text.FirstMatch | internal/parser/cef.go:156-181 | the outcome of the first rule one of whose words occurs in the text, else the default |
| Text.Wrap64 | internal/parser/cef.go:129-130 | a signed 64-bit value congruent to the input modulo 2^64, equal to it when in range |
| Text.AtoiOrZero | internal/parser/syslog.go:46-48 | `strconv.Atoi` with its error dropped: the Atoi value when there is one; an optionally signed decimal beyond 64 bits clamps to the limit of its sign; a leading digit run beyond 2^64-1 gives that limit even when junk follows; any other non-number gives 0; always within 64 bits |
| Text.OverflowIgnoresTail | internal/parser/syslog.go:95-98 | a process id whose leading digits already overflow 2^64-1 is the largest (or, with `-`, the smallest) 64-bit integer, whatever follows them |
| Cef.NotCefKey | internal/parser/cef.go:89-91 | a key not starting with `c` cannot be a `cef_` key |
| Text.Atoi | internal/parser/cef.go:137 | a value exactly for an optionally signed decimal in the 64-bit range |
| Text.AtoiIntToString | internal/parser/cef.go:137 | every 64-bit integer reads back from its decimal text |
| Samples.CefDetected | internal/processor/processor_test.go:15-19 | the CEF test line is detected as CEF |
| Samples.LeefDetected | internal/processor/processor_test.go:20-24 | the LEEF test line is detected as LEEF |
| Samples.EventDetected | internal/processor/processor_test.go:25-29 | the `<Event>` test line is detected as XML |
| Samples.SyslogDetected | internal/processor/processor_test.go:30-34 | the `<134>Oct 11 ...` test line is detected as syslog |
| Samples.ProseRejected | internal/processor/processor_test.go:65-69 | the prose test line is of no format, and processing it fails with the unknown-type error |
| Samples.TestLineProcessed | internal/processor/processor_test.go:55-59 | processing the BSD syslog test line yields an event |
| Samples.SmallCefProcessed | internal/processor/processor_test.go:60-64 | processing the CEF test line yields an event |
| Samples.SuParsed | internal/parser/syslog_test.go:8-32 | the BSD test line parses with host `mymachine`, application `su`, the text after the tag as description, and severity Low |
| Samples.LoginParsed | internal/parser/syslog_test.go:34-52 | the RFC 5424 test line parses with host `mymachine.example.com`, application `evntslog`, process id 0 and severity Low |
| Samples.WormParsed | internal/parser/cef_test.go:8-33 | the first CEF test line is accepted with its name as description, severity 10 as Critical, and vendor and product under `device_vendor` and `device_product` |
| Samples.UserParsed | internal/parser/cef_test.go:35-60 | the second CEF test line is accepted with subject `john.doe` in domain `EXAMPLE` and result Success |
| Samples.LeefParsed | internal/parser/leef_test.go:7-28 | the LEEF 1.0 test line is accepted with vendor `Microsoft` and product `MSExchange` in the additional data and the `src` address `10.0.0.1` |
| Samples.LeefV2Parsed | internal/parser/leef_test.go:30-47 | the LEEF 2.0 test line is accepted with subject `admin`, read from `usrName` |
| Samples.XmlParsed | internal/parser/xml_test.go:8-54 | when the decoder reads the test document as the logon event, the record has host `workstation.example.com`, the provider as application, process 500, category Authentication and subject `john.doe` of `EXAMPLE` |

## Left out

- XML decoding: `encoding/xml` is a library call. It is the `decodeXml` parameter of `Runtime`, and the model starts from the decoded `XmlSchema.Event`.
- Time: `time.Now`, `time.Parse` and the BSD `AddDate` re-stamp are the `now`, `parseTime` and `withCurrentYear` parameters of `Runtime`. `now` is one value per call and per batch, so a clock that moves during a batch is not modelled.
- The event identifier: `uuid.New()` is random, and the record has no identifier field.
- JSON serialisation (`ConvertToJSON`, `ConvertBatchToJSON`, the forwarders' `json.Marshal`): this is generic library encoding.
- Network I/O: the forwarders' connections, `Forward`, `ForwardBatch`, `Close` and all of the HTTP forwarder. Only the priority and header fallbacks of `formatMessage` are modelled, not the assembled message text.
- The command line and the example programs: these are flag parsing, reading files and printing.
- The regular-expression engine: each pattern is a hand-written scanner with the same accept/reject behaviour and captures. For CEF and LEEF it is proved against a rendering function in both directions. For syslog, every rendering of a well-formed record matches and reads back that record, and every match has the stated shape; the converse is not stated, because `\s+` accepts runs of blanks and tabs that the rendering never produces. General regular expressions are not modelled.
- Text.Lower: ASCII lower-casing only. Go's Unicode case folding of non-ASCII letters is not modelled.
- Text.AtoiOrZero: the digit scan of `strconv.ParseUint` is modelled by its outcome (the value, the range clamp, and the overflow exit of the leading digit run), not digit by digit.
- Xml.Enrich: it returns the new record rather than updating the record through a pointer. No other part of the source holds that record meanwhile, so no aliasing is lost.
- Detection by byte offset: Go's `strings.Index` counts bytes and this model counts characters. The two agree whenever every character before the first `>` is ASCII, and otherwise both reject the line, because a non-digit sits in the priority.
- Leef: the monotonicity of numeric LEEF severities is not stated as a lemma. `Leef.NumericLevel` gives the whole table instead.
