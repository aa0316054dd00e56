/**
 * The header fields the syslog forwarder puts in front of each normalised
 * event it sends on: the priority derived from the event's severity label,
 * and the host and application names with their fallbacks.
 */
module Forwarder {
  import opened Gost
  import Syslog

  /** The facility every forwarded message carries (local0). */
  const Local0: nat := 16

  /** The syslog severity code sent for a label: unknown labels are sent as informational. */
  function LevelOf(name: string): nat
  {
    if name == SeverityLabel(Critical) then 2
    else if name == SeverityLabel(High) then 3
    else if name == SeverityLabel(Medium) then 4
    else if name == SeverityLabel(Low) then 5
    else 6
  }

  /**
   * The priority of a forwarded message: facility local0 with the level of
   * the label, so one of 130 to 134, one step less severe per rank.
   */
  function CalculatePriority(name: string): (p: nat)
    ensures 130 <= p <= 134 && p / 8 == Local0
    ensures forall s: Severity :: name == SeverityLabel(s) ==> p == 134 - Rank(s)
    ensures (forall s: Severity :: name != SeverityLabel(s)) ==> p == 134
  {
    Local0 * 8 + LevelOf(name)
  }

  /**
   * Reading a forwarded priority back with the syslog parser's map gives
   * the severity sent, except that informational comes back as low.
   */
  lemma DecodeAgrees(s: Severity)
    ensures Syslog.SeverityOf(CalculatePriority(SeverityLabel(s))) == if s == Info then Low else s
  {
    var p := CalculatePriority(SeverityLabel(s));
    assert p == 134 - Rank(s);
    assert p % 8 == 6 - Rank(s);
  }

  /** Every priority the forwarder emits is read back at least as severe as low. */
  lemma DecodedNeverInfo(name: string)
    ensures Syslog.SeverityOf(CalculatePriority(name)) != Info
  {
    assert CalculatePriority(name) % 8 == LevelOf(name);
  }

  /** The value, or the fallback when the value is empty. */
  function OrDefault(value: string, fallback: string): (r: string)
    requires fallback != ""
    ensures r != ""
    ensures value != "" ==> r == value
    ensures value == "" ==> r == fallback
  {
    if value == "" then fallback else value
  }

  /** The HOSTNAME header field: the event's host, or "unknown". */
  function HeaderHostname(src: Source): (h: string)
    ensures h != ""
    ensures src.hostname != "" ==> h == src.hostname
    ensures src.hostname == "" ==> h == "unknown"
  {
    OrDefault(src.hostname, "unknown")
  }

  /** The APP-NAME header field: the event's application, or "loggerv2". */
  function HeaderAppName(src: Source): (a: string)
    ensures a != ""
    ensures src.application != "" ==> a == src.application
    ensures src.application == "" ==> a == "loggerv2"
  {
    OrDefault(src.application, "loggerv2")
  }
}
