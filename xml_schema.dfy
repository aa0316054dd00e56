/**
 * The Windows-Event-Log record as the XML decoder hands it over: the System
 * block (with its nested Provider, TimeCreated, Correlation, Execution and
 * Security elements flattened into one record) and the ordered EventData list.
 * Numeric elements that are absent decode as 0, strings as "".
 */
module XmlSchema {

  /** One `<Data Name="...">value</Data>` element of EventData. */
  datatype Data = Data(name: string, value: string)

  datatype System = System(
    providerName: string,
    providerGuid: string,
    eventId: int,
    version: int,
    level: int,
    task: int,
    opcode: int,
    keywords: string,
    systemTime: string,
    eventRecordId: int,
    activityId: string,
    processId: int,
    threadId: int,
    channel: string,
    computer: string,
    userId: string)

  datatype Event = Event(system: System, data: seq<Data>)
}
