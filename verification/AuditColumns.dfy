/** What stands under each column of an export, and how a missing tool or decision is
    completed. */
module AuditColumns {
  import opened Text
  import opened AuditExport
  import Decimal

  // ---------------------------------------------------------------------
  // Columns
  // ---------------------------------------------------------------------

  /** The field of an event that a column is named after. */
  function EventField(e: Event, column: string): Option<string> {
    if column == "id" then Some(Decimal.PrintInt(e.id))
    else if column == "actor_id" then Some(e.actorId)
    else if column == "tool_id" then Some(e.toolId)
    else if column == "decision" then Some(e.decision)
    else if column == "reason" then Some(OrEmpty(e.reason))
    else if column == "created_at_epoch_ms" then Some(Decimal.PrintInt(e.createdAtEpochMs))
    else None
  }

  function DtoField(e: EventDto, column: string): Option<string> {
    if column == "id" then Some(Decimal.PrintInt(e.id))
    else if column == "actor_id" then Some(e.actorId)
    else if column == "tool_id" then Some(e.toolId)
    else if column == "decision" then Some(e.decision)
    else if column == "reason" then Some(OrEmpty(e.reason))
    else if column == "profile_id" then Some(OrEmpty(e.profileId))
    else if column == "classification" then Some(OrEmpty(e.classification))
    else if column == "duration_ms" then Some(if e.durationMs.Some? then Decimal.PrintInt(e.durationMs.value) else "")
    else if column == "created_at" then Some(e.createdAt)
    else if column == "created_at_epoch_ms" then Some(Decimal.PrintInt(e.createdAtEpochMs))
    else if column == "level" then Some(OrEmpty(e.level))
    else if column == "category" then Some(OrEmpty(e.category))
    else if column == "action" then Some(OrEmpty(e.action))
    else if column == "outcome" then Some(OrEmpty(e.outcome))
    else if column == "actor_type" then Some(OrEmpty(e.actorType))
    else if column == "source_id" then Some(OrEmpty(e.sourceId))
    else if column == "summary" then Some(OrEmpty(e.summary))
    else if column == "connection_id" then Some(OrEmpty(e.connectionId))
    else if column == "database_name" then Some(OrEmpty(e.databaseName))
    else if column == "driver_id" then Some(OrEmpty(e.driverId))
    else if column == "object_type" then Some(OrEmpty(e.objectType))
    else if column == "object_id" then Some(OrEmpty(e.objectId))
    else if column == "details_json" then Some(OrEmpty(e.detailsJson))
    else if column == "error_code" then Some(OrEmpty(e.errorCode))
    else if column == "error_message" then Some(OrEmpty(e.errorMessage))
    else if column == "session_id" then Some(OrEmpty(e.sessionId))
    else if column == "correlation_id" then Some(OrEmpty(e.correlationId))
    else None
  }

  lemma {:induction false} EventByColumn(e: Event, i: nat)
    requires i < |EVENT_COLUMNS|
    ensures |EventRecord(e)| == |EVENT_COLUMNS| && EventField(e, EVENT_COLUMNS[i]) == Some(EventRecord(e)[i])
  {
    hide OrEmpty, Decimal.PrintInt;
  }

  lemma {:induction false} OldByColumn(e: EventDto, i: nat)
    requires i < |OLD_COLUMNS|
    ensures |OldFields(e)| == |OLD_COLUMNS| && DtoField(e, OLD_COLUMNS[i]) == Some(OldFields(e)[i])
  {
    hide OrEmpty, Decimal.PrintInt;
  }

  lemma {:induction false} ExtendedByColumn(e: EventDto, i: nat)
    requires i < |EXTENDED_COLUMNS|
    ensures |ExtendedFields(e)| == |EXTENDED_COLUMNS| && DtoField(e, EXTENDED_COLUMNS[i]) == Some(ExtendedFields(e)[i])
  {
    hide OrEmpty, Decimal.PrintInt;
  }

  lemma {:induction false} ObjectByColumn(e: EventDto, i: nat)
    requires i < |OBJECT_COLUMNS|
    ensures |ObjectFields(e)| == |OBJECT_COLUMNS| && DtoField(e, OBJECT_COLUMNS[i]) == Some(ObjectFields(e)[i])
  {
    hide OrEmpty, Decimal.PrintInt, DtoField;
    if i < 4 { FirstObjects(e, i); } else { LastObjects(e, i); }
  }

  lemma {:induction false} FirstObjects(e: EventDto, i: nat)
    requires i < 4
    ensures DtoField(e, OBJECT_COLUMNS[i]) == Some(ObjectFields(e)[i])
  {
    hide OrEmpty, Decimal.PrintInt;
  }

  lemma {:induction false} LastObjects(e: EventDto, i: nat)
    requires 4 <= i < 8
    ensures DtoField(e, OBJECT_COLUMNS[i]) == Some(ObjectFields(e)[i])
  {
    hide OrEmpty, Decimal.PrintInt;
  }

  lemma {:induction false} DtoByColumn(e: EventDto, i: nat)
    requires i < |DTO_COLUMNS|
    ensures |DtoRecord(e)| == |DTO_COLUMNS| && DtoField(e, DTO_COLUMNS[i]) == Some(DtoRecord(e)[i])
  {
    hide OldFields, ExtendedFields, ObjectFields, DtoField;
    var a, b := |OLD_COLUMNS|, |EXTENDED_COLUMNS|;
    OldByColumn(e, if i < a then i else 0);
    ExtendedByColumn(e, if a <= i < a + b then i - a else 0);
    ObjectByColumn(e, if a + b <= i then i - a - b else 0);
  }

  // ---------------------------------------------------------------------
  // The exported files
  // ---------------------------------------------------------------------

  /** A record holds under each column the field the column is named after. */
  ghost predicate EventHolds(record: seq<string>, e: Event) {
    |record| == |EVENT_COLUMNS| && forall i | 0 <= i < |record| :: EventField(e, EVENT_COLUMNS[i]) == Some(record[i])
  }

  ghost predicate DtoHolds(record: seq<string>, e: EventDto) {
    |record| == |DTO_COLUMNS| && forall i | 0 <= i < |record| :: DtoField(e, DTO_COLUMNS[i]) == Some(record[i])
  }

  lemma {:induction false} EventRecordHolds(e: Event)
    ensures EventHolds(EventRecord(e), e)
  {
    hide EventRecord, EventField;
    EventByColumn(e, 0);
    forall i | 0 <= i < |EventRecord(e)| ensures EventField(e, EVENT_COLUMNS[i]) == Some(EventRecord(e)[i]) { EventByColumn(e, i); }
  }

  lemma {:induction false} DtoRecordHolds(e: EventDto)
    ensures DtoHolds(DtoRecord(e), e)
  {
    hide DtoRecord, DtoField;
    DtoByColumn(e, 0);
    forall i | 0 <= i < |DtoRecord(e)| ensures DtoField(e, DTO_COLUMNS[i]) == Some(DtoRecord(e)[i]) { DtoByColumn(e, i); }
  }

  /** The plain export reads as a header and one record for each event, in order. */
  lemma {:induction false} EventsByColumn(entries: seq<Event>)
    ensures var file := Header(EVENT_COLUMNS) + WriteRows(EventRows(entries));
            && ReadFile(file).Some?
            && var records := ReadFile(file).value;
            && |records| == |entries| + 1 && records[0] == EVENT_COLUMNS
            && forall k | 0 <= k < |entries| :: EventHolds(records[k + 1], entries[k])
  {
    hide WriteRows, ReadFile, Header, EventRows, EventRecord, EventHolds;
    CsvRoundTrip(entries);
    forall k | 0 <= k < |entries| ensures EventHolds(EventRecord(entries[k]), entries[k]) { EventRecordHolds(entries[k]); }
  }

  /** A file that reads as a header and one record for each of these events, in order. */
  ghost predicate IsTable(file: string, events: seq<EventDto>) {
    && ReadFile(file).Some?
    && var records := ReadFile(file).value;
    && |records| == |events| + 1 && records[0] == DTO_COLUMNS
    && forall k | 0 <= k < |events| :: DtoHolds(records[k + 1], events[k])
  }

  lemma {:induction false} DtosByColumn(events: seq<EventDto>)
    ensures IsTable(Header(DTO_COLUMNS) + WriteRows(DtoRows(events)), events)
  {
    hide WriteRows, ReadFile, Header, DtoRows, DtoRecord, DtoHolds;
    ExtendedCsvRoundTrip(events);
    forall k | 0 <= k < |events| ensures DtoHolds(DtoRecord(events[k]), events[k]) { DtoRecordHolds(events[k]); }
  }

  // ---------------------------------------------------------------------
  // Missing tool and decision
  // ---------------------------------------------------------------------

  function NonEmpty(s: Option<string>): Option<string> {
    if s == Some("") then None else s
  }

  function LegacyToolId(action: Option<string>, toolId: string): string {
    match NonEmpty(action)
    case None => toolId
    case Some(a) =>
      if a == "mcp_approve_execution" then "approve_execution" else if a == "mcp_reject_execution" then "reject_execution" else a
  }

  function LegacyDecision(action: Option<string>, outcome: Option<string>, decision: string): string {
    match NonEmpty(outcome)
    case None => decision
    case Some(o) =>
      if NonEmpty(action) == Some("mcp_approve_execution") && o == "success" then "allow"
      else if NonEmpty(action) == Some("mcp_reject_execution") && o == "failure" then "deny"
      else if o == "cancelled" || o == "pending" then "failure"
      else o
  }

  /** The events as `export_extended` writes them. */
  function Completed(e: EventDto): EventDto {
    var named := if Trim(e.toolId) == "" then e.(toolId := LegacyToolId(e.action, e.toolId)) else e;
    if Trim(named.decision) == "" then named.(decision := LegacyDecision(named.action, named.outcome, named.decision)) else named
  }

  function AllCompleted(events: seq<EventDto>): seq<EventDto> {
    seq(|events|, i requires 0 <= i < |events| => Completed(events[i]))
  }

  method ExportExtended(events: seq<EventDto>) returns (output: string)
    ensures IsTable(output, AllCompleted(events))
  {
    hide WriteRows, Header, DtoRows, Completed, IsTable;
    var normalized := [];
    var k := 0;
    while k < |events|
      invariant k <= |events| && normalized == AllCompleted(events[..k])
    {
      normalized := normalized + [Completed(events[k])];
      k := k + 1;
    }
    assert events[..k] == events;
    output := ExportExtendedCsv(normalized);
    DtosByColumn(normalized);
  }

  predicate Blank(s: string) {
    Trim(s) == ""
  }

  /** Only a blank tool and a blank decision are touched, and completing an event
      again changes nothing. */
  lemma {:induction false} CompletedKeeps(e: EventDto)
    ensures var c := Completed(e);
            && c == e.(toolId := c.toolId, decision := c.decision)
            && (!Blank(e.toolId) ==> c.toolId == e.toolId) && (!Blank(e.decision) ==> c.decision == e.decision)
            && Completed(c) == c
  {
    hide Trim;
  }

  /** A blank tool becomes the action, without the prefix that approvals and rejections
      have; it stays as it is if the action is missing or empty. */
  lemma {:induction false} CompletedTool(e: EventDto)
    requires Blank(e.toolId)
    ensures var tool := Completed(e).toolId;
            && (OrEmpty(e.action) == "" ==> tool == e.toolId)
            && (OrEmpty(e.action) != "" ==>
                  if OrEmpty(e.action) in {"mcp_approve_execution", "mcp_reject_execution"} then "mcp_" + tool == OrEmpty(e.action)
                  else tool == OrEmpty(e.action))
  {
    hide Trim;
    assert "mcp_" + "approve_execution" == "mcp_approve_execution" && "mcp_" + "reject_execution" == "mcp_reject_execution";
  }

  /** A blank decision becomes the outcome; but an approval that succeeded allows, a
      rejection that failed the call denies, and what was cancelled or never decided
      counts as a failure. */
  lemma {:induction false} CompletedDecision(e: EventDto)
    requires Blank(e.decision)
    ensures var decision, outcome, action := Completed(e).decision, OrEmpty(e.outcome), OrEmpty(e.action);
            && (outcome == "" ==> decision == e.decision)
            && (decision == "allow" <==> outcome == "allow" || (action == "mcp_approve_execution" && outcome == "success"))
            && (decision == "deny" <==> outcome == "deny" || (action == "mcp_reject_execution" && outcome == "failure"))
            && (decision == "failure" <==>
                  || outcome == "cancelled" || outcome == "pending"
                  || (outcome == "failure" && action != "mcp_reject_execution"))
            && (outcome != "" && decision !in {"allow", "deny", "failure"} ==> decision == outcome)
  {
    hide Trim, LegacyToolId;
    BlankIsNone("allow");
    BlankIsNone("deny");
    BlankIsNone("failure");
  }

  lemma {:induction false} BlankIsNone(word: string)
    requires word == "allow" || word == "deny" || word == "failure"
    ensures !Blank(word)
  {
    TrimOfTrimmed(word);
  }
}
