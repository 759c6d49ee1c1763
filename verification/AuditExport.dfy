/** Exporting audit events as CSV text, and reading CSV text by section 2 of
    RFC 4180, with line feeds as line ends. */
module AuditExport {
  import opened Text
  import Decimal

  // ---------------------------------------------------------------------
  // Events
  // ---------------------------------------------------------------------

  datatype Event = Event(id: int, actorId: string, toolId: string, decision: string, reason: Option<string>, createdAtEpochMs: int)

  datatype EventDto = EventDto(
    id: int, actorId: string, toolId: string, decision: string, reason: Option<string>, profileId: Option<string>,
    classification: Option<string>, durationMs: Option<int>, createdAt: string, createdAtEpochMs: int,
    level: Option<string>, category: Option<string>, action: Option<string>, outcome: Option<string>,
    actorType: Option<string>, sourceId: Option<string>, summary: Option<string>, connectionId: Option<string>,
    databaseName: Option<string>, driverId: Option<string>, objectType: Option<string>, objectId: Option<string>,
    detailsJson: Option<string>, errorCode: Option<string>, errorMessage: Option<string>, sessionId: Option<string>,
    correlationId: Option<string>)

  function OrEmpty(s: Option<string>): string {
    if s.Some? then s.value else ""
  }

  // ---------------------------------------------------------------------
  // Writing
  // ---------------------------------------------------------------------

  /** Every quote doubled. */
  function Doubled(s: string): string {
    if s == "" then "" else (if s[0] == '\"' then "\"\"" else [s[0]]) + Doubled(s[1..])
  }

  /** `csv_quote`. */
  function Quote(field: string): string {
    "\"" + Doubled(field) + "\""
  }

  /** A value of a row: texts are written quoted, numbers bare. */
  datatype Value = Txt(text: string) | Num(literal: string)

  function Write(v: Value): string {
    match v case Txt(text) => Quote(text) case Num(literal) => literal
  }

  function Read(v: Value): string {
    match v case Txt(text) => text case Num(literal) => literal
  }

  function WriteRow(row: seq<Value>): string
    requires row != []
  {
    if |row| == 1 then Write(row[0]) + "\n" else Write(row[0]) + "," + WriteRow(row[1..])
  }

  function Number(n: int): Value { Num(Decimal.PrintInt(n)) }

  function TextOf(s: Option<string>): Value { Txt(OrEmpty(s)) }

  function EventRow(e: Event): (row: seq<Value>)
    ensures row != []
  {
    [Number(e.id), Txt(e.actorId), Txt(e.toolId), Txt(e.decision), TextOf(e.reason), Number(e.createdAtEpochMs)]
  }

  function OldValues(e: EventDto): seq<Value> {
    [Number(e.id), Txt(e.actorId), Txt(e.toolId), Txt(e.decision), TextOf(e.reason), TextOf(e.profileId), TextOf(e.classification),
     if e.durationMs.Some? then Number(e.durationMs.value) else Num(""), Txt(e.createdAt), Number(e.createdAtEpochMs)]
  }

  function ExtendedValues(e: EventDto): seq<Value> {
    [TextOf(e.level), TextOf(e.category), TextOf(e.action), TextOf(e.outcome), TextOf(e.actorType), TextOf(e.sourceId),
     TextOf(e.summary), TextOf(e.connectionId), TextOf(e.databaseName)]
  }

  function ObjectValues(e: EventDto): seq<Value> {
    [TextOf(e.driverId), TextOf(e.objectType), TextOf(e.objectId), TextOf(e.detailsJson), TextOf(e.errorCode),
     TextOf(e.errorMessage), TextOf(e.sessionId), TextOf(e.correlationId)]
  }

  function DtoRow(e: EventDto): (row: seq<Value>)
    ensures row != []
  {
    OldValues(e) + ExtendedValues(e) + ObjectValues(e)
  }

  const EVENT_COLUMNS: seq<string> := ["id", "actor_id", "tool_id", "decision", "reason", "created_at_epoch_ms"]

  const OLD_COLUMNS: seq<string> := [
    "id", "actor_id", "tool_id", "decision", "reason", "profile_id", "classification", "duration_ms", "created_at",
    "created_at_epoch_ms"
  ]

  const EXTENDED_COLUMNS: seq<string> := [
    "level", "category", "action", "outcome", "actor_type", "source_id", "summary", "connection_id", "database_name"
  ]

  const OBJECT_COLUMNS: seq<string> := [
    "driver_id", "object_type", "object_id", "details_json", "error_code", "error_message", "session_id", "correlation_id"
  ]

  const DTO_COLUMNS: seq<string> := OLD_COLUMNS + EXTENDED_COLUMNS + OBJECT_COLUMNS

  /** The names of the columns, with commas between them. */
  function Header(columns: seq<string>): string
    requires columns != []
  {
    WriteRow(Names(columns))
  }

  function Names(columns: seq<string>): (row: seq<Value>)
    ensures |row| == |columns| && forall i | 0 <= i < |row| :: row[i] == Num(columns[i])
  {
    seq(|columns|, i requires 0 <= i < |columns| => Num(columns[i]))
  }

  function WriteRows(rows: seq<seq<Value>>): string
    requires forall i | 0 <= i < |rows| :: rows[i] != []
  {
    if rows == [] then "" else WriteRow(rows[0]) + WriteRows(rows[1..])
  }

  function EventRows(es: seq<Event>): (rows: seq<seq<Value>>)
    ensures |rows| == |es| && forall i | 0 <= i < |rows| :: rows[i] == EventRow(es[i])
  {
    seq(|es|, i requires 0 <= i < |es| => EventRow(es[i]))
  }

  function DtoRows(es: seq<EventDto>): (rows: seq<seq<Value>>)
    ensures |rows| == |es| && forall i | 0 <= i < |rows| :: rows[i] == DtoRow(es[i])
  {
    seq(|es|, i requires 0 <= i < |es| => DtoRow(es[i]))
  }

  // ---------------------------------------------------------------------
  // Reading
  // ---------------------------------------------------------------------

  /** The inside of a quoted field, up to its closing quote, and what follows. */
  function ReadQuoted(s: string): Option<(string, string)> {
    if s == "" then None
    else if s[0] != '\"' then
      match ReadQuoted(s[1..]) case None => None case Some((text, rest)) => Some(([s[0]] + text, rest))
    else if |s| >= 2 && s[1] == '\"' then
      match ReadQuoted(s[2..]) case None => None case Some((text, rest)) => Some((['\"'] + text, rest))
    else Some(("", s[1..]))
  }

  predicate Separates(c: char) {
    c == ',' || c == '\n'
  }

  /** A bare field; it holds no quote. */
  function ReadBare(s: string): Option<(string, string)> {
    if s == "" || Separates(s[0]) then Some(("", s))
    else if s[0] == '\"' then None
    else match ReadBare(s[1..]) case None => None case Some((text, rest)) => Some(([s[0]] + text, rest))
  }

  function ReadField(s: string): Option<(string, string)> {
    if s != "" && s[0] == '\"' then ReadQuoted(s[1..]) else ReadBare(s)
  }

  lemma {:induction false} QuotedShorter(s: string)
    ensures ReadQuoted(s).Some? ==> |ReadQuoted(s).value.1| < |s|
  {
    if s != "" {
      if s[0] != '\"' { QuotedShorter(s[1..]); }
      else if |s| >= 2 && s[1] == '\"' { QuotedShorter(s[2..]); }
    }
  }

  lemma {:induction false} BareNotLonger(s: string)
    ensures ReadBare(s).Some? ==> |ReadBare(s).value.1| <= |s|
  {
    if s != "" && !Separates(s[0]) && s[0] != '\"' { BareNotLonger(s[1..]); }
  }

  lemma {:induction false} FieldNotLonger(s: string)
    ensures ReadField(s).Some? ==> |ReadField(s).value.1| <= |s|
  {
    if s != "" && s[0] == '\"' { QuotedShorter(s[1..]); } else { BareNotLonger(s); }
  }

  /** A record: fields with commas between them, up to a line feed or the end. */
  function ReadRecord(s: string): Option<(seq<string>, string)>
    decreases |s|
  {
    FieldNotLonger(s);
    match ReadField(s)
    case None => None
    case Some((field, rest)) =>
      if rest == "" then Some(([field], ""))
      else if rest[0] == '\n' then Some(([field], rest[1..]))
      else if rest[0] != ',' then None
      else match ReadRecord(rest[1..])
        case None => None
        case Some((fields, rest')) => Some(([field] + fields, rest'))
  }

  lemma {:induction false} RecordShorter(s: string)
    requires s != ""
    ensures ReadRecord(s).Some? ==> |ReadRecord(s).value.1| < |s|
    decreases |s|
  {
    FieldNotLonger(s);
    match ReadField(s) {
      case None =>
      case Some((field, rest)) =>
        if rest != "" && rest[0] == ',' && rest[1..] != "" {
          RecordShorter(rest[1..]);
        } else {
          EmptyRecord();
        }
    }
  }

  lemma {:induction false} EmptyRecord()
    ensures ReadRecord("") == Some(([""], ""))
  {
  }

  /** A whole file. */
  function ReadFile(s: string): Option<seq<seq<string>>>
    decreases |s|
  {
    if s == "" then Some([]) else
      RecordShorter(s);
      match ReadRecord(s)
      case None => None
      case Some((fields, rest)) =>
        match ReadFile(rest) case None => None case Some(records) => Some([fields] + records)
  }

  // ---------------------------------------------------------------------
  // Round trip
  // ---------------------------------------------------------------------

  lemma {:induction false} QuotedStep(c: char, tail: string)
    requires ReadQuoted(tail).Some?
    ensures var (text, rest) := ReadQuoted(tail).value;
            ReadQuoted((if c == '\"' then "\"\"" else [c]) + tail) == Some(([c] + text, rest))
  {
    if c == '\"' {
      var s := "\"\"" + tail;
      assert s[0] == '\"' && s[1] == '\"' && s[2..] == tail;
    } else {
      assert ([c] + tail)[1..] == tail;
    }
  }

  lemma {:induction false} QuotedEnd(rest: string)
    requires rest == "" || rest[0] != '\"'
    ensures ReadQuoted("\"" + rest) == Some(("", rest))
  {
    var s := "\"" + rest;
    assert s[1..] == rest && s[0] == '\"';
    assert |s| >= 2 ==> s[1] == rest[0];
  }

  lemma {:induction false} QuotedReads(text: string, rest: string)
    requires rest == "" || rest[0] != '\"'
    ensures ReadQuoted(Doubled(text) + "\"" + rest) == Some((text, rest))
  {
    hide ReadQuoted;
    if text == "" {
      assert Doubled(text) + "\"" + rest == "\"" + rest;
      QuotedEnd(rest);
    } else {
      var head, tail := if text[0] == '\"' then "\"\"" else [text[0]], Doubled(text[1..]) + "\"" + rest;
      QuotedReads(text[1..], rest);
      QuotedStep(text[0], tail);
      assert Doubled(text) + "\"" + rest == head + tail;
      assert [text[0]] + text[1..] == text;
    }
  }

  /** A text that can stand bare. */
  predicate IsBare(s: string) {
    forall i | 0 <= i < |s| :: s[i] != '\"' && !Separates(s[i])
  }

  lemma {:induction false} BareReads(text: string, rest: string)
    requires IsBare(text) && (rest == "" || Separates(rest[0]))
    ensures ReadBare(text + rest) == Some((text, rest))
  {
    if text == "" {
      assert text + rest == rest;
    } else {
      BareReads(text[1..], rest);
      assert (text + rest)[1..] == text[1..] + rest;
      assert [text[0]] + text[1..] == text;
    }
  }

  predicate Writable(v: Value) {
    v.Num? ==> IsBare(v.literal)
  }

  lemma {:induction false} FieldReads(v: Value, rest: string)
    requires Writable(v) && rest != "" && Separates(rest[0])
    ensures ReadField(Write(v) + rest) == Some((Read(v), rest))
  {
    hide Doubled, ReadQuoted, ReadBare;
    match v {
      case Txt(text) =>
        QuotedReads(text, rest);
        var inside := Doubled(text) + "\"" + rest;
        assert Quote(text) + rest == "\"" + inside;
        assert ("\"" + inside)[1..] == inside;
      case Num(literal) =>
        BareReads(literal, rest);
        assert literal != "" ==> (literal + rest)[0] == literal[0];
        assert literal == "" ==> literal + rest == rest;
    }
  }

  function Reads(row: seq<Value>): (texts: seq<string>)
    ensures |texts| == |row| && forall i | 0 <= i < |row| :: texts[i] == Read(row[i])
  {
    seq(|row|, i requires 0 <= i < |row| => Read(row[i]))
  }

  lemma {:induction false} RowReads(row: seq<Value>, rest: string)
    requires row != [] && forall i | 0 <= i < |row| :: Writable(row[i])
    ensures ReadRecord(WriteRow(row) + rest) == Some((Reads(row), rest))
    decreases |row|
  {
    hide Write, Read, ReadField, Writable;
    var s := WriteRow(row) + rest;
    if |row| == 1 {
      var tail := "\n" + rest;
      assert s == Write(row[0]) + tail;
      FieldReads(row[0], tail);
      assert tail[1..] == rest;
      assert Reads(row) == [Read(row[0])];
    } else {
      var tail := "," + (WriteRow(row[1..]) + rest);
      assert s == Write(row[0]) + tail;
      FieldReads(row[0], tail);
      assert tail[1..] == WriteRow(row[1..]) + rest;
      RowReads(row[1..], rest);
      assert Reads(row) == [Read(row[0])] + Reads(row[1..]);
    }
  }

  ghost predicate AllWritable(rows: seq<seq<Value>>) {
    forall i | 0 <= i < |rows| :: rows[i] != [] && forall j | 0 <= j < |rows[i]| :: Writable(rows[i][j])
  }

  function AllReads(rows: seq<seq<Value>>): (texts: seq<seq<string>>)
    ensures |texts| == |rows| && forall i | 0 <= i < |rows| :: texts[i] == Reads(rows[i])
  {
    seq(|rows|, i requires 0 <= i < |rows| => Reads(rows[i]))
  }

  lemma {:induction false} RowsRead(rows: seq<seq<Value>>)
    requires AllWritable(rows)
    ensures ReadFile(WriteRows(rows)) == Some(AllReads(rows))
    decreases |rows|
  {
    hide WriteRow, ReadRecord, Writable, Reads;
    if rows != [] {
      RowsRead(rows[1..]);
      RowReads(rows[0], WriteRows(rows[1..]));
      RowNotEmpty(rows[0]);
      assert AllReads(rows) == [Reads(rows[0])] + AllReads(rows[1..]);
    }
  }

  lemma {:induction false} RowNotEmpty(row: seq<Value>)
    requires row != []
    ensures WriteRow(row) != ""
  {
  }

  lemma {:induction false} NumberIsBare(n: int)
    ensures IsBare(Decimal.PrintInt(n))
  {
    hide Decimal.Print;
  }

  lemma {:induction false} EventColumnsBare(i: nat)
    requires i < |EVENT_COLUMNS|
    ensures IsBare(EVENT_COLUMNS[i])
  {
  }

  lemma {:induction false} OldColumnsBare(i: nat)
    requires i < |OLD_COLUMNS|
    ensures IsBare(OLD_COLUMNS[i])
  {
  }

  lemma {:induction false} ExtendedColumnsBare(i: nat)
    requires i < |EXTENDED_COLUMNS|
    ensures IsBare(EXTENDED_COLUMNS[i])
  {
  }

  lemma {:induction false} ObjectColumnsBare(i: nat)
    requires i < |OBJECT_COLUMNS|
    ensures IsBare(OBJECT_COLUMNS[i])
  {
  }

  lemma {:induction false} DtoColumnsBare(i: nat)
    requires i < |DTO_COLUMNS|
    ensures IsBare(DTO_COLUMNS[i])
  {
    hide IsBare;
    if i < 10 {
      OldColumnsBare(i);
    } else if i < 19 {
      ExtendedColumnsBare(i - 10);
    } else {
      ObjectColumnsBare(i - 19);
    }
  }

  lemma {:induction false} HeaderReads(columns: seq<string>, rest: string)
    requires columns != [] && forall i | 0 <= i < |columns| :: IsBare(columns[i])
    ensures ReadRecord(Header(columns) + rest) == Some((columns, rest)) && Header(columns) != ""
  {
    hide WriteRow, ReadRecord;
    RowReads(Names(columns), rest);
    RowNotEmpty(Names(columns));
    assert Reads(Names(columns)) == columns;
  }

  /** A header and rows read back as the header and the rows. */
  lemma {:induction false} TableReads(columns: seq<string>, rows: seq<seq<Value>>)
    requires columns != [] && forall i | 0 <= i < |columns| :: IsBare(columns[i])
    requires AllWritable(rows)
    ensures ReadFile(Header(columns) + WriteRows(rows)) == Some([columns] + AllReads(rows))
  {
    hide WriteRows, ReadRecord, Header, Writable, Reads;
    HeaderReads(columns, WriteRows(rows));
    RowsRead(rows);
  }

  // ---------------------------------------------------------------------
  // The exporters
  // ---------------------------------------------------------------------

  lemma {:induction false} WriteRowsSnoc(rows: seq<seq<Value>>, k: nat)
    requires k < |rows| && forall i | 0 <= i < |rows| :: rows[i] != []
    ensures WriteRows(rows[..k + 1]) == WriteRows(rows[..k]) + WriteRow(rows[k])
    decreases k
  {
    hide WriteRow;
    if k == 0 {
      assert rows[..1][1..] == [] && rows[..0] == [];
      assert WriteRow(rows[0]) + "" == WriteRow(rows[0]) && "" + WriteRow(rows[0]) == WriteRow(rows[0]);
    } else {
      WriteRowsSnoc(rows[1..], k - 1);
      assert rows[..k + 1][1..] == rows[1..][..k] && rows[..k][1..] == rows[1..][..k - 1];
      ConcatAssoc(WriteRow(rows[0]), WriteRows(rows[1..][..k - 1]), WriteRow(rows[k]));
    }
  }

  method ExportCsv(entries: seq<Event>) returns (output: string)
    ensures output == Header(EVENT_COLUMNS) + WriteRows(EventRows(entries))
  {
    hide WriteRow, WriteRows, Header, EventRow;
    output := Header(EVENT_COLUMNS);
    ghost var rows := EventRows(entries);
    NoRows(output);
    assert rows[..0] == [];
    var k := 0;
    while k < |entries|
      invariant k <= |entries|
      invariant output == Header(EVENT_COLUMNS) + WriteRows(rows[..k])
    {
      WriteRowsSnoc(rows, k);
      ConcatAssoc(Header(EVENT_COLUMNS), WriteRows(rows[..k]), WriteRow(rows[k]));
      output := output + WriteRow(EventRow(entries[k]));
      k := k + 1;
    }
    assert rows[..k] == rows;
  }

  lemma {:induction false} NoRows(s: string)
    ensures s + WriteRows([]) == s
  {
  }

  /** What an event row must read back as: every text as it was, a missing one empty,
      every number in decimal digits. */
  function EventRecord(e: Event): seq<string> {
    [Decimal.PrintInt(e.id), e.actorId, e.toolId, e.decision, OrEmpty(e.reason), Decimal.PrintInt(e.createdAtEpochMs)]
  }

  function OldFields(e: EventDto): seq<string> {
    [Decimal.PrintInt(e.id), e.actorId, e.toolId, e.decision, OrEmpty(e.reason), OrEmpty(e.profileId), OrEmpty(e.classification),
     if e.durationMs.Some? then Decimal.PrintInt(e.durationMs.value) else "", e.createdAt, Decimal.PrintInt(e.createdAtEpochMs)]
  }

  function ExtendedFields(e: EventDto): seq<string> {
    [OrEmpty(e.level), OrEmpty(e.category), OrEmpty(e.action), OrEmpty(e.outcome), OrEmpty(e.actorType), OrEmpty(e.sourceId),
     OrEmpty(e.summary), OrEmpty(e.connectionId), OrEmpty(e.databaseName)]
  }

  function ObjectFields(e: EventDto): seq<string> {
    [OrEmpty(e.driverId), OrEmpty(e.objectType), OrEmpty(e.objectId), OrEmpty(e.detailsJson), OrEmpty(e.errorCode),
     OrEmpty(e.errorMessage), OrEmpty(e.sessionId), OrEmpty(e.correlationId)]
  }

  function DtoRecord(e: EventDto): seq<string> {
    OldFields(e) + ExtendedFields(e) + ObjectFields(e)
  }

  lemma {:induction false} EventRowReads(e: Event)
    ensures forall j | 0 <= j < |EventRow(e)| :: Writable(EventRow(e)[j])
    ensures Reads(EventRow(e)) == EventRecord(e)
  {
    hide IsBare, Decimal.PrintInt;
    NumberIsBare(e.id);
    NumberIsBare(e.createdAtEpochMs);
  }

  ghost predicate ReadsAs(row: seq<Value>, texts: seq<string>) {
    Reads(row) == texts && forall j | 0 <= j < |row| :: Writable(row[j])
  }

  lemma {:induction false} ReadsAsConcat(a: seq<Value>, s: seq<string>, b: seq<Value>, t: seq<string>)
    requires ReadsAs(a, s) && ReadsAs(b, t)
    ensures ReadsAs(a + b, s + t)
  {
  }

  lemma {:induction false} OldReads(e: EventDto)
    ensures ReadsAs(OldValues(e), OldFields(e))
  {
    hide IsBare, Decimal.PrintInt;
    NumberIsBare(e.id);
    NumberIsBare(e.createdAtEpochMs);
    if e.durationMs.Some? { NumberIsBare(e.durationMs.value); }
    EmptyIsBare();
  }

  lemma {:induction false} ExtendedReads(e: EventDto)
    ensures ReadsAs(ExtendedValues(e), ExtendedFields(e))
  {
    hide IsBare, OrEmpty;
  }

  lemma {:induction false} ObjectReads(e: EventDto)
    ensures ReadsAs(ObjectValues(e), ObjectFields(e))
  {
    hide IsBare, OrEmpty;
  }

  lemma {:induction false} DtoRowReads(e: EventDto)
    ensures forall j | 0 <= j < |DtoRow(e)| :: Writable(DtoRow(e)[j])
    ensures Reads(DtoRow(e)) == DtoRecord(e)
  {
    hide OldValues, ExtendedValues, ObjectValues, OldFields, ExtendedFields, ObjectFields, Writable, Reads;
    OldReads(e);
    ExtendedReads(e);
    ObjectReads(e);
    ReadsAsConcat(OldValues(e), OldFields(e), ExtendedValues(e), ExtendedFields(e));
    ReadsAsConcat(OldValues(e) + ExtendedValues(e), OldFields(e) + ExtendedFields(e), ObjectValues(e), ObjectFields(e));
  }

  lemma {:induction false} EmptyIsBare()
    ensures IsBare("")
  {
  }

  /** Reading an export gives the header and one record per event, whatever quotes,
      commas and line feeds the texts hold. */
  lemma {:induction false} CsvRoundTrip(entries: seq<Event>)
    ensures ReadFile(Header(EVENT_COLUMNS) + WriteRows(EventRows(entries)))
         == Some([EVENT_COLUMNS] + seq(|entries|, i requires 0 <= i < |entries| => EventRecord(entries[i])))
  {
    hide WriteRows, ReadFile, Header, EventRow, EventRecord, Reads, Writable, IsBare;
    var rows := EventRows(entries);
    forall i | 0 <= i < |rows| ensures Reads(rows[i]) == EventRecord(entries[i]) && forall j | 0 <= j < |rows[i]| :: Writable(rows[i][j]) {
      EventRowReads(entries[i]);
    }
    forall i | 0 <= i < |EVENT_COLUMNS| ensures IsBare(EVENT_COLUMNS[i]) { EventColumnsBare(i); }
    TableReads(EVENT_COLUMNS, rows);
    assert AllReads(rows) == seq(|entries|, i requires 0 <= i < |entries| => EventRecord(entries[i]));
  }

  method ExportExtendedCsv(events: seq<EventDto>) returns (output: string)
    ensures output == Header(DTO_COLUMNS) + WriteRows(DtoRows(events))
  {
    hide WriteRow, WriteRows, Header, DtoRow;
    output := "";
    output := output + Header(DTO_COLUMNS);
    assert output == Header(DTO_COLUMNS);
    ghost var rows := DtoRows(events);
    NoRows(output);
    assert rows[..0] == [];
    var k := 0;
    while k < |events|
      invariant k <= |events|
      invariant output == Header(DTO_COLUMNS) + WriteRows(rows[..k])
    {
      WriteRowsSnoc(rows, k);
      ConcatAssoc(Header(DTO_COLUMNS), WriteRows(rows[..k]), WriteRow(rows[k]));
      output := output + WriteRow(DtoRow(events[k]));
      k := k + 1;
    }
    assert rows[..k] == rows;
  }

  lemma {:induction false} ExtendedCsvRoundTrip(events: seq<EventDto>)
    ensures ReadFile(Header(DTO_COLUMNS) + WriteRows(DtoRows(events)))
         == Some([DTO_COLUMNS] + seq(|events|, i requires 0 <= i < |events| => DtoRecord(events[i])))
  {
    hide WriteRows, ReadFile, Header, DtoRow, DtoRecord, Reads, Writable, IsBare;
    var rows := DtoRows(events);
    forall i | 0 <= i < |rows| ensures Reads(rows[i]) == DtoRecord(events[i]) && forall j | 0 <= j < |rows[i]| :: Writable(rows[i][j]) {
      DtoRowReads(events[i]);
    }
    forall i | 0 <= i < |DTO_COLUMNS| ensures IsBare(DTO_COLUMNS[i]) { DtoColumnsBare(i); }
    TableReads(DTO_COLUMNS, rows);
    assert AllReads(rows) == seq(|events|, i requires 0 <= i < |events| => DtoRecord(events[i]));
  }

  // ---------------------------------------------------------------------
  // What the records tell
  // ---------------------------------------------------------------------

  /** Two events with the same record differ at most in missing and empty texts. */
  function Filled(e: EventDto): EventDto {
    e.(reason := Some(OrEmpty(e.reason)), profileId := Some(OrEmpty(e.profileId)), classification := Some(OrEmpty(e.classification)),
       level := Some(OrEmpty(e.level)), category := Some(OrEmpty(e.category)), action := Some(OrEmpty(e.action)),
       outcome := Some(OrEmpty(e.outcome)), actorType := Some(OrEmpty(e.actorType)), sourceId := Some(OrEmpty(e.sourceId)),
       summary := Some(OrEmpty(e.summary)), connectionId := Some(OrEmpty(e.connectionId)),
       databaseName := Some(OrEmpty(e.databaseName)), driverId := Some(OrEmpty(e.driverId)),
       objectType := Some(OrEmpty(e.objectType)), objectId := Some(OrEmpty(e.objectId)),
       detailsJson := Some(OrEmpty(e.detailsJson)), errorCode := Some(OrEmpty(e.errorCode)),
       errorMessage := Some(OrEmpty(e.errorMessage)), sessionId := Some(OrEmpty(e.sessionId)),
       correlationId := Some(OrEmpty(e.correlationId)))
  }

  lemma {:induction false} SignShows(n: int)
    ensures Decimal.PrintInt(n) != "" && (Decimal.PrintInt(n)[0] == '-' <==> n < 0)
  {
    hide Decimal.Print;
  }

  lemma {:induction false} PrintIntInjective(m: int, n: int)
    requires Decimal.PrintInt(m) == Decimal.PrintInt(n)
    ensures m == n
  {
    hide Decimal.Print;
    SignShows(m);
    SignShows(n);
    if m < 0 {
      assert Decimal.PrintInt(m)[1..] == Decimal.Print(-m) && Decimal.PrintInt(n)[1..] == Decimal.Print(-n);
      Decimal.PrintInjective(-m, -n);
    } else {
      Decimal.PrintInjective(m, n);
    }
  }

  lemma {:induction false} DtoRecordInjective(d: EventDto, e: EventDto)
    requires DtoRecord(d) == DtoRecord(e)
    ensures Filled(d) == Filled(e)
  {
    hide Decimal.PrintInt;
    var r, s := DtoRecord(d), DtoRecord(e);
    assert r[..10] == OldFields(d) && s[..10] == OldFields(e);
    assert r[10..19] == ExtendedFields(d) && s[10..19] == ExtendedFields(e);
    assert r[19..] == ObjectFields(d) && s[19..] == ObjectFields(e);
    SameOldFields(d, e);
    SameExtendedFields(d, e);
    SameObjectFields(d, e);
  }

  lemma {:induction false} SameOldFields(d: EventDto, e: EventDto)
    requires OldFields(d) == OldFields(e)
    ensures d.id == e.id && d.actorId == e.actorId && d.toolId == e.toolId && d.decision == e.decision
         && OrEmpty(d.reason) == OrEmpty(e.reason) && OrEmpty(d.profileId) == OrEmpty(e.profileId)
         && OrEmpty(d.classification) == OrEmpty(e.classification) && d.durationMs == e.durationMs
         && d.createdAt == e.createdAt && d.createdAtEpochMs == e.createdAtEpochMs
  {
    hide Decimal.PrintInt, OrEmpty;
    var r, s := OldFields(d), OldFields(e);
    assert forall i | 0 <= i < 10 :: r[i] == s[i];
    PrintIntInjective(d.id, e.id);
    PrintIntInjective(d.createdAtEpochMs, e.createdAtEpochMs);
    SameDuration(d.durationMs, e.durationMs);
  }

  lemma {:induction false} SameExtendedFields(d: EventDto, e: EventDto)
    requires ExtendedFields(d) == ExtendedFields(e)
    ensures OrEmpty(d.level) == OrEmpty(e.level) && OrEmpty(d.category) == OrEmpty(e.category) && OrEmpty(d.action) == OrEmpty(e.action)
         && OrEmpty(d.outcome) == OrEmpty(e.outcome) && OrEmpty(d.actorType) == OrEmpty(e.actorType)
         && OrEmpty(d.sourceId) == OrEmpty(e.sourceId) && OrEmpty(d.summary) == OrEmpty(e.summary)
         && OrEmpty(d.connectionId) == OrEmpty(e.connectionId) && OrEmpty(d.databaseName) == OrEmpty(e.databaseName)
  {
    hide OrEmpty;
    var r, s := ExtendedFields(d), ExtendedFields(e);
    assert forall i | 0 <= i < 9 :: r[i] == s[i];
  }

  lemma {:induction false} SameObjectFields(d: EventDto, e: EventDto)
    requires ObjectFields(d) == ObjectFields(e)
    ensures OrEmpty(d.driverId) == OrEmpty(e.driverId) && OrEmpty(d.objectType) == OrEmpty(e.objectType)
         && OrEmpty(d.objectId) == OrEmpty(e.objectId) && OrEmpty(d.detailsJson) == OrEmpty(e.detailsJson)
         && OrEmpty(d.errorCode) == OrEmpty(e.errorCode) && OrEmpty(d.errorMessage) == OrEmpty(e.errorMessage)
         && OrEmpty(d.sessionId) == OrEmpty(e.sessionId) && OrEmpty(d.correlationId) == OrEmpty(e.correlationId)
  {
    hide OrEmpty;
    var r, s := ObjectFields(d), ObjectFields(e);
    assert forall i | 0 <= i < 8 :: r[i] == s[i];
  }

  lemma {:induction false} SameDuration(m: Option<int>, n: Option<int>)
    requires (if m.Some? then Decimal.PrintInt(m.value) else "") == (if n.Some? then Decimal.PrintInt(n.value) else "")
    ensures m == n
  {
    hide Decimal.Print;
    if m.Some? && n.Some? {
      PrintIntInjective(m.value, n.value);
    }
  }
}
