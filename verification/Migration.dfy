/** The one-time migration that rebinds stored AWS auth profiles to the ids derived
    from the sections of the AWS files. */
module Migration {
  import opened Text

  type Id = string

  datatype Origin = KeyringOnly | FileGone

  /** A stored auth profile; `profileName` is its `profile_name` field. */
  datatype Row = Row(id: Id, name: string, provider: string, profileName: Option<string>, dangling: Option<Origin>)

  /** The tables the migration touches: auth profiles in the order they are listed,
      the profile each connection is bound to, the bindings among the access
      parameters, and the marker. */
  datatype Db = Db(rows: seq<Row>, connections: map<nat, Option<Id>>, params: map<nat, Id>, marker: bool)

  /** What a run sees: the section names of the files by their lower-cased form, the
      derived ids, the answers of the keyring, and the rows whose fields cannot be
      read. */
  datatype Files = Files(canonical: map<string, string>, derive: (string, string) -> Id, hasSecret: Id -> bool, unread: set<Id>)

  datatype Outcome = Rebound(oldId: Id, newId: Id, connections: nat) | Dangling(id: Id, origin: Origin)

  const AWS_PROVIDER_IDS: seq<string> := ["aws-sso", "aws-sso-session", "aws-shared-credentials", "aws-static-credentials"]

  function ReflectedProvider(provider: string): string {
    if provider == "aws-static-credentials" then "aws-shared-credentials" else provider
  }

  predicate IsAws(row: Row) {
    row.provider in AWS_PROVIDER_IDS
  }

  /** The `profile_name` of a row: if its fields cannot be read they are taken to be
      empty. */
  function StoredName(row: Row, files: Files): Option<string> {
    if row.id in files.unread then None else row.profileName
  }

  /** The section name a row stands for. */
  function AwsName(row: Row, files: Files): string {
    var stored := StoredName(row, files);
    if stored.Some? && Trim(stored.value) != "" then Trim(stored.value) else Trim(row.name)
  }

  predicate Matched(row: Row, files: Files) {
    Lower(AwsName(row, files)) in files.canonical
  }

  function NewId(row: Row, files: Files): Id
    requires Matched(row, files)
  {
    files.derive(ReflectedProvider(row.provider), files.canonical[Lower(AwsName(row, files))])
  }

  function OriginOf(row: Row, files: Files): Origin {
    if row.provider == "aws-static-credentials" && files.hasSecret(row.id) then KeyringOnly else FileGone
  }

  // ---------------------------------------------------------------------
  // Steps
  // ---------------------------------------------------------------------

  function AwsRows(rows: seq<Row>): seq<Row> {
    if rows == [] then [] else (if IsAws(rows[0]) then [rows[0]] else []) + AwsRows(rows[1..])
  }

  function Deleted(rows: seq<Row>, id: Id): seq<Row> {
    if rows == [] then [] else (if rows[0].id == id then [] else [rows[0]]) + Deleted(rows[1..], id)
  }

  function Marked(rows: seq<Row>, id: Id, origin: Origin): seq<Row> {
    if rows == [] then []
    else [if rows[0].id == id then rows[0].(dangling := Some(origin)) else rows[0]] + Marked(rows[1..], id, origin)
  }

  function RebindAll(connections: map<nat, Option<Id>>, oldId: Id, newId: Id): map<nat, Option<Id>> {
    map c | c in connections :: if connections[c] == Some(oldId) then Some(newId) else connections[c]
  }

  function RebindParams(params: map<nat, Id>, oldId: Id, newId: Id): map<nat, Id> {
    map p | p in params :: if params[p] == oldId then newId else params[p]
  }

  function BoundTo(connections: map<nat, Option<Id>>, id: Id): set<nat> {
    set c | c in connections && connections[c] == Some(id)
  }

  function Bound(connections: map<nat, Option<Id>>, id: Id): nat {
    |BoundTo(connections, id)|
  }

  /** One row: a transaction that rebinds and deletes, or a dangling mark. */
  function Migrate(db: Db, row: Row, files: Files): Db {
    if Matched(row, files) then
      db.(connections := RebindAll(db.connections, row.id, NewId(row, files)),
          params := RebindParams(db.params, row.id, NewId(row, files)),
          rows := Deleted(db.rows, row.id))
    else db.(rows := Marked(db.rows, row.id, OriginOf(row, files)))
  }

  function MigrateRows(db: Db, todo: seq<Row>, files: Files): Db
    decreases |todo|
  {
    if todo == [] then db else MigrateRows(Migrate(db, todo[0], files), todo[1..], files)
  }

  /** The summary of a run: what was rebound, and what was marked. */
  function Rebounds(db: Db, todo: seq<Row>, files: Files): seq<Outcome> {
    if todo == [] then [] else
      var init, row := todo[..|todo| - 1], todo[|todo| - 1];
      Rebounds(db, init, files)
      + if Matched(row, files) then [Rebound(row.id, NewId(row, files), Bound(MigrateRows(db, init, files).connections, row.id))] else []
  }

  function Danglings(todo: seq<Row>, files: Files): seq<Outcome> {
    if todo == [] then [] else
      var init, row := todo[..|todo| - 1], todo[|todo| - 1];
      Danglings(init, files) + if Matched(row, files) then [] else [Dangling(row.id, OriginOf(row, files))]
  }

  /** A run that ends after `stop` rows, because the program stops or an error ends
      it; or one that completes and sets the marker. */
  function Run(db: Db, files: Files, stop: Option<nat>): Db {
    if db.marker then db else
      var todo := AwsRows(db.rows);
      match stop
      case Some(k) => MigrateRows(db, if k <= |todo| then todo[..k] else todo, files)
      case None => MigrateRows(db, todo, files).(marker := true)
  }

  // ---------------------------------------------------------------------
  // Failures
  // ---------------------------------------------------------------------

  /** What ends a run at a row: its `statement`-th write fails, or the update reports
      another number of changed rows than were counted. A failed read of its fields
      does not end it. */
  datatype Fault = Fine | Fails(statement: nat) | Reports(rebound: nat)

  datatype End = Completed(rebound: seq<Outcome>, dangling: seq<Outcome>) | Stopped(rows: nat)

  /** Counting, rebinding, rebinding parameters, deleting and committing can fail, and
      so can the comparison of the counts. */
  predicate TransactionFails(connections: map<nat, Option<Id>>, id: Id, fault: Fault) {
    (fault.Fails? && fault.statement < 5) || (fault.Reports? && fault.rebound != Bound(connections, id))
  }

  predicate RowFails(db: Db, row: Row, files: Files, fault: Fault) {
    if Matched(row, files) then TransactionFails(db.connections, row.id, fault) else fault == Fails(0)
  }

  function FaultAt(faults: seq<Fault>, k: nat): Fault {
    if k < |faults| then faults[k] else Fine
  }

  /** The first failure of a run is at row `k`, or at the marker after all rows. */
  ghost predicate FailsFirst(db: Db, files: Files, faults: seq<Fault>, k: nat) {
    var todo := AwsRows(db.rows);
    && k <= |todo|
    && (forall j | 0 <= j < k :: !RowFails(MigrateRows(db, todo[..j], files), todo[j], files, FaultAt(faults, j)))
    && if k < |todo| then RowFails(MigrateRows(db, todo[..k], files), todo[k], files, FaultAt(faults, k))
       else FaultAt(faults, k) == Fails(0)
  }

  // ---------------------------------------------------------------------
  // The store
  // ---------------------------------------------------------------------

  class Storage {
    var rows: seq<Row>
    var connections: map<nat, Option<Id>>
    var params: map<nat, Id>
    var marker: bool

    ghost function View(): Db
      reads this
    {
      Db(rows, connections, params, marker)
    }

    /** The transaction: on any failure nothing has changed. */
    method RebindAndDelete(oldId: Id, newId: Id, fault: Fault) returns (rebound: Option<nat>)
      modifies this
      ensures rebound == if TransactionFails(old(connections), oldId, fault) then None else Some(Bound(old(connections), oldId))
      ensures rebound.None? ==> View() == old(View())
      ensures rebound.Some? ==>
                View() == old(View()).(connections := RebindAll(old(connections), oldId, newId),
                                       params := RebindParams(old(params), oldId, newId),
                                       rows := Deleted(old(rows), oldId))
    {
      hide Deleted;
      if fault == Fails(0) { return None; }
      var referencing := Bound(connections, oldId);
      if fault == Fails(1) { return None; }
      var moved := RebindAll(connections, oldId, newId);
      var reported := if fault.Reports? then fault.rebound else referencing;
      if reported != referencing { return None; }
      if fault == Fails(2) { return None; }
      var movedParams := RebindParams(params, oldId, newId);
      if fault == Fails(3) { return None; }
      var left := Deleted(rows, oldId);
      if fault == Fails(4) { return None; }
      connections, params, rows := moved, movedParams, left;
      rebound := Some(reported);
    }

    method SetDanglingOrigin(id: Id, origin: Origin, fault: Fault) returns (ok: bool)
      modifies this
      ensures ok == (fault != Fails(0))
      ensures View() == if ok then old(View()).(rows := Marked(old(rows), id, origin)) else old(View())
    {
      ok := fault != Fails(0);
      if ok {
        rows := Marked(rows, id, origin);
      }
    }

    /** `run_aws_config_reflect_migration`, with what goes wrong at the start, at each
        row, and then at the marker. */
    method RunMigration(files: Files, startFails: bool, faults: seq<Fault>) returns (end: End)
      modifies this
      ensures end.Stopped? <==> startFails || (!old(marker) && exists k :: FailsFirst(old(View()), files, faults, k))
      ensures end.Stopped? ==> if startFails then end.rows == 0 else FailsFirst(old(View()), files, faults, end.rows)
      ensures View() == Run(old(View()), files, if end.Stopped? then Some(end.rows) else None)
      ensures end.Completed? ==>
                && end.rebound == (if old(marker) then [] else Rebounds(old(View()), AwsRows(old(rows)), files))
                && end.dangling == (if old(marker) then [] else Danglings(AwsRows(old(rows)), files))
    {
      hide Migrate, AwsRows, Matched, Rebounds, Danglings, MigrateRows, NewId, OriginOf, RowFails;
      NothingDone(View(), files);
      assert AwsRows(rows)[..0] == [];
      if startFails {
        return Stopped(0);
      }
      var rebound: seq<Outcome>, dangling: seq<Outcome> := [], [];
      if marker {
        return Completed([], []);
      }
      var todo := AwsRows(rows);
      var k := 0;
      assert todo[..0] == [];
      while k < |todo|
        invariant k <= |todo|
        invariant View() == MigrateRows(old(View()), todo[..k], files)
        invariant forall j | 0 <= j < k :: !RowFails(MigrateRows(old(View()), todo[..j], files), todo[j], files, FaultAt(faults, j))
        invariant rebound == Rebounds(old(View()), todo[..k], files) && dangling == Danglings(todo[..k], files)
        invariant !marker
      {
        var row := todo[k];
        MigrateRowsSnoc(old(View()), todo, k, files);
        SummarySnoc(old(View()), todo, k, files);
        RowFailsWhen(View(), row, files, FaultAt(faults, k));
        assert rebound + [] == rebound && dangling + [] == dangling;
        if Matched(row, files) {
          MigrateMatched(View(), row, files);
          var n := RebindAndDelete(row.id, NewId(row, files), FaultAt(faults, k));
          if n.None? {
            assert FailsFirst(old(View()), files, faults, k);
            return Stopped(k);
          }
          rebound := rebound + [Rebound(row.id, NewId(row, files), n.value)];
        } else {
          MigrateUnmatched(View(), row, files);
          var origin := OriginOf(row, files);
          var ok := SetDanglingOrigin(row.id, origin, FaultAt(faults, k));
          if !ok {
            assert FailsFirst(old(View()), files, faults, k);
            return Stopped(k);
          }
          dangling := dangling + [Dangling(row.id, origin)];
        }
        k := k + 1;
      }
      assert todo[..k] == todo;
      if FaultAt(faults, k) == Fails(0) {
        assert FailsFirst(old(View()), files, faults, k);
        return Stopped(k);
      }
      marker := true;
      end := Completed(rebound, dangling);
    }
  }

  lemma {:induction false} RowFailsWhen(db: Db, row: Row, files: Files, fault: Fault)
    ensures RowFails(db, row, files, fault) <==>
              if Matched(row, files) then TransactionFails(db.connections, row.id, fault) else fault == Fails(0)
  {
    hide Matched, TransactionFails;
  }

  lemma {:induction false} NothingDone(db: Db, files: Files)
    ensures MigrateRows(db, [], files) == db && Rebounds(db, [], files) == [] && Danglings([], files) == []
  {
  }

  lemma {:induction false} SummarySnoc(db: Db, todo: seq<Row>, k: nat, files: Files)
    requires k < |todo|
    ensures var row := todo[k];
            && Rebounds(db, todo[..k + 1], files) == Rebounds(db, todo[..k], files)
               + (if Matched(row, files) then [Rebound(row.id, NewId(row, files), Bound(MigrateRows(db, todo[..k], files).connections, row.id))] else [])
            && Danglings(todo[..k + 1], files) == Danglings(todo[..k], files)
               + (if Matched(row, files) then [] else [Dangling(row.id, OriginOf(row, files))])
  {
    hide Matched, MigrateRows, NewId, OriginOf, Bound;
    assert todo[..k + 1][..k] == todo[..k];
  }

  lemma {:induction false} MigrateMatched(db: Db, row: Row, files: Files)
    requires Matched(row, files)
    ensures Migrate(db, row, files) == db.(connections := RebindAll(db.connections, row.id, NewId(row, files)),
                                           params := RebindParams(db.params, row.id, NewId(row, files)),
                                           rows := Deleted(db.rows, row.id))
  {
  }

  lemma {:induction false} MigrateUnmatched(db: Db, row: Row, files: Files)
    requires !Matched(row, files)
    ensures Migrate(db, row, files) == db.(rows := Marked(db.rows, row.id, OriginOf(row, files)))
  {
  }

  lemma {:induction false} MigrateRowsSnoc(db: Db, todo: seq<Row>, k: nat, files: Files)
    requires k < |todo|
    ensures MigrateRows(db, todo[..k + 1], files) == Migrate(MigrateRows(db, todo[..k], files), todo[k], files)
    decreases k
  {
    hide Migrate;
    if k == 0 {
      assert todo[..1][1..] == [] && todo[..0] == [];
    } else {
      MigrateRowsSnoc(Migrate(db, todo[0], files), todo[1..], k - 1, files);
      assert todo[..k + 1][1..] == todo[1..][..k] && todo[..k][1..] == todo[1..][..k - 1];
    }
  }

  lemma {:induction false} MigrateRowsConcat(db: Db, a: seq<Row>, b: seq<Row>, files: Files)
    ensures MigrateRows(db, a + b, files) == MigrateRows(MigrateRows(db, a, files), b, files)
    decreases |a|
  {
    hide Migrate;
    if a == [] {
      assert a + b == b;
    } else {
      assert (a + b)[1..] == a[1..] + b;
      MigrateRowsConcat(Migrate(db, a[0], files), a[1..], b, files);
    }
  }

  // ---------------------------------------------------------------------
  // Restart
  // ---------------------------------------------------------------------

  predicate UniqueIds(rows: seq<Row>) {
    forall i, j | 0 <= i < j < |rows| :: rows[i].id != rows[j].id
  }

  /** The rows once the first `k` AWS rows are done. */
  ghost function After(rows: seq<Row>, k: nat, files: Files): seq<Row> {
    if rows == [] || k == 0 then rows
    else if !IsAws(rows[0]) then [rows[0]] + After(rows[1..], k, files)
    else Done(rows[0], files) + After(rows[1..], k - 1, files)
  }

  /** What is left of a row that is done. */
  ghost function Done(row: Row, files: Files): seq<Row> {
    if Matched(row, files) then [] else [row.(dangling := Some(OriginOf(row, files)))]
  }

  /** What is left of rows that are done. */
  ghost function AllDone(rows: seq<Row>, files: Files): seq<Row> {
    if rows == [] then [] else Done(rows[0], files) + AllDone(rows[1..], files)
  }

  /** The effect of one row on the table. */
  ghost function RowsAfter(rows: seq<Row>, row: Row, files: Files): seq<Row> {
    if Matched(row, files) then Deleted(rows, row.id) else Marked(rows, row.id, OriginOf(row, files))
  }

  lemma {:induction false} NotThere(rows: seq<Row>, id: Id, origin: Origin)
    requires forall r | r in rows :: r.id != id
    ensures Deleted(rows, id) == rows && Marked(rows, id, origin) == rows
  {
    if rows != [] {
      assert rows[0] in rows;
      NotThere(rows[1..], id, origin);
      assert rows == [rows[0]] + rows[1..];
    }
  }

  lemma {:induction false} AfterIds(rows: seq<Row>, k: nat, files: Files, id: Id)
    requires forall r | r in rows :: r.id != id
    ensures forall r | r in After(rows, k, files) :: r.id != id
  {
    hide Matched, IsAws;
    if rows != [] && k > 0 {
      assert rows[0] in rows;
      AfterIds(rows[1..], if IsAws(rows[0]) then k - 1 else k, files, id);
      var head := if IsAws(rows[0]) then Done(rows[0], files) else [rows[0]];
      var rest := After(rows[1..], if IsAws(rows[0]) then k - 1 else k, files);
      assert forall r :: r in head + rest <==> r in head || r in rest;
    }
  }

  lemma {:induction false} RowsAfterCons(head: seq<Row>, rest: seq<Row>, row: Row, files: Files)
    ensures RowsAfter(head + rest, row, files) == RowsAfter(head, row, files) + RowsAfter(rest, row, files)
  {
    if head == [] {
      assert head + rest == rest;
      NothingThere(row, files);
    } else {
      RowsAfterCons(head[1..], rest, row, files);
      assert (head + rest)[1..] == head[1..] + rest;
    }
  }

  lemma {:induction false} NothingThere(row: Row, files: Files)
    ensures RowsAfter([], row, files) == []
  {
  }

  lemma {:induction false} AwsRowsCons(rows: seq<Row>)
    requires rows != []
    ensures AwsRows(rows) == if IsAws(rows[0]) then [rows[0]] + AwsRows(rows[1..]) else AwsRows(rows[1..])
  {
    hide IsAws;
    assert [] + AwsRows(rows[1..]) == AwsRows(rows[1..]);
  }

  lemma {:induction false} AfterCons(rows: seq<Row>, k: nat, files: Files)
    requires rows != []
    ensures !IsAws(rows[0]) ==> After(rows, k, files) == [rows[0]] + After(rows[1..], k, files)
    ensures IsAws(rows[0]) && k > 0 ==> After(rows, k, files) == Done(rows[0], files) + After(rows[1..], k - 1, files)
    ensures k == 0 ==> After(rows, k, files) == rows && After(rows[1..], k, files) == rows[1..]
  {
    hide IsAws, Done;
    assert rows == [rows[0]] + rows[1..];
  }

  /** Doing the next row moves one row further. */
  lemma {:induction false} AfterNext(rows: seq<Row>, k: nat, files: Files)
    requires UniqueIds(rows) && k < |AwsRows(rows)|
    ensures RowsAfter(After(rows, k, files), AwsRows(rows)[k], files) == After(rows, k + 1, files)
    decreases |rows|
  {
    hide Matched, RowsAfter, IsAws, AwsRows, After, Done;
    NoAwsRows();
    var row, head, rest := AwsRows(rows)[k], rows[0], rows[1..];
    assert rows == [head] + rest;
    assert forall r | r in rest :: r.id != head.id;
    AwsRowsIn(rest);
    AwsRowsCons(rows);
    AfterCons(rows, k, files);
    AfterCons(rows, k + 1, files);
    if !IsAws(head) {
      AfterNext(rest, k, files);
      RowsAfterCons([head], After(rest, k, files), row, files);
      OtherRow(head, row, files);
    } else if k == 0 {
      RowsAfterCons([head], rest, head, files);
      OwnRow(head, files);
      RestStays(rest, head, files);
    } else {
      AfterNext(rest, k - 1, files);
      RowsAfterCons(Done(head, files), After(rest, k - 1, files), row, files);
      DoneStays(head, row, files);
    }
  }

  lemma {:induction false} NoAwsRows()
    ensures AwsRows([]) == []
  {
  }

  lemma {:induction false} AwsRowsIn(rows: seq<Row>)
    ensures forall r | r in AwsRows(rows) :: r in rows
  {
    hide IsAws;
    if rows != [] { AwsRowsIn(rows[1..]); }
  }

  lemma {:induction false} OtherRow(head: Row, row: Row, files: Files)
    requires head.id != row.id
    ensures RowsAfter([head], row, files) == [head]
  {
    NotThere([head], row.id, OriginOf(row, files));
  }

  lemma {:induction false} OwnRow(head: Row, files: Files)
    ensures RowsAfter([head], head, files) == Done(head, files)
  {
    hide Matched;
    var o := OriginOf(head, files);
    assert [head][1..] == [];
    assert Deleted([head], head.id) == [] + Deleted([head][1..], head.id);
    assert Marked([head], head.id, o) == [head.(dangling := Some(o))] + Marked([head][1..], head.id, o);
  }

  lemma {:induction false} RestStays(rest: seq<Row>, head: Row, files: Files)
    requires forall r | r in rest :: r.id != head.id
    ensures RowsAfter(rest, head, files) == rest && After(rest, 0, files) == rest
  {
    NotThere(rest, head.id, OriginOf(head, files));
  }

  lemma {:induction false} DoneStays(head: Row, row: Row, files: Files)
    requires head.id != row.id
    ensures RowsAfter(Done(head, files), row, files) == Done(head, files)
  {
    NotThere(Done(head, files), row.id, OriginOf(row, files));
  }

  /** The AWS rows still listed: the dangling ones of the first `k`, then the rest. */
  lemma {:induction false} AwsRowsAfter(rows: seq<Row>, k: nat, files: Files)
    requires k <= |AwsRows(rows)|
    ensures AwsRows(After(rows, k, files)) == AllDone(AwsRows(rows)[..k], files) + AwsRows(rows)[k..]
    decreases |rows|
  {
    hide Matched, IsAws;
    var todo := AwsRows(rows);
    if k == 0 {
      assert todo[..0] == [] && [] + todo[0..] == todo;
    } else {
      var head, rest := rows[0], rows[1..];
      var todo' := AwsRows(rest);
      if !IsAws(head) {
        assert [] + todo' == todo';
        AwsRowsAfter(rest, k, files);
        var after := After(rest, k, files);
        assert ([head] + after)[1..] == after && [] + AwsRows(after) == AwsRows(after);
      } else {
        assert todo == [head] + todo';
        AwsRowsAfter(rest, k - 1, files);
        assert todo[..k][1..] == todo'[..k - 1] && todo[k..] == todo'[k - 1..];
        AwsRowsConcat(Done(head, files), After(rest, k - 1, files));
        DoneIsAws(head, files);
        ConcatAssoc(Done(head, files), AllDone(todo'[..k - 1], files), todo'[k - 1..]);
      }
    }
  }

  lemma {:induction false} DoneIsAws(row: Row, files: Files)
    requires IsAws(row)
    ensures AwsRows(Done(row, files)) == Done(row, files)
  {
    if !Matched(row, files) {
      var d := Done(row, files);
      assert d[1..] == [] && IsAws(d[0]);
    }
  }

  lemma {:induction false} AwsRowsConcat(a: seq<Row>, b: seq<Row>)
    ensures AwsRows(a + b) == AwsRows(a) + AwsRows(b)
  {
    hide IsAws;
    if a == [] {
      assert a + b == b;
    } else {
      assert (a + b)[1..] == a[1..] + b;
      AwsRowsConcat(a[1..], b);
      ConcatAssoc(if IsAws(a[0]) then [a[0]] else [], AwsRows(a[1..]), AwsRows(b));
    }
  }

  /** After `k` rows the table is as `After` says, and the marker is as it was. */
  lemma {:induction false} MigratedRows(db: Db, k: nat, files: Files)
    requires UniqueIds(db.rows) && k <= |AwsRows(db.rows)|
    ensures var t := MigrateRows(db, AwsRows(db.rows)[..k], files);
            t.rows == After(db.rows, k, files) && t.marker == db.marker
    decreases k
  {
    hide Matched, AwsRows, After, UniqueIds, Deleted, Marked;
    var todo := AwsRows(db.rows);
    if k == 0 {
      assert todo[..0] == [];
      AfterNone(db.rows, files);
    } else {
      MigratedRows(db, k - 1, files);
      MigrateRowsSnoc(db, todo, k - 1, files);
      AfterNext(db.rows, k - 1, files);
    }
  }

  lemma {:induction false} AfterNone(rows: seq<Row>, files: Files)
    ensures After(rows, 0, files) == rows
  {
  }

  /** Rows that are already marked are marked again to no effect. */
  lemma {:induction false} MarkedAgain(rows: seq<Row>, row: Row, files: Files)
    requires UniqueIds(rows) && row in rows && row.dangling == Some(OriginOf(row, files))
    ensures Marked(rows, row.id, OriginOf(row, files)) == rows
  {
    if rows[0] == row {
      NotThere(rows[1..], row.id, OriginOf(row, files));
    } else {
      MarkedAgain(rows[1..], row, files);
    }
    assert rows == [rows[0]] + rows[1..];
  }

  /** Doing done rows again changes nothing. */
  lemma {:induction false} RedoNothing(db: Db, done: seq<Row>, files: Files)
    requires UniqueIds(db.rows)
    requires forall d | d in done :: d in db.rows && !Matched(d, files) && d.dangling == Some(OriginOf(d, files))
    ensures MigrateRows(db, done, files) == db
    decreases |done|
  {
    hide Matched, UniqueIds, Marked, Deleted;
    if done != [] {
      assert done[0] in done;
      MarkedAgain(db.rows, done[0], files);
      RedoNothing(db, done[1..], files);
    }
  }

  lemma {:induction false} DoneRowsAreIn(rows: seq<Row>, k: nat, files: Files)
    requires k <= |AwsRows(rows)|
    ensures forall d | d in AllDone(AwsRows(rows)[..k], files) ::
              d in After(rows, k, files) && !Matched(d, files) && d.dangling == Some(OriginOf(d, files))
  {
    AwsRowsAfter(rows, k, files);
    AwsRowsIn(After(rows, k, files));
    DoneRowsAre(AwsRows(rows)[..k], files);
    var done, rest := AllDone(AwsRows(rows)[..k], files), AwsRows(rows)[k..];
    assert forall d | d in done :: d in done + rest;
  }

  lemma {:induction false} DoneRowsAre(todo: seq<Row>, files: Files)
    ensures forall d | d in AllDone(todo, files) :: !Matched(d, files) && d.dangling == Some(OriginOf(d, files))
  {
    if todo != [] {
      DoneRowsAre(todo[1..], files);
      SameMatch(todo[0], files);
    }
  }

  /** The mark is no part of what a row matches. */
  lemma {:induction false} SameMatch(row: Row, files: Files)
    ensures forall o :: Matched(row.(dangling := o), files) == Matched(row, files)
    ensures forall o :: OriginOf(row.(dangling := o), files) == OriginOf(row, files)
  {
  }

  lemma {:induction false} AfterUnique(rows: seq<Row>, k: nat, files: Files)
    requires UniqueIds(rows)
    ensures UniqueIds(After(rows, k, files))
  {
    hide Matched, IsAws;
    if rows != [] && k > 0 {
      var n := if IsAws(rows[0]) then k - 1 else k;
      AfterUnique(rows[1..], n, files);
      assert forall r | r in rows[1..] :: r.id != rows[0].id;
      AfterIds(rows[1..], n, files, rows[0].id);
      var head, rest := if IsAws(rows[0]) then Done(rows[0], files) else [rows[0]], After(rows[1..], n, files);
      AddUnique(head, rest, rows[0].id);
    }
  }

  lemma {:induction false} AddUnique(head: seq<Row>, rest: seq<Row>, id: Id)
    requires |head| <= 1 && (head != [] ==> head[0].id == id) && UniqueIds(rest) && forall r | r in rest :: r.id != id
    ensures UniqueIds(head + rest)
  {
  }

  /** A run stopped after any number of rows and started again ends where one
      uninterrupted run ends. */
  lemma {:induction false} RestartIsSafe(db: Db, files: Files, k: nat)
    requires UniqueIds(db.rows)
    ensures Run(Run(db, files, Some(k)), files, None) == Run(db, files, None)
    ensures UniqueIds(Run(db, files, Some(k)).rows)
  {
    hide Matched, AwsRows, After, UniqueIds, Migrate, AllDone, MigrateRows;
    if !db.marker {
      var todo := AwsRows(db.rows);
      var n := if k <= |todo| then k else |todo|;
      assert todo[..|todo|] == todo;
      var mid := MigrateRows(db, todo[..n], files);
      MigratedRows(db, n, files);
      AfterUnique(db.rows, n, files);
      var done := AllDone(todo[..n], files);
      AwsRowsAfter(db.rows, n, files);
      DoneRowsAreIn(db.rows, n, files);
      MigrateRowsConcat(mid, done, todo[n..], files);
      RedoNothing(mid, done, files);
      MigrateRowsConcat(db, todo[..n], todo[n..], files);
      assert todo[..n] + todo[n..] == todo;
    }
  }

  /** However often it is interrupted. */
  function RunMany(db: Db, files: Files, stops: seq<nat>): Db
    decreases |stops|
  {
    if stops == [] then Run(db, files, None) else RunMany(Run(db, files, Some(stops[0])), files, stops[1..])
  }

  lemma {:induction false} InterruptionsAreInvisible(db: Db, files: Files, stops: seq<nat>)
    requires UniqueIds(db.rows)
    ensures RunMany(db, files, stops) == Run(db, files, None)
    decreases |stops|
  {
    hide Run, UniqueIds;
    if stops != [] {
      RestartIsSafe(db, files, stops[0]);
      InterruptionsAreInvisible(Run(db, files, Some(stops[0])), files, stops[1..]);
    }
  }

  /** Once it has completed, runs change nothing, whatever the files say then. */
  lemma {:induction false} LaterRunsChangeNothing(db: Db, files: Files, later: Files, stop: Option<nat>)
    ensures Run(Run(db, files, None), later, stop) == Run(db, files, None)
  {
    hide MigrateRows, AwsRows;
  }

  // ---------------------------------------------------------------------
  // Bindings
  // ---------------------------------------------------------------------

  /** Where a binding to `id` leads once `todo` is done. */
  ghost function Follow(id: Id, todo: seq<Row>, files: Files): Id
    decreases |todo|
  {
    if todo == [] then id
    else Follow(if Matched(todo[0], files) && todo[0].id == id then NewId(todo[0], files) else id, todo[1..], files)
  }

  /** No connection and no access parameter is lost or added, and each binding follows
      the rows. */
  lemma {:induction false} BindingsFollow(db: Db, todo: seq<Row>, files: Files)
    ensures var t := MigrateRows(db, todo, files);
            && t.connections.Keys == db.connections.Keys && t.params.Keys == db.params.Keys
            && (forall c | c in db.connections ::
                  t.connections[c] == if db.connections[c].None? then None else Some(Follow(db.connections[c].value, todo, files)))
            && (forall p | p in db.params :: t.params[p] == Follow(db.params[p], todo, files))
    decreases |todo|
  {
    hide Matched, Deleted, Marked, NewId;
    if todo != [] { BindingsFollow(Migrate(db, todo[0], files), todo[1..], files); }
  }

  lemma {:induction false} UnmatchedStays(id: Id, todo: seq<Row>, files: Files)
    requires forall r | r in todo && Matched(r, files) :: r.id != id
    ensures Follow(id, todo, files) == id
    decreases |todo|
  {
    hide Matched, NewId;
    if todo != [] {
      assert todo[0] in todo;
      UnmatchedStays(id, todo[1..], files);
    }
  }

  /** No derived id is the id of another stored row. */
  ghost predicate DerivedIdsAreNew(todo: seq<Row>, files: Files) {
    forall r, q | r in todo && q in todo && Matched(r, files) :: q.id != r.id ==> NewId(r, files) != q.id
  }

  lemma {:induction false} MatchedMoves(row: Row, todo: seq<Row>, files: Files)
    requires row in todo && Matched(row, files) && UniqueIds(todo) && DerivedIdsAreNew(todo, files)
    ensures Follow(row.id, todo, files) == NewId(row, files)
    decreases |todo|
  {
    hide Matched, NewId;
    assert forall r | r in todo[1..] :: r.id != todo[0].id;
    if todo[0] == row {
      UnmatchedStays(NewId(row, files), todo[1..], files);
    } else {
      assert row in todo[1..];
      MatchedMoves(row, todo[1..], files);
    }
  }

  lemma {:induction false} AwsRowsUnique(rows: seq<Row>)
    requires UniqueIds(rows)
    ensures UniqueIds(AwsRows(rows))
  {
    hide IsAws;
    if rows != [] {
      AwsRowsUnique(rows[1..]);
      AwsRowsIn(rows[1..]);
      assert forall r | r in rows[1..] :: r.id != rows[0].id;
      AddUnique(if IsAws(rows[0]) then [rows[0]] else [], AwsRows(rows[1..]), rows[0].id);
    }
  }

  /** What a binding to `id` is after the migration: unchanged if no matched row has
      that id, and the id derived from the row that has it. */
  ghost predicate Settled(id: Id, after: Id, todo: seq<Row>, files: Files) {
    && ((forall r | r in todo && Matched(r, files) :: r.id != id) ==> after == id)
    && (DerivedIdsAreNew(todo, files) ==> forall r | r in todo && Matched(r, files) && r.id == id :: after == NewId(r, files))
  }

  lemma {:induction false} FollowSettles(id: Id, todo: seq<Row>, files: Files)
    requires UniqueIds(todo)
    ensures Settled(id, Follow(id, todo, files), todo, files)
  {
    hide Matched, NewId, Follow, DerivedIdsAreNew, UniqueIds;
    if forall r | r in todo && Matched(r, files) :: r.id != id {
      UnmatchedStays(id, todo, files);
    }
    if DerivedIdsAreNew(todo, files) {
      forall r | r in todo && Matched(r, files) && r.id == id ensures Follow(id, todo, files) == NewId(r, files) {
        MatchedMoves(r, todo, files);
      }
    }
  }

  /** However often the migration is interrupted: connections and access parameters
      keep their bindings, but for those to matched rows, which move to the derived
      ids. */
  lemma {:induction false} BindingsSettle(db: Db, files: Files, stops: seq<nat>)
    requires UniqueIds(db.rows) && !db.marker
    ensures var t, todo := RunMany(db, files, stops), AwsRows(db.rows);
            && t.connections.Keys == db.connections.Keys && t.params.Keys == db.params.Keys
            && (forall c | c in db.connections ::
                  if db.connections[c].None? then t.connections[c].None?
                  else t.connections[c].Some? && Settled(db.connections[c].value, t.connections[c].value, todo, files))
            && (forall p | p in db.params :: Settled(db.params[p], t.params[p], todo, files))
  {
    hide MigrateRows, AwsRows, UniqueIds, Settled, Follow, RunMany;
    InterruptionsAreInvisible(db, files, stops);
    var todo := AwsRows(db.rows);
    BindingsFollow(db, todo, files);
    AwsRowsUnique(db.rows);
    forall id ensures Settled(id, Follow(id, todo, files), todo, files) {
      FollowSettles(id, todo, files);
    }
  }

  // ---------------------------------------------------------------------
  // The summary
  // ---------------------------------------------------------------------

  function OutcomeId(o: Outcome): Id {
    match o
    case Rebound(oldId, _, _) => oldId
    case Dangling(id, _) => id
  }

  function Ids(os: seq<Outcome>): seq<Id> {
    seq(|os|, i requires 0 <= i < |os| => OutcomeId(os[i]))
  }

  function RowIds(rows: seq<Row>): seq<Id> {
    seq(|rows|, i requires 0 <= i < |rows| => rows[i].id)
  }

  function Moved(os: seq<Outcome>): nat {
    if os == [] then 0 else
      var last := os[|os| - 1];
      Moved(os[..|os| - 1]) + if last.Rebound? then last.connections else 0
  }

  ghost function BoundToMatched(connections: map<nat, Option<Id>>, todo: seq<Row>, files: Files): set<nat> {
    set c | c in connections && exists r :: r in todo && Matched(r, files) && connections[c] == Some(r.id)
  }

  lemma {:induction false} IdsSnoc(os: seq<Outcome>, o: Outcome)
    ensures Ids(os + [o]) == Ids(os) + [OutcomeId(o)]
  {
  }

  lemma {:induction false} NoIds()
    ensures Ids([]) == []
  {
  }

  /** Every AWS row is reported once, as rebound or as dangling. */
  lemma {:induction false} EachRowIsReported(db: Db, todo: seq<Row>, files: Files)
    ensures multiset(Ids(Rebounds(db, todo, files))) + multiset(Ids(Danglings(todo, files))) == multiset(RowIds(todo))
    decreases |todo|
  {
    hide Matched, MigrateRows, NewId, OriginOf, Bound, Ids;
    assert Ids([]) == [] by { NoIds(); }
    if todo != [] {
      var n := |todo| - 1;
      var init, row := todo[..n], todo[n];
      EachRowIsReported(db, init, files);
      var rs, ds := Rebounds(db, init, files), Danglings(init, files);
      assert rs + [] == rs && ds + [] == ds;
      assert RowIds(todo) == RowIds(init) + [row.id];
      if Matched(row, files) {
        var o := Rebound(row.id, NewId(row, files), Bound(MigrateRows(db, init, files).connections, row.id));
        IdsSnoc(rs, o);
      } else {
        IdsSnoc(ds, Dangling(row.id, OriginOf(row, files)));
      }
    }
  }

  /** The counts reported add up to the connections that were bound to matched rows. */
  lemma {:induction false} CountsAddUp(db: Db, todo: seq<Row>, files: Files)
    requires UniqueIds(todo) && DerivedIdsAreNew(todo, files)
    ensures Moved(Rebounds(db, todo, files)) == |BoundToMatched(db.connections, todo, files)|
    decreases |todo|
  {
    hide Matched, MigrateRows, NewId, Bound;
    if todo != [] {
      var n := |todo| - 1;
      var init, row := todo[..n], todo[n];
      CountsAddUp(db, init, files);
      var rs := Rebounds(db, init, files);
      assert rs + [] == rs;
      assert todo == init + [row];
      if Matched(row, files) {
        var o := Rebound(row.id, NewId(row, files), Bound(MigrateRows(db, init, files).connections, row.id));
        assert (rs + [o])[..|rs|] == rs;
        NextCount(db, init, row, files);
      } else {
        assert BoundToMatched(db.connections, todo, files) == BoundToMatched(db.connections, init, files);
      }
    }
  }

  lemma {:induction false} NextCount(db: Db, init: seq<Row>, row: Row, files: Files)
    requires Matched(row, files) && UniqueIds(init + [row]) && DerivedIdsAreNew(init + [row], files)
    ensures |BoundToMatched(db.connections, init + [row], files)|
            == |BoundToMatched(db.connections, init, files)| + Bound(MigrateRows(db, init, files).connections, row.id)
  {
    hide Matched, MigrateRows, NewId, BoundToMatched, UniqueIds, DerivedIdsAreNew;
    BoundToNext(db.connections, init, row, files);
    BoundThen(db, init, row, files);
  }

  lemma {:induction false} BoundToNext(cs: map<nat, Option<Id>>, init: seq<Row>, row: Row, files: Files)
    requires Matched(row, files) && UniqueIds(init + [row])
    ensures |BoundToMatched(cs, init + [row], files)| == |BoundToMatched(cs, init, files)| + Bound(cs, row.id)
  {
    hide Matched;
    var todo := init + [row];
    var was, more := BoundToMatched(cs, init, files), BoundTo(cs, row.id);
    assert todo[|init|] == row && forall i | 0 <= i < |init| :: todo[i] == init[i];
    assert forall r | r in init :: r.id != row.id;
    assert forall r :: r in todo <==> r in init || r == row;
    assert was !! more;
    assert BoundToMatched(cs, todo, files) == was + more;
    assert |was + more| == |was| + |more|;
  }

  lemma {:induction false} BoundThen(db: Db, init: seq<Row>, row: Row, files: Files)
    requires UniqueIds(init + [row]) && DerivedIdsAreNew(init + [row], files)
    ensures Bound(MigrateRows(db, init, files).connections, row.id) == Bound(db.connections, row.id)
  {
    hide Matched, MigrateRows, Follow, UniqueIds, DerivedIdsAreNew;
    BindingsFollow(db, init, files);
    var cs, ds := db.connections, MigrateRows(db, init, files).connections;
    forall id ensures Follow(id, init, files) == row.id <==> id == row.id {
      LeadsTo(id, init, row, files);
    }
    assert BoundTo(cs, row.id) == BoundTo(ds, row.id);
  }

  /** Nothing is rebound to the id of a row that is still to come. */
  lemma {:induction false} LeadsTo(id: Id, init: seq<Row>, row: Row, files: Files)
    requires UniqueIds(init + [row]) && DerivedIdsAreNew(init + [row], files)
    ensures Follow(id, init, files) == row.id <==> id == row.id
  {
    hide Matched, NewId, Follow;
    var todo := init + [row];
    assert todo[|init|] == row && forall i | 0 <= i < |init| :: todo[i] == init[i];
    assert forall r | r in init :: r in todo && r.id != row.id;
    assert UniqueIds(init);
    if r :| r in init && Matched(r, files) && r.id == id {
      MatchedMoves(r, init, files);
    } else {
      UnmatchedStays(id, init, files);
    }
  }
}
