/** Runs of the migration in which the fields of some rows cannot be read. The code
    goes on with the display name of such a row. */
module MigrationReads {
  import opened Text
  import opened Migration

  // ---------------------------------------------------------------------
  // Rows whose fields cannot be read
  // ---------------------------------------------------------------------

  /** The same run with every row read. */
  function AllRead(files: Files): Files {
    files.(unread := {})
  }

  /** Everything that is done in the end. */
  ghost function Whole(rows: seq<Row>, files: Files): seq<Row> {
    if rows == [] then []
    else (if IsAws(rows[0]) then Done(rows[0], files) else [rows[0]]) + Whole(rows[1..], files)
  }

  lemma {:induction false} AfterIsWhole(rows: seq<Row>, files: Files)
    ensures After(rows, |AwsRows(rows)|, files) == Whole(rows, files)
  {
    hide IsAws, Done, AwsRows;
    if rows == [] {
      NoAwsRows();
    } else {
      AfterIsWhole(rows[1..], files);
      AwsRowsCons(rows);
      AfterCons(rows, |AwsRows(rows)|, files);
    }
  }

  lemma {:induction false} DoneRow(row: Row, files: Files)
    ensures Matched(row, files) ==> Done(row, files) == []
    ensures !Matched(row, files) ==> |Done(row, files)| == 1 && Done(row, files)[0].id == row.id
    ensures Matched(row, files) == Matched(row, AllRead(files)) ==> Done(row, files) == Done(row, AllRead(files))
  {
    hide Matched;
  }

  /** A row stays in the table unless it is matched. */
  lemma {:induction false} WholeHas(rows: seq<Row>, files: Files, r: Row)
    requires UniqueIds(rows) && r in rows && IsAws(r)
    ensures (exists q :: q in Whole(rows, files) && q.id == r.id) <==> !Matched(r, files)
  {
    hide Matched, IsAws, Done;
    var head := if IsAws(rows[0]) then Done(rows[0], files) else [rows[0]];
    var rest := Whole(rows[1..], files);
    assert forall q | q in rows[1..] :: q.id != rows[0].id;
    DoneRow(rows[0], files);
    assert forall q :: q in head + rest <==> q in head || q in rest;
    WholeIds(rows[1..], files, rows[0].id);
    if r == rows[0] {
      if !Matched(r, files) { assert head[0] in head; }
    } else {
      assert r in rows[1..];
      WholeHas(rows[1..], files, r);
      assert forall q | q in head :: q.id == rows[0].id;
    }
  }

  lemma {:induction false} WholeIds(rows: seq<Row>, files: Files, id: Id)
    requires forall q | q in rows :: q.id != id
    ensures forall q | q in Whole(rows, files) :: q.id != id
  {
    hide Matched, IsAws, Done;
    if rows != [] {
      assert rows[0] in rows;
      WholeIds(rows[1..], files, id);
      DoneRow(rows[0], files);
      var head, rest := if IsAws(rows[0]) then Done(rows[0], files) else [rows[0]], Whole(rows[1..], files);
      assert forall q :: q in head + rest <==> q in head || q in rest;
    }
  }

  lemma {:induction false} SameWhole(rows: seq<Row>, files: Files)
    requires forall r | r in rows && IsAws(r) :: Matched(r, files) == Matched(r, AllRead(files))
    ensures Whole(rows, files) == Whole(rows, AllRead(files))
  {
    hide Matched, IsAws, Done;
    if rows != [] {
      assert rows[0] in rows;
      DoneRow(rows[0], files);
      SameWhole(rows[1..], files);
    }
  }

  lemma {:induction false} AwsRowsAre(rows: seq<Row>)
    ensures forall r :: r in AwsRows(rows) <==> r in rows && IsAws(r)
  {
    hide IsAws;
    if rows != [] {
      AwsRowsAre(rows[1..]);
      assert forall r :: r in rows <==> r == rows[0] || r in rows[1..];
    }
  }

  /** A binding in the database. */
  ghost predicate IsBound(db: Db, id: Id) {
    (exists c :: c in db.connections && db.connections[c] == Some(id)) || (exists p :: p in db.params && db.params[p] == id)
  }

  /** Two migrations one after another, and one: the bindings are the same exactly if
      they lead to the same. */
  lemma {:induction false} TwoLegs(db: Db, first: seq<Row>, f: Files, again: seq<Row>, g: Files, todo: seq<Row>,
          h: Files)
    ensures var s, t := MigrateRows(MigrateRows(db, first, f), again, g), MigrateRows(db, todo, h);
            s.connections == t.connections && s.params == t.params
            <==> forall id | IsBound(db, id) :: Follow(Follow(id, first, f), again, g) == Follow(id, todo, h)
  {
    hide MigrateRows, Follow;
    var mid := MigrateRows(db, first, f);
    BindingsFollow(db, first, f);
    BindingsFollow(mid, again, g);
    BindingsFollow(db, todo, h);
    var s, t := MigrateRows(mid, again, g), MigrateRows(db, todo, h);
    if s.connections == t.connections && s.params == t.params {
      forall id | IsBound(db, id) ensures Follow(Follow(id, first, f), again, g) == Follow(id, todo, h) {
        if c :| c in db.connections && db.connections[c] == Some(id) {
          assert s.connections[c] == t.connections[c];
        } else {
          var p :| p in db.params && db.params[p] == id;
          assert s.params[p] == t.params[p];
        }
      }
    }
    if forall id | IsBound(db, id) :: Follow(Follow(id, first, f), again, g) == Follow(id, todo, h) {
      forall c | c in db.connections ensures s.connections[c] == t.connections[c] {
        if db.connections[c].Some? { assert IsBound(db, db.connections[c].value); }
      }
      forall p | p in db.params ensures s.params[p] == t.params[p] {
        assert IsBound(db, db.params[p]);
      }
    }
  }

  lemma {:induction false} NoLeg(db: Db, files: Files)
    ensures MigrateRows(db, [], files) == db && forall id :: Follow(id, [], files) == id
  {
  }

  /** A run in which some rows cannot be read ends where it would with all rows read
      exactly if each row is matched as if it were read, and each binding leads to
      where it would. */
  lemma {:induction false} UnreadMakesNoDifferenceIff(db: Db, files: Files)
    requires UniqueIds(db.rows) && !db.marker
    ensures var todo, read := AwsRows(db.rows), AllRead(files);
            Run(db, files, None) == Run(db, read, None)
            <==> && (forall r | r in todo :: Matched(r, files) == Matched(r, read))
                 && (forall id | IsBound(db, id) :: Follow(id, todo, files) == Follow(id, todo, read))
  {
    hide MigrateRows, AwsRows, UniqueIds, Follow, IsBound, Matched, After, Whole, IsAws;
    var todo, read := AwsRows(db.rows), AllRead(files);
    assert todo[..|todo|] == todo;
    MigratedRows(db, |todo|, files);
    MigratedRows(db, |todo|, read);
    AfterIsWhole(db.rows, files);
    AfterIsWhole(db.rows, read);
    NoLeg(db, files);
    TwoLegs(db, [], files, todo, files, todo, read);
    AwsRowsAre(db.rows);
    if forall r | r in todo :: Matched(r, files) == Matched(r, read) {
      SameWhole(db.rows, files);
    }
    if Whole(db.rows, files) == Whole(db.rows, read) {
      forall r | r in todo ensures Matched(r, files) == Matched(r, read) {
        WholeHas(db.rows, files, r);
        WholeHas(db.rows, read, r);
      }
    }
  }

  /** A row that is rebound alike, read or not, or to which nothing is bound. */
  ghost predicate Harmless(db: Db, r: Row, files: Files) {
    var read := AllRead(files);
    && Matched(r, files) == Matched(r, read)
    && (Matched(r, files) && Matched(r, read) ==> NewId(r, files) == NewId(r, read) || !IsBound(db, r.id))
  }

  /** The same, row by row, where no derived id is the id of another row. */
  lemma {:induction false} UnreadIsHarmlessIff(db: Db, files: Files)
    requires UniqueIds(db.rows) && !db.marker
    requires DerivedIdsAreNew(AwsRows(db.rows), files) && DerivedIdsAreNew(AwsRows(db.rows), AllRead(files))
    ensures Run(db, files, None) == Run(db, AllRead(files), None)
        <==> forall r | r in AwsRows(db.rows) && r.id in files.unread :: Harmless(db, r, files)
  {
    hide Run, AwsRows, UniqueIds, DerivedIdsAreNew, Follow, IsBound, Matched, NewId;
    var todo, read := AwsRows(db.rows), AllRead(files);
    UnreadMakesNoDifferenceIff(db, files);
    AwsRowsUnique(db.rows);
    forall r | r in todo && r.id !in files.unread ensures Harmless(db, r, files) {
      ReadIsHarmless(db, r, files);
    }
    if forall r | r in todo :: Matched(r, files) == Matched(r, read) {
      forall id ensures Follow(id, todo, files) == Follow(id, todo, read)
                    <==> forall r | r in todo && Matched(r, files) && r.id == id :: NewId(r, files) == NewId(r, read)
      {
        SameLead(id, todo, files);
      }
    }
  }

  lemma {:induction false} ReadIsHarmless(db: Db, r: Row, files: Files)
    requires r.id !in files.unread
    ensures Harmless(db, r, files)
  {
    hide Trim, Lower, IsBound;
  }

  lemma {:induction false} SameLead(id: Id, todo: seq<Row>, files: Files)
    requires UniqueIds(todo) && DerivedIdsAreNew(todo, files) && DerivedIdsAreNew(todo, AllRead(files))
    requires forall r | r in todo :: Matched(r, files) == Matched(r, AllRead(files))
    ensures Follow(id, todo, files) == Follow(id, todo, AllRead(files))
        <==> forall r | r in todo && Matched(r, files) && r.id == id :: NewId(r, files) == NewId(r, AllRead(files))
  {
    hide Matched, NewId, Follow, DerivedIdsAreNew;
    if r :| r in todo && Matched(r, files) && r.id == id {
      MatchedMoves(r, todo, files);
      MatchedMoves(r, todo, AllRead(files));
      forall q | q in todo && q.id == id ensures q == r { SameRow(todo, q, r); }
    } else {
      UnmatchedStays(id, todo, files);
      UnmatchedStays(id, todo, AllRead(files));
    }
  }

  lemma {:induction false} SameRow(rows: seq<Row>, q: Row, r: Row)
    requires UniqueIds(rows) && q in rows && r in rows && q.id == r.id
    ensures q == r
  {
    var i :| 0 <= i < |rows| && rows[i] == q;
    var j :| 0 <= j < |rows| && rows[j] == r;
  }

  // ---------------------------------------------------------------------
  // A restart reads the rows again
  // ---------------------------------------------------------------------

  predicate SameButMark(q: Row, r: Row) {
    q == r.(dangling := q.dangling)
  }

  /** The rows a restart still finds: those that were not rebound. */
  ghost predicate IsLeft(r: Row, todo: seq<Row>, n: nat, files: Files)
    requires n <= |todo|
  {
    r in todo && (r in todo[..n] ==> !Matched(r, files))
  }

  lemma {:induction false} DoneFrom(xs: seq<Row>, files: Files, q: Row) returns (r: Row)
    requires q in AllDone(xs, files)
    ensures r in xs && !Matched(r, files) && SameButMark(q, r)
  {
    hide Matched, OriginOf;
    if q in Done(xs[0], files) {
      r := xs[0];
    } else {
      r := DoneFrom(xs[1..], files, q);
    }
  }

  lemma {:induction false} DoneAs(xs: seq<Row>, files: Files, r: Row) returns (q: Row)
    requires r in xs && !Matched(r, files)
    ensures q in AllDone(xs, files) && SameButMark(q, r)
  {
    hide Matched, OriginOf;
    if r == xs[0] {
      q := Done(r, files)[0];
    } else {
      q := DoneAs(xs[1..], files, r);
    }
  }

  /** A restart finds the rows that are left, but for their marks. */
  ghost predicate Finds(again: seq<Row>, todo: seq<Row>, n: nat, files: Files)
    requires n <= |todo|
  {
    && UniqueIds(again)
    && (forall q | q in again :: exists r :: IsLeft(r, todo, n, files) && SameButMark(q, r))
    && (forall r | IsLeft(r, todo, n, files) :: exists q :: q in again && SameButMark(q, r))
  }

  lemma {:induction false} FoundFrom(again: seq<Row>, todo: seq<Row>, n: nat, files: Files, read: Files,
          q: Row) returns (r: Row)
    requires n <= |todo| && Finds(again, todo, n, files) && q in again
    ensures IsLeft(r, todo, n, files) && q.id == r.id && Matched(q, read) == Matched(r, read)
    ensures Matched(r, read) ==> NewId(q, read) == NewId(r, read)
  {
    hide Matched, NewId, SameButMark, IsLeft;
    r :| IsLeft(r, todo, n, files) && SameButMark(q, r);
    SameMatchId(q, r, read);
  }

  lemma {:induction false} FoundAgain(again: seq<Row>, todo: seq<Row>, n: nat, files: Files, read: Files,
          r: Row) returns (q: Row)
    requires n <= |todo| && Finds(again, todo, n, files) && IsLeft(r, todo, n, files)
    ensures q in again && q.id == r.id && Matched(q, read) == Matched(r, read)
    ensures Matched(r, read) ==> NewId(q, read) == NewId(r, read)
  {
    hide Matched, NewId, SameButMark, IsLeft;
    q :| q in again && SameButMark(q, r);
    SameMatchId(q, r, read);
  }

  lemma {:induction false} TodoAgain(rows: seq<Row>, n: nat, files: Files)
    requires UniqueIds(rows) && n <= |AwsRows(rows)|
    ensures Finds(AwsRows(After(rows, n, files)), AwsRows(rows), n, files)
  {
    hide Matched, AwsRows, After, AllDone, SameButMark, UniqueIds, IsLeft;
    var todo, again := AwsRows(rows), AwsRows(After(rows, n, files));
    AfterUnique(rows, n, files);
    AwsRowsUnique(After(rows, n, files));
    AwsRowsAfter(rows, n, files);
    AwsRowsUnique(rows);
    forall q | q in again ensures exists r :: IsLeft(r, todo, n, files) && SameButMark(q, r) {
      var r := LeftOf(todo, n, files, q);
    }
    forall r | IsLeft(r, todo, n, files) ensures exists q :: q in again && SameButMark(q, r) {
      var q := LeftAs(todo, n, files, r);
    }
  }

  lemma {:induction false} LeftOf(todo: seq<Row>, n: nat, files: Files, q: Row) returns (r: Row)
    requires UniqueIds(todo) && n <= |todo| && q in AllDone(todo[..n], files) + todo[n..]
    ensures IsLeft(r, todo, n, files) && SameButMark(q, r)
  {
    hide Matched, AllDone, SameButMark, UniqueIds;
    if q in AllDone(todo[..n], files) {
      r := DoneFrom(todo[..n], files, q);
    } else {
      r := q;
      MarkedAsItIs(q);
      NotTwice(todo, n, q);
    }
  }

  lemma {:induction false} LeftAs(todo: seq<Row>, n: nat, files: Files, r: Row) returns (q: Row)
    requires n <= |todo| && IsLeft(r, todo, n, files)
    ensures q in AllDone(todo[..n], files) + todo[n..] && SameButMark(q, r)
  {
    hide Matched, AllDone, SameButMark;
    if r in todo[..n] {
      q := DoneAs(todo[..n], files, r);
    } else {
      q := r;
      MarkedAsItIs(r);
      assert todo == todo[..n] + todo[n..];
    }
  }

  lemma {:induction false} MarkedAsItIs(r: Row)
    ensures SameButMark(r, r)
  {
  }

  lemma {:induction false} NotTwice(todo: seq<Row>, n: nat, r: Row)
    requires UniqueIds(todo) && n <= |todo| && r in todo[n..]
    ensures r !in todo[..n]
  {
    var j :| 0 <= j < |todo[n..]| && todo[n..][j] == r;
    assert todo[n + j] == r;
  }

  lemma {:induction false} SameMatchId(q: Row, r: Row, files: Files)
    requires SameButMark(q, r)
    ensures q.id == r.id && Matched(q, files) == Matched(r, files)
    ensures Matched(r, files) ==> NewId(q, files) == NewId(r, files)
  {
    hide Trim, Lower;
  }

  /** Where a restart with all rows read leads. */
  lemma {:induction false} AgainStays(id: Id, todo: seq<Row>, again: seq<Row>, n: nat, files: Files, read: Files)
    requires n <= |todo| && Finds(again, todo, n, files)
    requires forall r | IsLeft(r, todo, n, files) && Matched(r, read) :: r.id != id
    ensures Follow(id, again, read) == id
  {
    hide Matched, NewId, Follow, Finds, IsLeft;
    forall q | q in again && Matched(q, read) ensures q.id != id {
      var r := FoundFrom(again, todo, n, files, read, q);
    }
    UnmatchedStays(id, again, read);
  }

  lemma {:induction false} AgainMoves(r: Row, todo: seq<Row>, again: seq<Row>, n: nat, files: Files, read: Files)
    requires n <= |todo| && Finds(again, todo, n, files) && DerivedIdsAreNew(todo, read)
    requires IsLeft(r, todo, n, files) && Matched(r, read)
    ensures Follow(r.id, again, read) == NewId(r, read)
  {
    hide Matched, NewId, Follow, IsLeft, DerivedIdsAreNew, UniqueIds, SameButMark;
    AgainIsNew(todo, again, n, files, read);
    var q := FoundAgain(again, todo, n, files, read, r);
    MatchedMoves(q, again, read);
  }

  lemma {:induction false} AgainIsNew(todo: seq<Row>, again: seq<Row>, n: nat, files: Files, read: Files)
    requires n <= |todo| && DerivedIdsAreNew(todo, read) && Finds(again, todo, n, files)
    ensures DerivedIdsAreNew(again, read)
  {
    hide Matched, NewId, Finds;
    forall a, b | a in again && b in again && Matched(a, read) && b.id != a.id ensures NewId(a, read) != b.id {
      var r := FoundFrom(again, todo, n, files, read, a);
      var q := FoundFrom(again, todo, n, files, read, b);
    }
  }

  /** A binding that is followed up to the stop, and then by the restart. */
  lemma {:induction false} RestartLeads(id: Id, todo: seq<Row>, again: seq<Row>, n: nat, files: Files, read: Files)
    requires UniqueIds(todo) && n <= |todo| && Finds(again, todo, n, files)
    requires DerivedIdsAreNew(todo, read) && DerivedIdsAreNew(todo, files)
    requires forall r | r in todo[..n] && Matched(r, files) :: Matched(r, read)
    ensures Follow(Follow(id, todo[..n], files), again, read) == Follow(id, todo, read)
        <==> forall r | r in todo[..n] && Matched(r, files) && r.id == id :: NewId(r, files) == NewId(r, read)
  {
    hide Matched, NewId, Follow, Finds, UniqueIds, DerivedIdsAreNew;
    assert forall r | r in todo[..n] :: r in todo;
    if r :| r in todo[..n] && Matched(r, files) && r.id == id {
      ReboundLeads(r, todo, again, n, files, read);
      MatchedMoves(r, todo, read);
      forall q | q in todo && q.id == id ensures q == r { SameRow(todo, q, r); }
    } else {
      UnmatchedStays(id, todo[..n], files);
      if r :| r in todo && Matched(r, read) && r.id == id {
        AgainMoves(r, todo, again, n, files, read);
        MatchedMoves(r, todo, read);
      } else {
        AgainStays(id, todo, again, n, files, read);
        UnmatchedStays(id, todo, read);
      }
    }
  }

  /** What was rebound before the stop stays where it is. */
  lemma {:induction false} ReboundLeads(r: Row, todo: seq<Row>, again: seq<Row>, n: nat, files: Files, read: Files)
    requires UniqueIds(todo) && n <= |todo| && Finds(again, todo, n, files) && DerivedIdsAreNew(todo, files)
    requires r in todo[..n] && Matched(r, files)
    ensures Follow(Follow(r.id, todo[..n], files), again, read) == NewId(r, files)
  {
    hide Matched, NewId, Follow, Finds;
    var first := todo[..n];
    assert forall q | q in first :: q in todo;
    MatchedMoves(r, first, files);
    forall q | IsLeft(q, todo, n, files) && Matched(q, read) ensures q.id != NewId(r, files) {
      if q.id == r.id { SameRow(todo, q, r); }
    }
    AgainStays(NewId(r, files), todo, again, n, files, read);
  }

  /** The table after the restart. */
  lemma {:induction false} WholeAfter(rows: seq<Row>, n: nat, files: Files)
    requires n <= |AwsRows(rows)|
    requires forall r | r in AwsRows(rows)[..n] && Matched(r, files) :: Matched(r, AllRead(files))
    ensures Whole(After(rows, n, files), AllRead(files)) == Whole(rows, AllRead(files))
    decreases |rows|
  {
    hide Matched, IsAws, Done, AwsRows, After, Whole;
    var read := AllRead(files);
    if n == 0 {
      AfterNone(rows, files);
    } else {
      NoAwsRows();
      var head, rest := rows[0], rows[1..];
      AwsRowsCons(rows);
      AfterCons(rows, n, files);
      WholeCons([head], rest, read);
      assert rows == [head] + rest;
      var todo, todo' := AwsRows(rows), AwsRows(rest);
      if !IsAws(head) {
        WholeAfter(rest, n, files);
        WholeCons([head], After(rest, n, files), read);
      } else {
        assert todo == [head] + todo' && todo[..n] == [head] + todo'[..n - 1];
        assert forall r | r in todo'[..n - 1] :: r in todo[..n];
        assert head in todo[..n];
        WholeAfter(rest, n - 1, files);
        WholeCons(Done(head, files), After(rest, n - 1, files), read);
        DoneAgain(head, files);
      }
    }
  }

  lemma {:induction false} WholeCons(a: seq<Row>, b: seq<Row>, files: Files)
    ensures Whole(a + b, files) == Whole(a, files) + Whole(b, files)
  {
    hide IsAws, Done;
    if a == [] {
      assert a + b == b;
    } else {
      assert (a + b)[1..] == a[1..] + b;
      WholeCons(a[1..], b, files);
      ConcatAssoc(if IsAws(a[0]) then Done(a[0], files) else [a[0]], Whole(a[1..], files), Whole(b, files));
    }
  }

  /** A row that was left behind is done again as if it had been read at first. */
  lemma {:induction false} DoneAgain(row: Row, files: Files)
    requires IsAws(row) && (Matched(row, files) ==> Matched(row, AllRead(files)))
    ensures Whole(Done(row, files), AllRead(files)) == Whole([row], AllRead(files))
  {
    hide Matched;
    var read := AllRead(files);
    SameMatch(row, read);
    assert [row][1..] == [];
    if !Matched(row, files) {
      var d := Done(row, files);
      assert d[1..] == [];
      assert IsAws(d[0]);
    }
  }

  /** A row that was rebound by mistake does not come back. */
  lemma {:induction false} LostRow(rows: seq<Row>, n: nat, files: Files, r: Row)
    requires UniqueIds(rows) && n <= |AwsRows(rows)| && r in AwsRows(rows)[..n] && Matched(r, files) && !Matched(r, AllRead(files))
    ensures Whole(After(rows, n, files), AllRead(files)) != Whole(rows, AllRead(files))
  {
    hide Matched, AwsRows, After, Whole, IsAws, SameButMark, UniqueIds, Finds;
    var read, todo, mid := AllRead(files), AwsRows(rows), After(rows, n, files);
    assert r in todo;
    AwsRowsAre(rows);
    WholeHas(rows, read, r);
    AwsRowsUnique(rows);
    TodoAgain(rows, n, files);
    AwsRowsAre(mid);
    AfterFrom(rows, n, files);
    forall q | q in mid ensures q.id != r.id {
      if q.id == r.id {
        var p :| p in rows && SameButMark(q, p);
        SameKind(q, p);
        SameRow(rows, p, r);
        var p' := FoundFrom(AwsRows(mid), todo, n, files, files, q);
        SameRow(todo, p', r);
      }
    }
    WholeIds(mid, read, r.id);
  }

  lemma {:induction false} SameKind(q: Row, p: Row)
    requires SameButMark(q, p)
    ensures q.id == p.id && IsAws(q) == IsAws(p)
  {
  }

  lemma {:induction false} AfterFrom(rows: seq<Row>, n: nat, files: Files)
    ensures forall q | q in After(rows, n, files) :: exists p :: p in rows && SameButMark(q, p)
  {
    hide Matched, IsAws, OriginOf;
    if rows == [] || n == 0 {
      forall q | q in rows ensures SameButMark(q, q) {}
    } else {
      var m := if IsAws(rows[0]) then n - 1 else n;
      AfterFrom(rows[1..], m, files);
      var head, rest := if IsAws(rows[0]) then Done(rows[0], files) else [rows[0]], After(rows[1..], m, files);
      assert forall q :: q in head + rest <==> q in head || q in rest;
      assert forall r | r in rows[1..] :: r in rows;
      assert rows[0] in rows;
      forall q | q in head ensures SameButMark(q, rows[0]) {}
    }
  }

  /** A run in which some rows cannot be read, stopped after any number of rows and
      started again with all rows read, ends where an undisturbed run ends exactly if
      no row was rebound that is not to be, and each was rebound to its own id or had
      nothing bound to it. A row that was marked for want of reading is repaired. */
  lemma {:induction false} RestartRepairsIff(db: Db, files: Files, k: nat)
    requires UniqueIds(db.rows) && !db.marker
    requires DerivedIdsAreNew(AwsRows(db.rows), files) && DerivedIdsAreNew(AwsRows(db.rows), AllRead(files))
    ensures var todo, read := AwsRows(db.rows), AllRead(files);
            var n := if k <= |todo| then k else |todo|;
            Run(Run(db, files, Some(k)), read, None) == Run(db, read, None)
            <==> forall r | r in todo[..n] && Matched(r, files) ::
                   Matched(r, read) && (NewId(r, files) == NewId(r, read) || !IsBound(db, r.id))
  {
    hide MigrateRows, AwsRows, UniqueIds, DerivedIdsAreNew, Follow, IsBound, Matched, NewId, After, Whole, IsLeft,
         SameButMark, Finds;
    var todo, read := AwsRows(db.rows), AllRead(files);
    var n := if k <= |todo| then k else |todo|;
    assert todo[..|todo|] == todo;
    var mid := MigrateRows(db, todo[..n], files);
    MigratedRows(db, n, files);
    AfterUnique(db.rows, n, files);
    var again := AwsRows(mid.rows);
    assert again[..|again|] == again;
    MigratedRows(mid, |again|, read);
    MigratedRows(db, |todo|, read);
    AfterIsWhole(mid.rows, read);
    AfterIsWhole(db.rows, read);
    if forall r | r in todo[..n] && Matched(r, files) :: Matched(r, read) {
      WholeAfter(db.rows, n, files);
      TodoAgain(db.rows, n, files);
      AwsRowsUnique(db.rows);
      forall id
        ensures Follow(Follow(id, todo[..n], files), again, read) == Follow(id, todo, read)
            <==> forall r | r in todo[..n] && Matched(r, files) && r.id == id :: NewId(r, files) == NewId(r, read)
      {
        RestartLeads(id, todo, again, n, files, read);
      }
      TwoLegs(db, todo[..n], files, again, read, todo, read);
    } else {
      var r :| r in todo[..n] && Matched(r, files) && !Matched(r, read);
      LostRow(db.rows, n, files, r);
    }
  }

  // ---------------------------------------------------------------------
  // A row that cannot be read once
  // ---------------------------------------------------------------------

  /** An imported profile: its display name is decorated. */
  const IMPORTED := Row("o", "AWS dev", "aws-sso", Some("dev"), None)

  /** Its fields cannot be read: the run completes, marks it, and leaves the connection
      on the old id for good; with the fields read it would have been rebound. */
  lemma {:induction false} UnreadRowIsLost(derive: (string, string) -> Id, hasSecret: Id -> bool, later: Files,
          stop: Option<nat>)
    ensures var db := Db([IMPORTED], map[0 := Some("o")], map[], false);
            var files := Files(map["dev" := "dev"], derive, hasSecret, {"o"});
            var end := Run(db, files, None);
            && end == db.(rows := [IMPORTED.(dangling := Some(FileGone))], marker := true)
            && Run(end, later, stop) == end
            && Run(db, AllRead(files), None) == Db([], map[0 := Some(derive("aws-sso", "dev"))], map[], true)
  {
    hide Matched, NewId, IsAws, Run;
    var db := Db([IMPORTED], map[0 := Some("o")], map[], false);
    var files := Files(map["dev" := "dev"], derive, hasSecret, {"o"});
    ImportedNames(files);
    var todo := AwsRows(db.rows);
    assert [IMPORTED][1..] == [];
    assert todo == [IMPORTED] + AwsRows([]) == [IMPORTED];
    assert todo[1..] == [];
    OneRow(db, files);
    OneRow(db, AllRead(files));
    LaterRunsChangeNothing(db, files, later, stop);
  }

  lemma {:induction false} ImportedNames(files: Files)
    requires files.canonical == map["dev" := "dev"] && files.unread == {"o"}
    ensures IsAws(IMPORTED) && !Matched(IMPORTED, files) && Matched(IMPORTED, AllRead(files))
    ensures NewId(IMPORTED, AllRead(files)) == files.derive("aws-sso", "dev") && OriginOf(IMPORTED, files) == FileGone
  {
    hide Trim;
    TrimOfTrimmed("AWS dev");
    TrimOfTrimmed("dev");
    assert |Lower("AWS dev")| == 7 && |"dev"| == 3;
    assert Lower("dev") == "dev";
    assert AWS_PROVIDER_IDS[0] == "aws-sso";
    assert |"aws-sso"| == 7 && |"aws-static-credentials"| == 22;
  }

  lemma {:induction false} OneRow(db: Db, files: Files)
    requires db == Db([IMPORTED], map[0 := Some("o")], map[], false) && IsAws(IMPORTED)
    ensures Run(db, files, None)
         == if Matched(IMPORTED, files) then Db([], map[0 := Some(NewId(IMPORTED, files))], map[], true)
            else db.(rows := [IMPORTED.(dangling := Some(OriginOf(IMPORTED, files)))], marker := true)
  {
    hide Matched, NewId, IsAws, OriginOf;
    var one := [IMPORTED];
    assert one[1..] == [];
    assert AwsRows(one) == [IMPORTED] + AwsRows([]);
    assert MigrateRows(db, one, files) == MigrateRows(Migrate(db, IMPORTED, files), [], files);
    OwnRow(IMPORTED, files);
    if Matched(IMPORTED, files) {
      assert RebindAll(db.connections, "o", NewId(IMPORTED, files)) == map[0 := Some(NewId(IMPORTED, files))];
      assert RebindParams(db.params, "o", NewId(IMPORTED, files)) == map[];
    }
  }
}
