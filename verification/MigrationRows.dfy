/** What becomes of the stored rows, which section a row stands for, and the id it is
    given. */
module MigrationRows {
  import opened Text
  import opened Places
  import opened SectionNames
  import opened Migration

  // ---------------------------------------------------------------------
  // The table after a run
  // ---------------------------------------------------------------------

  /** A row that is left: an AWS row is marked, by where its secret may still be. */
  ghost function Left(row: Row, files: Files): Row {
    if !IsAws(row) then row
    else if row.provider == "aws-static-credentials" && files.hasSecret(row.id) then row.(dangling := Some(KeyringOnly))
    else row.(dangling := Some(FileGone))
  }

  ghost predicate Goes(row: Row, files: Files) {
    IsAws(row) && Matched(row, files)
  }

  /** The rows at these places are left, in their order. */
  ghost predicate Leaves(rows: seq<Row>, after: seq<Row>, files: Files, at: seq<nat>) {
    && Increasing(at) && |after| == |at|
    && (forall i: nat :: i in at <==> i < |rows| && !Goes(rows[i], files))
    && (forall k | 0 <= k < |at| :: at[k] < |rows| && after[k] == Left(rows[at[k]], files))
  }

  lemma {:induction false} LeavesNone(files: Files)
    ensures Leaves([], [], files, [])
  {
  }

  function Shifted(at: seq<nat>): (up: seq<nat>)
    ensures |up| == |at| && forall k | 0 <= k < |at| :: up[k] == at[k] + 1
  {
    seq(|at|, k requires 0 <= k < |at| => at[k] + 1)
  }

  lemma {:induction false} ShiftedIn(at: seq<nat>, i: nat)
    ensures i in Shifted(at) <==> i > 0 && i - 1 in at
  {
    var up := Shifted(at);
    if i > 0 && i - 1 in at {
      var k :| 0 <= k < |at| && at[k] == i - 1;
      assert up[k] == i;
    }
  }

  lemma {:induction false} ShiftedUp(at: seq<nat>)
    requires Increasing(at)
    ensures Increasing(Shifted(at)) && Increasing([0] + Shifted(at))
  {
  }

  lemma {:induction false} GoneFirst(row: Row, rest: seq<Row>, after: seq<Row>, files: Files, at: seq<nat>)
    requires Leaves(rest, after, files, at) && Goes(row, files)
    ensures Leaves([row] + rest, after, files, Shifted(at))
  {
    hide Goes, Left, Increasing, Shifted;
    var rows, up := [row] + rest, Shifted(at);
    ShiftedUp(at);
    forall i: nat ensures i in up <==> i < |rows| && !Goes(rows[i], files) {
      ShiftedIn(at, i);
      if 0 < i < |rows| { assert rows[i] == rest[i - 1]; }
    }
    forall k | 0 <= k < |up| ensures up[k] < |rows| && after[k] == Left(rows[up[k]], files) { assert up[k] == at[k] + 1; }
  }

  lemma {:induction false} LeftFirst(row: Row, rest: seq<Row>, after: seq<Row>, files: Files, at: seq<nat>)
    requires Leaves(rest, after, files, at) && !Goes(row, files)
    ensures Leaves([row] + rest, [Left(row, files)] + after, files, [0] + Shifted(at))
  {
    hide Goes, Left, Increasing, Shifted;
    var rows, up := [row] + rest, [0] + Shifted(at);
    ShiftedUp(at);
    forall i: nat ensures i in up <==> i < |rows| && !Goes(rows[i], files) {
      ShiftedIn(at, i);
      if 0 < i < |rows| { assert rows[i] == rest[i - 1]; }
    }
    forall k | 0 <= k < |up| ensures up[k] < |rows| && ([Left(row, files)] + after)[k] == Left(rows[up[k]], files) {
      if k > 0 { assert up[k] == at[k - 1] + 1; }
    }
  }

  lemma {:induction false} AfterAll(rows: seq<Row>, k: nat, files: Files) returns (at: seq<nat>)
    requires k >= |AwsRows(rows)|
    ensures Leaves(rows, After(rows, k, files), files, at)
    decreases |rows|
  {
    hide IsAws, Matched, Leaves, AwsRows, After;
    if rows == [] {
      at := [];
      NoneAfter(k, files);
      LeavesNone(files);
    } else {
      var row, rest := rows[0], rows[1..];
      assert rows == [row] + rest;
      AwsRowsCons(rows);
      AfterCons(rows, k, files);
      at := AfterAll(rest, if IsAws(row) then k - 1 else k, files);
      var after := After(rest, if IsAws(row) then k - 1 else k, files);
      assert [] + after == after;
      if Goes(row, files) {
        GoneFirst(row, rest, after, files, at);
        at := Shifted(at);
      } else {
        LeftFirst(row, rest, after, files, at);
        at := [0] + Shifted(at);
      }
    }
  }

  lemma {:induction false} NoneAfter(k: nat, files: Files)
    ensures After([], k, files) == []
  {
  }

  /** After a completed run the AWS rows whose section is in the files are gone; every
      other row is there, in its place, the AWS rows among them marked. */
  lemma {:induction false} RowsSettle(db: Db, files: Files) returns (at: seq<nat>)
    requires UniqueIds(db.rows) && !db.marker
    ensures var end := Run(db, files, None);
            end.marker && Leaves(db.rows, end.rows, files, at)
  {
    hide UniqueIds, AwsRows, After, Leaves, MigrateRows;
    var todo := AwsRows(db.rows);
    MigratedRows(db, |todo|, files);
    assert todo[..|todo|] == todo;
    at := AfterAll(db.rows, |todo|, files);
  }

  // ---------------------------------------------------------------------
  // The section a row stands for
  // ---------------------------------------------------------------------

  /** A row stands for the section its `profile_name` names, or, if that is missing,
      blank or cannot be read, its display name; in any case of letters. */
  predicate StandsFor(row: Row, unread: bool, section: string) {
    if !unread && row.profileName.Some? && Trim(row.profileName.value) != ""
    then EqIgnoreCase(Trim(row.profileName.value), section)
    else EqIgnoreCase(Trim(row.name), section)
  }

  /** The provider that a section of the files is reflected as. */
  predicate ReflectsAs(provider: string, reflected: string) {
    reflected == if provider == "aws-static-credentials" then "aws-shared-credentials" else provider
  }

  /** A row is matched exactly if it stands for a section of the files, and is given
      the id derived from that section, as the files spell it. */
  lemma {:induction false} MatchedIff(row: Row, files: Files, names: seq<string>)
    requires files.canonical == Canonical(names)
    ensures var unread := row.id in files.unread;
            && (Matched(row, files) <==> exists n | n in names :: StandsFor(row, unread, n))
            && (Matched(row, files) ==> exists n, p | n in names ::
                  StandsFor(row, unread, n) && ReflectsAs(row.provider, p) && NewId(row, files) == files.derive(p, n))
  {
    hide Canonical, Trim, Lower;
    CanonicalHolds(names);
    var unread := row.id in files.unread;
    var spelled := AwsName(row, files);
    assert forall n :: StandsFor(row, unread, n) <==> Lower(spelled) == Lower(n);
    if Matched(row, files) {
      var n, p := files.canonical[Lower(spelled)], ReflectedProvider(row.provider);
      assert n in names && StandsFor(row, unread, n) && ReflectsAs(row.provider, p) && NewId(row, files) == files.derive(p, n);
    }
  }
}
