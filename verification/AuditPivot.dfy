/** Pivoting counts per time bucket and group into a table with one row per bucket
    and one column per group. */
module AuditPivot {

  datatype Entry = Entry(bucket: int, group: string, count: int)

  datatype Table = Table(buckets: seq<int>, labels: seq<string>, cells: seq<seq<int>>)

  // ---------------------------------------------------------------------
  // Ordered keys
  // ---------------------------------------------------------------------

  predicate IntLess(a: int, b: int) { a < b }

  /** The order of texts by their code points. */
  predicate TextLess(a: string, b: string) {
    b != "" && (a == "" || a[0] < b[0] || (a[0] == b[0] && TextLess(a[1..], b[1..])))
  }

  ghost predicate TotalOrder<T(!new)>(less: (T, T) -> bool) {
    && (forall a, b :: less(a, b) ==> !less(b, a) && a != b)
    && (forall a, b :: less(a, b) || less(b, a) || a == b)
    && (forall a, b, c :: less(a, b) && less(b, c) ==> less(a, c))
  }

  lemma {:induction false} IntLessTotal()
    ensures TotalOrder(IntLess)
  {
  }

  lemma {:induction false} TextLessAntisymmetric(a: string, b: string)
    requires TextLess(a, b)
    ensures !TextLess(b, a) && a != b
  {
    if a != "" && a[0] == b[0] { TextLessAntisymmetric(a[1..], b[1..]); }
  }

  lemma {:induction false} TextLessTrichotomy(a: string, b: string)
    ensures TextLess(a, b) || TextLess(b, a) || a == b
  {
    if a != "" && b != "" && a[0] == b[0] {
      TextLessTrichotomy(a[1..], b[1..]);
      SameTail(a, b);
    }
  }

  lemma {:induction false} SameTail(a: string, b: string)
    requires a != "" && b != "" && a[0] == b[0]
    ensures a[1..] == b[1..] ==> a == b
  {
    if a[1..] == b[1..] {
      assert a == [a[0]] + a[1..] && b == [b[0]] + b[1..];
    }
  }

  lemma {:induction false} TextLessTransitive(a: string, b: string, c: string)
    requires TextLess(a, b) && TextLess(b, c)
    ensures TextLess(a, c)
  {
    if a != "" && a[0] == b[0] && b[0] == c[0] { TextLessTransitive(a[1..], b[1..], c[1..]); }
  }

  lemma {:induction false} TextLessTotal()
    ensures TotalOrder(TextLess)
  {
    hide TextLess;
    forall a, b | TextLess(a, b) ensures !TextLess(b, a) && a != b { TextLessAntisymmetric(a, b); }
    forall a, b ensures TextLess(a, b) || TextLess(b, a) || a == b { TextLessTrichotomy(a, b); }
    forall a, b, c | TextLess(a, b) && TextLess(b, c) ensures TextLess(a, c) { TextLessTransitive(a, b, c); }
  }

  ghost predicate Ascending<T>(keys: seq<T>, less: (T, T) -> bool) {
    forall i, j | 0 <= i < j < |keys| :: less(keys[i], keys[j])
  }

  /** A key added to an ordered set of keys. */
  function Insert<T(==)>(keys: seq<T>, key: T, less: (T, T) -> bool): seq<T> {
    if keys == [] then [key]
    else if keys[0] == key then keys
    else if less(key, keys[0]) then [key] + keys
    else [keys[0]] + Insert(keys[1..], key, less)
  }

  lemma {:induction false} InsertHolds<T>(keys: seq<T>, key: T, less: (T, T) -> bool)
    ensures forall x :: x in Insert(keys, key, less) <==> x in keys || x == key
  {
    if keys != [] {
      InsertHolds(keys[1..], key, less);
      assert forall x :: x in keys <==> x == keys[0] || x in keys[1..];
      var rest := Insert(keys[1..], key, less);
      assert forall x :: x in [keys[0]] + rest <==> x == keys[0] || x in rest;
      assert forall x :: x in [key] + keys <==> x == key || x in keys;
    }
  }

  lemma {:induction false} AscendingCons<T>(x: T, rest: seq<T>, less: (T, T) -> bool)
    requires Ascending(rest, less) && forall y | y in rest :: less(x, y)
    ensures Ascending([x] + rest, less)
  {
  }

  lemma {:induction false} AscendingHead<T>(keys: seq<T>, less: (T, T) -> bool)
    requires Ascending(keys, less) && keys != []
    ensures Ascending(keys[1..], less) && forall y | y in keys[1..] :: less(keys[0], y)
  {
  }

  lemma {:induction false} InsertAscending<T(!new)>(keys: seq<T>, key: T, less: (T, T) -> bool)
    requires TotalOrder(less) && Ascending(keys, less)
    ensures Ascending(Insert(keys, key, less), less)
  {
    hide Ascending;
    if keys == [] {
      AscendingOne(key, less);
    } else {
      AscendingHead(keys, less);
      InsertAscending(keys[1..], key, less);
      InsertHolds(keys[1..], key, less);
      if keys[0] != key {
        if less(key, keys[0]) {
          assert forall y | y in keys :: y == keys[0] || y in keys[1..];
          AscendingCons(key, keys, less);
        } else {
          AscendingCons(keys[0], Insert(keys[1..], key, less), less);
        }
      }
    }
  }

  lemma {:induction false} AscendingOne<T>(key: T, less: (T, T) -> bool)
    ensures Ascending([key], less)
  {
  }

  lemma {:induction false} HasFirst<T>(keys: seq<T>)
    ensures keys != [] ==> exists x :: x in keys
  {
    if keys != [] { assert keys[0] in keys; }
  }

  /** Ordered lists of the same keys are the same. */
  lemma {:induction false} AscendingUnique<T(!new)>(a: seq<T>, b: seq<T>, less: (T, T) -> bool)
    requires TotalOrder(less) && Ascending(a, less) && Ascending(b, less)
    requires forall x :: x in a <==> x in b
    ensures a == b
    decreases |a|
  {
    hide Ascending;
    if a == [] {
      HasFirst(b);
    } else {
      assert a[0] in b;
      AscendingHead(a, less);
      AscendingHead(b, less);
      assert forall x :: x in a <==> x == a[0] || x in a[1..];
      assert forall x :: x in b <==> x == b[0] || x in b[1..];
      assert a[0] == b[0];
      AscendingUnique(a[1..], b[1..], less);
      assert a == [a[0]] + a[1..] && b == [b[0]] + b[1..];
    }
  }

  // ---------------------------------------------------------------------
  // The table
  // ---------------------------------------------------------------------

  /** The last count given for a pair, or zero. */
  function Last(raw: seq<Entry>, bucket: int, group: string): int {
    if raw == [] then 0
    else if raw[|raw| - 1].bucket == bucket && raw[|raw| - 1].group == group then raw[|raw| - 1].count
    else Last(raw[..|raw| - 1], bucket, group)
  }

  predicate HasBucket(raw: seq<Entry>, bucket: int) {
    exists e | e in raw :: e.bucket == bucket
  }

  predicate HasGroup(raw: seq<Entry>, group: string) {
    exists e | e in raw :: e.group == group
  }

  /** The table a list of counts stands for. */
  ghost predicate IsPivot(raw: seq<Entry>, t: Table) {
    && Ascending(t.buckets, IntLess) && Ascending(t.labels, TextLess)
    && (forall b :: b in t.buckets <==> HasBucket(raw, b))
    && (forall l :: l in t.labels <==> HasGroup(raw, l))
    && |t.cells| == |t.buckets|
    && forall i | 0 <= i < |t.buckets| ::
         && |t.cells[i]| == |t.labels|
         && forall j | 0 <= j < |t.labels| :: t.cells[i][j] == Last(raw, t.buckets[i], t.labels[j])
  }

  /** The specification leaves no choice. */
  lemma {:induction false} PivotUnique(raw: seq<Entry>, t: Table, u: Table)
    requires IsPivot(raw, t) && IsPivot(raw, u)
    ensures t == u
  {
    hide Ascending, TotalOrder, TextLess, Last;
    IntLessTotal();
    TextLessTotal();
    forall b: int ensures b in t.buckets <==> b in u.buckets {
      assert b in t.buckets <==> HasBucket(raw, b);
    }
    AscendingUnique(t.buckets, u.buckets, IntLess);
    AscendingUnique(t.labels, u.labels, TextLess);
    forall i | 0 <= i < |t.buckets| ensures t.cells[i] == u.cells[i] {
      forall j | 0 <= j < |t.labels| ensures t.cells[i][j] == u.cells[i][j] {
      }
    }
  }

  type Counts = map<int, map<string, int>>

  function Cell(counts: Counts, bucket: int, group: string): int {
    if bucket in counts && group in counts[bucket] then counts[bucket][group] else 0
  }

  function Count(counts: Counts, e: Entry): Counts {
    counts[e.bucket := (if e.bucket in counts then counts[e.bucket] else map[])[e.group := e.count]]
  }

  lemma {:induction false} CountedCell(counts: Counts, e: Entry, bucket: int, group: string)
    ensures Cell(Count(counts, e), bucket, group) == if e.bucket == bucket && e.group == group then e.count else Cell(counts, bucket, group)
  {
  }

  /** What the first loop has gathered from `raw`. */
  ghost predicate Gathered(raw: seq<Entry>, buckets: seq<int>, labels: seq<string>, counts: Counts) {
    && Ascending(buckets, IntLess) && Ascending(labels, TextLess)
    && (forall b :: b in buckets <==> HasBucket(raw, b))
    && (forall l :: l in labels <==> HasGroup(raw, l))
    && forall b, l :: Cell(counts, b, l) == Last(raw, b, l)
  }

  lemma {:induction false} GatherOne(raw: seq<Entry>, buckets: seq<int>, labels: seq<string>, counts: Counts,
          e: Entry)
    requires Gathered(raw, buckets, labels, counts)
    ensures Gathered(raw + [e], Insert(buckets, e.bucket, IntLess), Insert(labels, e.group, TextLess), Count(counts, e))
  {
    hide Ascending, TotalOrder, TextLess, Insert, Cell, Count;
    IntLessTotal();
    TextLessTotal();
    InsertAscending(buckets, e.bucket, IntLess);
    InsertAscending(labels, e.group, TextLess);
    InsertHolds(buckets, e.bucket, IntLess);
    InsertHolds(labels, e.group, TextLess);
    InRawSnoc(raw, e);
    forall b, l ensures Cell(Count(counts, e), b, l) == Last(raw + [e], b, l) {
      CountedCell(counts, e, b, l);
      assert (raw + [e])[..|raw|] == raw;
    }
  }

  lemma {:induction false} InRawSnoc(raw: seq<Entry>, e: Entry)
    ensures forall b :: HasBucket(raw + [e], b) <==> HasBucket(raw, b) || b == e.bucket
    ensures forall l :: HasGroup(raw + [e], l) <==> HasGroup(raw, l) || l == e.group
  {
    assert forall x :: x in raw + [e] <==> x in raw || x == e;
    assert e in raw + [e];
  }

  /** One row: a cell per group. */
  method BuildRow(counts: map<string, int>, labels: seq<string>) returns (row: seq<int>)
    ensures |row| == |labels|
    ensures forall j | 0 <= j < |labels| :: row[j] == if labels[j] in counts then counts[labels[j]] else 0
  {
    row := [];
    var j := 0;
    while j < |labels|
      invariant j <= |labels| && |row| == j
      invariant forall k | 0 <= k < j :: row[k] == if labels[k] in counts then counts[labels[k]] else 0
    {
      row := row + [if labels[j] in counts then counts[labels[j]] else 0];
      j := j + 1;
    }
  }

  /** `pivot_long_to_wide`. */
  method Pivot(raw: seq<Entry>) returns (t: Table)
    ensures IsPivot(raw, t)
  {
    hide Ascending, TextLess, Insert, Last, Count;
    var labels: seq<string>, buckets: seq<int>, counts: Counts := [], [], map[];
    NothingGathered();
    assert raw[..0] == [];
    if raw == [] {
      return Table([], [], []);
    }
    var k := 0;
    while k < |raw|
      invariant k <= |raw|
      invariant Gathered(raw[..k], buckets, labels, counts)
    {
      GatherOne(raw[..k], buckets, labels, counts, raw[k]);
      assert raw[..k] + [raw[k]] == raw[..k + 1];
      labels := Insert(labels, raw[k].group, TextLess);
      buckets := Insert(buckets, raw[k].bucket, IntLess);
      counts := Count(counts, raw[k]);
      k := k + 1;
    }
    assert raw[..k] == raw;
    var cells := [];
    var i := 0;
    while i < |buckets|
      invariant i <= |buckets| && |cells| == i
      invariant forall m | 0 <= m < i ::
          |cells[m]| == |labels| && forall j | 0 <= j < |labels| :: cells[m][j] == Cell(counts, buckets[m], labels[j])
    {
      var row := BuildRow(if buckets[i] in counts then counts[buckets[i]] else map[], labels);
      cells := cells + [row];
      i := i + 1;
    }
    t := Table(buckets, labels, cells);
  }

  lemma {:induction false} NothingGathered()
    ensures Gathered([], [], [], map[])
  {
  }

  // ---------------------------------------------------------------------
  // Sums and order
  // ---------------------------------------------------------------------

  ghost predicate DistinctPairs(raw: seq<Entry>) {
    forall i, j | 0 <= i < j < |raw| :: raw[i].bucket != raw[j].bucket || raw[i].group != raw[j].group
  }

  function Total(raw: seq<Entry>): int {
    if raw == [] then 0 else Total(raw[..|raw| - 1]) + raw[|raw| - 1].count
  }

  function Sum(row: seq<int>): int {
    if row == [] then 0 else Sum(row[..|row| - 1]) + row[|row| - 1]
  }

  function CellSum(cells: seq<seq<int>>): int {
    if cells == [] then 0 else CellSum(cells[..|cells| - 1]) + Sum(cells[|cells| - 1])
  }

  /** The counts of one bucket, over the first `n` labels. */
  ghost function RowTotal(raw: seq<Entry>, bucket: int, labels: seq<string>): int {
    if labels == [] then 0 else RowTotal(raw, bucket, labels[..|labels| - 1]) + Last(raw, bucket, labels[|labels| - 1])
  }

  ghost function MatrixTotal(raw: seq<Entry>, buckets: seq<int>, labels: seq<string>): int {
    if buckets == [] then 0
    else MatrixTotal(raw, buckets[..|buckets| - 1], labels) + RowTotal(raw, buckets[|buckets| - 1], labels)
  }

  lemma {:induction false} LastAbsent(raw: seq<Entry>, bucket: int, group: string)
    requires forall e | e in raw :: e.bucket != bucket || e.group != group
    ensures Last(raw, bucket, group) == 0
  {
    if raw != [] {
      assert raw[|raw| - 1] in raw;
      LastAbsent(raw[..|raw| - 1], bucket, group);
    }
  }

  predicate Distinct<T(==)>(keys: seq<T>) {
    forall i, j | 0 <= i < j < |keys| :: keys[i] != keys[j]
  }

  /** A new pair adds its count to its own row once, and to no other row. */
  lemma {:induction false} RowTotalSnoc(raw: seq<Entry>, e: Entry, bucket: int, labels: seq<string>)
    requires Distinct(labels) && forall x | x in raw :: x.bucket != e.bucket || x.group != e.group
    ensures RowTotal(raw + [e], bucket, labels) ==
            RowTotal(raw, bucket, labels) + if bucket == e.bucket && e.group in labels then e.count else 0
    decreases |labels|
  {
    if labels != [] {
      var rest, l := labels[..|labels| - 1], labels[|labels| - 1];
      RowTotalSnoc(raw, e, bucket, rest);
      assert (raw + [e])[..|raw|] == raw;
      if bucket == e.bucket && l == e.group {
        LastAbsent(raw, bucket, l);
        assert l !in rest;
      }
      assert e.group in labels <==> e.group in rest || e.group == l;
    }
  }

  lemma {:induction false} MatrixTotalSnoc(raw: seq<Entry>, e: Entry, buckets: seq<int>, labels: seq<string>)
    requires Distinct(buckets) && Distinct(labels) && forall x | x in raw :: x.bucket != e.bucket || x.group != e.group
    ensures MatrixTotal(raw + [e], buckets, labels) ==
            MatrixTotal(raw, buckets, labels) + if e.bucket in buckets && e.group in labels then e.count else 0
    decreases |buckets|
  {
    hide RowTotal;
    if buckets != [] {
      var rest, b := buckets[..|buckets| - 1], buckets[|buckets| - 1];
      MatrixTotalSnoc(raw, e, rest, labels);
      RowTotalSnoc(raw, e, b, labels);
      assert e.bucket in buckets <==> e.bucket in rest || e.bucket == b;
      assert b !in rest;
    }
  }

  lemma {:induction false} MatrixTotalNone(buckets: seq<int>, labels: seq<string>)
    ensures MatrixTotal([], buckets, labels) == 0
    decreases |buckets|
  {
    if buckets != [] {
      MatrixTotalNone(buckets[..|buckets| - 1], labels);
      RowTotalNone(buckets[|buckets| - 1], labels);
    }
  }

  lemma {:induction false} RowTotalNone(bucket: int, labels: seq<string>)
    ensures RowTotal([], bucket, labels) == 0
    decreases |labels|
  {
    if labels != [] { RowTotalNone(bucket, labels[..|labels| - 1]); }
  }

  lemma {:induction false} MatrixTotalIs(raw: seq<Entry>, buckets: seq<int>, labels: seq<string>)
    requires DistinctPairs(raw) && Distinct(buckets) && Distinct(labels)
    requires forall e | e in raw :: e.bucket in buckets && e.group in labels
    ensures MatrixTotal(raw, buckets, labels) == Total(raw)
    decreases |raw|
  {
    hide MatrixTotal;
    if raw == [] {
      MatrixTotalNone(buckets, labels);
    } else {
      var init, e := raw[..|raw| - 1], raw[|raw| - 1];
      assert raw == init + [e];
      assert e in raw;
      MatrixTotalIs(init, buckets, labels);
      MatrixTotalSnoc(init, e, buckets, labels);
    }
  }

  lemma {:induction false} RowSum(raw: seq<Entry>, bucket: int, labels: seq<string>, row: seq<int>)
    requires |row| == |labels| && forall j | 0 <= j < |labels| :: row[j] == Last(raw, bucket, labels[j])
    ensures Sum(row) == RowTotal(raw, bucket, labels)
    decreases |labels|
  {
    hide Last;
    if labels != [] {
      RowSum(raw, bucket, labels[..|labels| - 1], row[..|row| - 1]);
    }
  }

  lemma {:induction false} TableSum(raw: seq<Entry>, buckets: seq<int>, labels: seq<string>, cells: seq<seq<int>>)
    requires |cells| == |buckets|
    requires forall i | 0 <= i < |buckets| ::
               |cells[i]| == |labels| && forall j | 0 <= j < |labels| :: cells[i][j] == Last(raw, buckets[i], labels[j])
    ensures CellSum(cells) == MatrixTotal(raw, buckets, labels)
    decreases |buckets|
  {
    hide Last, Sum, RowTotal;
    if buckets != [] {
      var n := |buckets| - 1;
      TableSum(raw, buckets[..n], labels, cells[..n]);
      RowSum(raw, buckets[n], labels, cells[n]);
    }
  }

  lemma {:induction false} AscendingDistinct<T(!new)>(keys: seq<T>, less: (T, T) -> bool)
    requires TotalOrder(less) && Ascending(keys, less)
    ensures Distinct(keys)
  {
  }

  /** The cells add up to the counts, if no pair is given twice. */
  lemma {:induction false} PivotConserves(raw: seq<Entry>, t: Table)
    requires IsPivot(raw, t) && DistinctPairs(raw)
    ensures CellSum(t.cells) == Total(raw)
  {
    hide Ascending, TotalOrder, TextLess, Last, Distinct, DistinctPairs;
    IntLessTotal();
    TextLessTotal();
    AscendingDistinct(t.buckets, IntLess);
    AscendingDistinct(t.labels, TextLess);
    TableSum(raw, t.buckets, t.labels, t.cells);
    MatrixTotalIs(raw, t.buckets, t.labels);
  }

  lemma {:induction false} LastPresent(raw: seq<Entry>, e: Entry)
    requires DistinctPairs(raw) && e in raw
    ensures Last(raw, e.bucket, e.group) == e.count
  {
    var n := |raw| - 1;
    if raw[n] != e {
      var k :| 0 <= k < |raw| && raw[k] == e;
      assert raw[..n][k] == e;
      LastPresent(raw[..n], e);
    }
  }

  /** The order of the counts does not matter, if no pair is given twice. */
  lemma {:induction false} PivotIgnoresOrder(raw: seq<Entry>, other: seq<Entry>, t: Table)
    requires IsPivot(raw, t) && DistinctPairs(raw) && DistinctPairs(other) && forall e :: e in raw <==> e in other
    ensures IsPivot(other, t)
  {
    hide Ascending, TextLess, DistinctPairs, Last;
    forall b, l ensures Last(raw, b, l) == Last(other, b, l) {
      if e :| e in raw && e.bucket == b && e.group == l {
        LastPresent(raw, e);
        LastPresent(other, e);
      } else {
        LastAbsent(raw, b, l);
        LastAbsent(other, b, l);
      }
    }
  }
}
