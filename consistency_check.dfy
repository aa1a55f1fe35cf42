/** The consistency verifier (utils/consistency_check.py): after a migration
    it compares the SQLite source with the PostgreSQL destination, first the
    row count of every table, then the rows' values, and fails at the first
    difference it meets.

    A store is modelled by what it answers to each statement it can run: a
    count for a `SELECT COUNT(*)` statement, a list of raw rows for a
    `SELECT` of columns. A statement the store cannot answer (no such table)
    is a store error. `SQLiteExtractor.transform`, whose rules are not part of this
    model, is a function parameter from a raw row to its (column, value)
    items. */
module ConsistencyCheck {
  import opened Wrappers
  import Models

  /** The tables in the order both checks visit them. */
  const Tables: seq<string> := ["genre", "person", "film_work", "person_film_work", "genre_film_work"]

  /** `get_pg_table`: the destination name of a source table. */
  function PgTable(table: string): (r: string)
  {
    "content." + table
  }

  // ---------------------------------------------------------------------------
  // The statements the checks run, and the query catalogue of get_query
  // ---------------------------------------------------------------------------

  /** A statement sent to a store: a `SELECT` of `columns` (in order) from a
      table, with or without the trailing semicolon the source text has, or
      the `SELECT COUNT(*) AS count` of a table. */
  datatype Statement =
    | Select(columns: seq<string>, from: string, semicolon: bool)
    | CountAll(from: string)

  /** `Template("SELECT COUNT(*) AS count FROM $table").substitute(table=...)` */
  function CountQuery(table: string): Statement {
    CountAll(table)
  }

  const SqliteQueries: map<string, Statement> := map[
    "genre" := Select(["id", "name", "description"], "genre", true),
    "person" := Select(["id", "full_name"], "person", false),
    "film_work" := Select(["id", "title", "description", "creation_date", "rating", "type"], "film_work", true),
    "person_film_work" := Select(["id", "film_work_id", "person_id", "role"], "person_film_work", false),
    "genre_film_work" := Select(["id", "film_work_id", "genre_id"], "genre_film_work", false)
  ]

  const PsqlQueries: map<string, Statement> := map[
    "genre" := Select(["id", "name", "description"], "content.genre", true),
    "person" := Select(["id", "full_name"], "content.person", false),
    "film_work" := Select(["id", "title", "description", "creation_date", "rating", "type"], "content.film_work", true),
    "person_film_work" := Select(["id", "film_work_id", "person_id", "role"], "content.person_film_work", false),
    "genre_film_work" := Select(["id", "film_work_id", "genre_id"], "content.genre_film_work", false)
  ]

  /** `get_query(table, is_pg=0)`: the PostgreSQL query when `is_pg` is truthy
      (a non-zero integer), the SQLite query otherwise; `None` stands for the
      `KeyError` of a table missing from the dictionaries. */
  function GetQuery(table: string, isPg: int := 0): (r: Option<Statement>)
    ensures r.Some? <==> table in Tables
    ensures r.Some? ==> r.value.Select?
    ensures r.Some? && isPg != 0 ==> r.value == PsqlQueries[table]
    ensures r.Some? && isPg == 0 ==> r.value == SqliteQueries[table]
  {
    if isPg != 0 then
      if table in PsqlQueries then Some(PsqlQueries[table]) else None
    else
      if table in SqliteQueries then Some(SqliteQueries[table]) else None
  }

  // ---------------------------------------------------------------------------
  // Stores, rows and verdicts
  // ---------------------------------------------------------------------------

  /** What a store answers: `counts` to count statements, `results` to select statements. */
  datatype Store<R> = Store(counts: map<Statement, nat>, results: map<Statement, seq<R>>)

  /** A transformed row's `items()`: (column, value) pairs in column order. */
  type Row<V> = seq<(string, V)>

  datatype Side = Sqlite | Postgres

  /** How a check ends: it passes, an `assert` fails with its message's data,
      or a statement is not answered by a store. */
  datatype Verdict<V> =
    | Consistent
    | CountMismatch(table: string, sqliteCount: nat, pgCount: nat)
    | ValueMismatch(table: string, column: string, sqliteValue: V, pgValue: V)
    | QueryFailed(side: Side, query: Statement)

  // ---------------------------------------------------------------------------
  // test_integrity, as a specification
  // ---------------------------------------------------------------------------

  /** Both stores answer the count statements of `table`, with the same number. */
  predicate CountsAgree<R>(src: Store<R>, dst: Store<R>, table: string) {
    && CountQuery(table) in src.counts
    && CountQuery(PgTable(table)) in dst.counts
    && src.counts[CountQuery(table)] == dst.counts[CountQuery(PgTable(table))]
  }

  /** The verdict of `test_integrity` on the tables from position `i` on. */
  function IntegrityFrom<R, V>(src: Store<R>, dst: Store<R>, i: nat): (r: Verdict<V>)
    ensures !r.ValueMismatch?
    ensures r.CountMismatch? ==> r.table in Tables && r.sqliteCount != r.pgCount
    decreases |Tables| - i
  {
    if i >= |Tables| then Consistent
    else
      var table := Tables[i];
      var q, pq := CountQuery(table), CountQuery(PgTable(table));
      if q !in src.counts then QueryFailed(Sqlite, q)
      else if pq !in dst.counts then QueryFailed(Postgres, pq)
      else if src.counts[q] != dst.counts[pq] then CountMismatch(table, src.counts[q], dst.counts[pq])
      else IntegrityFrom(src, dst, i + 1)
  }

  function IntegrityVerdict<R, V>(src: Store<R>, dst: Store<R>): Verdict<V> {
    IntegrityFrom(src, dst, 0)
  }

  // ---------------------------------------------------------------------------
  // test_tables_values, as a specification
  // ---------------------------------------------------------------------------

  /** `zip(sqlite_row.items(), pg_row.items())` with the value `assert`:
      the first pair of unequal values fails, naming the SQLite-side column. */
  function CompareFields<V(==)>(table: string, a: Row<V>, b: Row<V>): (r: Verdict<V>)
    ensures r == Consistent || (r.ValueMismatch? && r.table == table && r.sqliteValue != r.pgValue)
    decreases |a|
  {
    if |a| == 0 || |b| == 0 then Consistent
    else if a[0].1 != b[0].1 then ValueMismatch(table, a[0].0, a[0].1, b[0].1)
    else CompareFields(table, a[1..], b[1..])
  }

  /** `zip(sqlite_rows, pg_rows)` with the field comparison on every pair. */
  function CompareRows<V(==)>(table: string, xs: seq<Row<V>>, ys: seq<Row<V>>): (r: Verdict<V>)
    ensures r == Consistent || (r.ValueMismatch? && r.table == table && r.sqliteValue != r.pgValue)
    decreases |xs|
  {
    if |xs| == 0 || |ys| == 0 then Consistent
    else
      var v := CompareFields(table, xs[0], ys[0]);
      if v != Consistent then v else CompareRows(table, xs[1..], ys[1..])
  }

  /** `map(SQLiteExtractor.transform, rows)` */
  function Transformed<R, V>(transform: R -> Row<V>, rows: seq<R>): (r: seq<Row<V>>)
    ensures |r| == |rows|
    ensures forall k :: 0 <= k < |rows| ==> r[k] == transform(rows[k])
  {
    seq(|rows|, k requires 0 <= k < |rows| => transform(rows[k]))
  }

  /** The SQLite and the PostgreSQL select statement of a checked table. */
  function SqliteSelect(table: string): Statement
    requires table in Tables
  {
    GetQuery(table).value
  }

  function PgSelect(table: string): Statement
    requires table in Tables
  {
    GetQuery(table, 1).value
  }

  /** The verdict of `test_tables_values` on the tables from position `i` on. */
  function ValuesFrom<R, V(==)>(src: Store<R>, dst: Store<R>, transform: R -> Row<V>, i: nat): (r: Verdict<V>)
    ensures !r.CountMismatch?
    ensures r.ValueMismatch? ==> r.table in Tables && r.sqliteValue != r.pgValue
    decreases |Tables| - i
  {
    if i >= |Tables| then Consistent
    else
      var table := Tables[i];
      var q, pq := SqliteSelect(table), PgSelect(table);
      if q !in src.results then QueryFailed(Sqlite, q)
      else if pq !in dst.results then QueryFailed(Postgres, pq)
      else
        var v := CompareRows(table, Transformed(transform, src.results[q]), Transformed(transform, dst.results[pq]));
        if v != Consistent then v else ValuesFrom(src, dst, transform, i + 1)
  }

  function ValuesVerdict<R, V(==)>(src: Store<R>, dst: Store<R>, transform: R -> Row<V>): Verdict<V> {
    ValuesFrom(src, dst, transform, 0)
  }

  /** `check_consistency`: the count check, and the value check only when it passed. */
  function ConsistencyVerdict<R, V(==)>(src: Store<R>, dst: Store<R>, transform: R -> Row<V>): (r: Verdict<V>)
    ensures r.CountMismatch? ==> r.table in Tables && r.sqliteCount != r.pgCount
    ensures r.ValueMismatch? ==> r.table in Tables && r.sqliteValue != r.pgValue
    ensures r.ValueMismatch? ==> IntegrityVerdict<R, V>(src, dst) == Consistent
  {
    var c := IntegrityVerdict<R, V>(src, dst);
    if c != Consistent then c else ValuesVerdict(src, dst, transform)
  }

  // ---------------------------------------------------------------------------
  // The checks as the source runs them: loops with early exit
  // ---------------------------------------------------------------------------

  /** `test_integrity` */
  method TestIntegrity<R, V>(src: Store<R>, dst: Store<R>) returns (v: Verdict<V>)
    ensures v == IntegrityVerdict(src, dst)
  {
    var i := 0;
    while i < |Tables|
      invariant 0 <= i <= |Tables|
      invariant IntegrityFrom<R, V>(src, dst, i) == IntegrityVerdict(src, dst)
    {
      var table := Tables[i];
      var pgTable := PgTable(table);
      var q, pq := CountQuery(table), CountQuery(pgTable);
      if q !in src.counts {
        return QueryFailed(Sqlite, q);
      }
      if pq !in dst.counts {
        return QueryFailed(Postgres, pq);
      }
      var sqliteCount, pgCount := src.counts[q], dst.counts[pq];
      if sqliteCount != pgCount {
        return CountMismatch(table, sqliteCount, pgCount);
      }
      i := i + 1;
    }
    return Consistent;
  }

  /** The inner `zip` of `test_tables_values`, over the items of one row pair. */
  method CompareRowItems<V(==)>(table: string, a: Row<V>, b: Row<V>) returns (v: Verdict<V>)
    ensures v == CompareFields(table, a, b)
  {
    var k := 0;
    while k < |a| && k < |b|
      invariant 0 <= k <= |a| && k <= |b|
      invariant CompareFields(table, a[k..], b[k..]) == CompareFields(table, a, b)
    {
      assert a[k..][1..] == a[k + 1..] && b[k..][1..] == b[k + 1..];
      var sqliteItem, pgItem := a[k], b[k];
      if sqliteItem.1 != pgItem.1 {
        return ValueMismatch(table, sqliteItem.0, sqliteItem.1, pgItem.1);
      }
      k := k + 1;
    }
    return Consistent;
  }

  /** The outer `zip` of `test_tables_values`, over the row pairs of one table. */
  method CompareTableRows<V(==)>(table: string, xs: seq<Row<V>>, ys: seq<Row<V>>) returns (v: Verdict<V>)
    ensures v == CompareRows(table, xs, ys)
  {
    var k := 0;
    while k < |xs| && k < |ys|
      invariant 0 <= k <= |xs| && k <= |ys|
      invariant CompareRows(table, xs[k..], ys[k..]) == CompareRows(table, xs, ys)
    {
      assert xs[k..][1..] == xs[k + 1..] && ys[k..][1..] == ys[k + 1..];
      v := CompareRowItems(table, xs[k], ys[k]);
      if v != Consistent {
        return;
      }
      k := k + 1;
    }
    return Consistent;
  }

  /** `test_tables_values` */
  method TestTablesValues<R, V(==)>(src: Store<R>, dst: Store<R>, transform: R -> Row<V>) returns (v: Verdict<V>)
    ensures v == ValuesVerdict(src, dst, transform)
  {
    var i := 0;
    while i < |Tables|
      invariant 0 <= i <= |Tables|
      invariant ValuesFrom(src, dst, transform, i) == ValuesVerdict(src, dst, transform)
    {
      var table := Tables[i];
      var q, pq := GetQuery(table).value, GetQuery(table, 1).value;
      if q !in src.results {
        return QueryFailed(Sqlite, q);
      }
      if pq !in dst.results {
        return QueryFailed(Postgres, pq);
      }
      var sqliteRows := Transformed(transform, src.results[q]);
      var pgRows := Transformed(transform, dst.results[pq]);
      v := CompareTableRows(table, sqliteRows, pgRows);
      if v != Consistent {
        return;
      }
      i := i + 1;
    }
    return Consistent;
  }

  /** `check_consistency` */
  method CheckConsistency<R, V(==)>(src: Store<R>, dst: Store<R>, transform: R -> Row<V>) returns (v: Verdict<V>)
    ensures v == ConsistencyVerdict(src, dst, transform)
  {
    v := TestIntegrity(src, dst);
    if v == Consistent {
      v := TestTablesValues(src, dst, transform);
    }
  }

  // ---------------------------------------------------------------------------
  // Properties of the catalogue
  // ---------------------------------------------------------------------------

  /** The destination name is the source name behind the `content.` schema
      prefix, so no two source tables share a destination name. */
  lemma PgTableSplits(a: string, b: string)
    ensures |PgTable(a)| == |"content."| + |a|
    ensures PgTable(a)[..|"content."|] == "content." && PgTable(a)[|"content."|..] == a
    ensures PgTable(a) == PgTable(b) <==> a == b
  {
    assert PgTable(a)[|"content."|..] == a;
    assert PgTable(b)[|"content."|..] == b;
  }

  /** The tables are visited in the order genre, person, film_work,
      person_film_work, genre_film_work, each once. */
  lemma TablesOrder()
    ensures Tables == [Models.TableName(Models.GenreTable), Models.TableName(Models.PersonTable),
                       Models.TableName(Models.FilmworkTable), Models.TableName(Models.PersonFilmworkTable),
                       Models.TableName(Models.GenreFilmworkTable)]
    ensures forall i, j :: 0 <= i < j < |Tables| ==> Tables[i] != Tables[j]
  {
  }

  /** The checked destination tables are the ones the Django models declare. */
  lemma PgTablesAreModelTables(t: Models.Table)
    ensures Models.QuoteName(Models.DbTable(t)) == "\"content\".\"" + Models.TableName(t) + "\""
    ensures PgTable(Models.TableName(t)) == "content" + "." + Models.TableName(t)
  {
  }

  /** Both query dictionaries have exactly the checked tables as keys. */
  lemma QueryKeysAreTables()
    ensures SqliteQueries.Keys == PsqlQueries.Keys
    ensures forall t :: t in SqliteQueries <==> t in Tables
  {
  }

  /** The default `is_pg=0` yields the SQLite query, any truthy `is_pg` the
      PostgreSQL one, and the two always differ for a checked table. */
  lemma GetQuerySides(table: string, isPg: int)
    requires table in Tables
    ensures GetQuery(table) == GetQuery(table, 0) == Some(SqliteQueries[table])
    ensures isPg != 0 ==> GetQuery(table, isPg) == Some(PsqlQueries[table])
    ensures GetQuery(table, 0) != GetQuery(table, 1)
  {
  }

  lemma CheckedTableCases(table: string)
    requires table in Tables
    ensures table == "genre" || table == "person" || table == "film_work"
         || table == "person_film_work" || table == "genre_film_work"
  {
  }

  /** For every table the two queries select the same ordered columns, and
      differ only in naming the table with the `content.` prefix. */
  lemma QueriesDifferOnlyInSchema(table: string)
    requires table in Tables
    ensures SqliteQueries[table].Select? && PsqlQueries[table].Select?
    ensures PsqlQueries[table].columns == SqliteQueries[table].columns
    ensures PsqlQueries[table].semicolon == SqliteQueries[table].semicolon
    ensures SqliteQueries[table].from == table
    ensures PsqlQueries[table].from == PgTable(table)
  {
    CheckedTableCases(table);
    if table == "genre" {
      SameShapeGenre();
    } else if table == "person" {
      SameShapePerson();
    } else if table == "film_work" {
      SameShapeFilmWork();
    } else if table == "person_film_work" {
      SameShapePersonFilmWork();
    } else {
      SameShapeGenreFilmWork();
    }
  }

  lemma SameShapeGenre()
    ensures SqliteQueries["genre"].Select? && PsqlQueries["genre"].Select?
    ensures PsqlQueries["genre"].columns == SqliteQueries["genre"].columns
    ensures PsqlQueries["genre"].semicolon == SqliteQueries["genre"].semicolon
    ensures SqliteQueries["genre"].from == "genre"
    ensures PsqlQueries["genre"].from == PgTable("genre")
  {
    assert PgTable("genre") == "content.genre";
  }

  lemma SameShapePerson()
    ensures SqliteQueries["person"].Select? && PsqlQueries["person"].Select?
    ensures PsqlQueries["person"].columns == SqliteQueries["person"].columns
    ensures PsqlQueries["person"].semicolon == SqliteQueries["person"].semicolon
    ensures SqliteQueries["person"].from == "person"
    ensures PsqlQueries["person"].from == PgTable("person")
  {
    assert PgTable("person") == "content.person";
  }

  lemma SameShapeFilmWork()
    ensures SqliteQueries["film_work"].Select? && PsqlQueries["film_work"].Select?
    ensures PsqlQueries["film_work"].columns == SqliteQueries["film_work"].columns
    ensures PsqlQueries["film_work"].semicolon == SqliteQueries["film_work"].semicolon
    ensures SqliteQueries["film_work"].from == "film_work"
    ensures PsqlQueries["film_work"].from == PgTable("film_work")
  {
    assert PgTable("film_work") == "content.film_work";
  }

  lemma SameShapePersonFilmWork()
    ensures SqliteQueries["person_film_work"].Select? && PsqlQueries["person_film_work"].Select?
    ensures PsqlQueries["person_film_work"].columns == SqliteQueries["person_film_work"].columns
    ensures PsqlQueries["person_film_work"].semicolon == SqliteQueries["person_film_work"].semicolon
    ensures SqliteQueries["person_film_work"].from == "person_film_work"
    ensures PsqlQueries["person_film_work"].from == PgTable("person_film_work")
  {
    assert PgTable("person_film_work") == "content.person_film_work";
  }

  lemma SameShapeGenreFilmWork()
    ensures SqliteQueries["genre_film_work"].Select? && PsqlQueries["genre_film_work"].Select?
    ensures PsqlQueries["genre_film_work"].columns == SqliteQueries["genre_film_work"].columns
    ensures PsqlQueries["genre_film_work"].semicolon == SqliteQueries["genre_film_work"].semicolon
    ensures SqliteQueries["genre_film_work"].from == "genre_film_work"
    ensures PsqlQueries["genre_film_work"].from == PgTable("genre_film_work")
  {
    assert PgTable("genre_film_work") == "content.genre_film_work";
  }

  // ---------------------------------------------------------------------------
  // Properties of test_integrity
  // ---------------------------------------------------------------------------

  lemma {:induction false} IntegrityFromPassIff<R, V>(src: Store<R>, dst: Store<R>, i: nat)
    requires i <= |Tables|
    ensures IntegrityFrom<R, V>(src, dst, i) == Consistent <==>
            forall j :: i <= j < |Tables| ==> CountsAgree(src, dst, Tables[j])
    decreases |Tables| - i
  {
    if i < |Tables| {
      IntegrityFromPassIff<R, V>(src, dst, i + 1);
    }
  }

  /** `test_integrity` passes iff every table has the same count in both stores. */
  lemma IntegrityPassIff<R, V>(src: Store<R>, dst: Store<R>)
    ensures IntegrityVerdict<R, V>(src, dst) == Consistent <==>
            forall t :: t in Tables ==> CountsAgree(src, dst, t)
  {
    IntegrityFromPassIff<R, V>(src, dst, 0);
  }

  lemma {:induction false} IntegrityFromFailsAtFirst<R, V>(src: Store<R>, dst: Store<R>, i: nat)
    requires i <= |Tables|
    requires IntegrityFrom<R, V>(src, dst, i).CountMismatch?
    ensures var v := IntegrityFrom<R, V>(src, dst, i);
            exists k :: i <= k < |Tables| && Tables[k] == v.table
              && (forall j :: i <= j < k ==> CountsAgree(src, dst, Tables[j]))
              && CountQuery(v.table) in src.counts && CountQuery(PgTable(v.table)) in dst.counts
              && v.sqliteCount == src.counts[CountQuery(v.table)]
              && v.pgCount == dst.counts[CountQuery(PgTable(v.table))]
              && v.sqliteCount != v.pgCount
    decreases |Tables| - i
  {
    var table := Tables[i];
    var q, pq := CountQuery(table), CountQuery(PgTable(table));
    if src.counts[q] == dst.counts[pq] {
      IntegrityFromFailsAtFirst<R, V>(src, dst, i + 1);
      var v := IntegrityFrom<R, V>(src, dst, i);
      var k :| i + 1 <= k < |Tables| && Tables[k] == v.table
              && (forall j :: i + 1 <= j < k ==> CountsAgree(src, dst, Tables[j]))
              && CountQuery(v.table) in src.counts && CountQuery(PgTable(v.table)) in dst.counts
              && v.sqliteCount == src.counts[CountQuery(v.table)]
              && v.pgCount == dst.counts[CountQuery(PgTable(v.table))]
              && v.sqliteCount != v.pgCount;
      assert CountsAgree(src, dst, Tables[i]);
    }
  }

  /** A count failure names the first table, in visiting order, whose counts
      differ, with its SQLite and its PostgreSQL count; every earlier table agreed. */
  lemma IntegrityFailsAtFirstMismatch<R, V>(src: Store<R>, dst: Store<R>)
    requires IntegrityVerdict<R, V>(src, dst).CountMismatch?
    ensures var v := IntegrityVerdict<R, V>(src, dst);
            exists k :: 0 <= k < |Tables| && Tables[k] == v.table
              && (forall j :: 0 <= j < k ==> CountsAgree(src, dst, Tables[j]))
              && CountQuery(v.table) in src.counts && CountQuery(PgTable(v.table)) in dst.counts
              && v.sqliteCount == src.counts[CountQuery(v.table)]
              && v.pgCount == dst.counts[CountQuery(PgTable(v.table))]
              && v.sqliteCount != v.pgCount
  {
    IntegrityFromFailsAtFirst<R, V>(src, dst, 0);
  }

  // ---------------------------------------------------------------------------
  // Properties of test_tables_values
  // ---------------------------------------------------------------------------

  /** Two rows agree as the inner `zip` sees them: equal values position by
      position, up to the shorter row; column names are never compared. */
  predicate FieldsAgree<V(==)>(a: Row<V>, b: Row<V>) {
    forall j :: 0 <= j < |a| && j < |b| ==> a[j].1 == b[j].1
  }

  /** Two row lists agree as the outer `zip` sees them: up to the shorter list. */
  predicate RowsAgree<V(==)>(xs: seq<Row<V>>, ys: seq<Row<V>>) {
    forall k :: 0 <= k < |xs| && k < |ys| ==> FieldsAgree(xs[k], ys[k])
  }

  /** The field comparison passes iff the paired values are equal. */
  lemma {:induction false} CompareFieldsPassIff<V>(table: string, a: Row<V>, b: Row<V>)
    ensures CompareFields(table, a, b) == Consistent <==> FieldsAgree(a, b)
    decreases |a|
  {
    if |a| > 0 && |b| > 0 {
      CompareFieldsPassIff(table, a[1..], b[1..]);
      assert FieldsAgree(a, b) <==> a[0].1 == b[0].1 && FieldsAgree(a[1..], b[1..]) by {
        if a[0].1 == b[0].1 && FieldsAgree(a[1..], b[1..]) {
          forall j | 0 <= j < |a| && j < |b| ensures a[j].1 == b[j].1 {
            if j > 0 { assert a[1..][j - 1] == a[j] && b[1..][j - 1] == b[j]; }
          }
        }
        if FieldsAgree(a, b) {
          forall j | 0 <= j < |a[1..]| && j < |b[1..]| ensures a[1..][j].1 == b[1..][j].1 {
            assert a[1..][j] == a[j + 1] && b[1..][j] == b[j + 1];
          }
        }
      }
    }
  }

  /** A value failure names the SQLite-side column and both values of the
      first position whose values differ; every earlier position agreed. */
  lemma {:induction false} CompareFieldsFailsAtFirst<V>(table: string, a: Row<V>, b: Row<V>)
    requires CompareFields(table, a, b) != Consistent
    ensures var v := CompareFields(table, a, b);
            v.ValueMismatch? && v.table == table &&
            exists j :: 0 <= j < |a| && j < |b| && v.column == a[j].0 && v.sqliteValue == a[j].1
              && v.pgValue == b[j].1 && a[j].1 != b[j].1
              && forall i :: 0 <= i < j ==> a[i].1 == b[i].1
    decreases |a|
  {
    if a[0].1 == b[0].1 {
      CompareFieldsFailsAtFirst(table, a[1..], b[1..]);
      var v := CompareFields(table, a, b);
      var j :| 0 <= j < |a[1..]| && j < |b[1..]| && v.column == a[1..][j].0 && v.sqliteValue == a[1..][j].1
              && v.pgValue == b[1..][j].1 && a[1..][j].1 != b[1..][j].1
              && forall i :: 0 <= i < j ==> a[1..][i].1 == b[1..][i].1;
      assert forall i :: 1 <= i < j + 1 ==> a[i].1 == b[i].1 by {
        forall i | 1 <= i < j + 1 ensures a[i].1 == b[i].1 {
          assert a[1..][i - 1] == a[i] && b[1..][i - 1] == b[i];
        }
      }
    }
  }

  /** The row comparison passes iff every row pair the `zip` forms agrees. */
  lemma {:induction false} CompareRowsPassIff<V>(table: string, xs: seq<Row<V>>, ys: seq<Row<V>>)
    ensures CompareRows(table, xs, ys) == Consistent <==> RowsAgree(xs, ys)
    decreases |xs|
  {
    if |xs| > 0 && |ys| > 0 {
      CompareFieldsPassIff(table, xs[0], ys[0]);
      CompareRowsPassIff(table, xs[1..], ys[1..]);
      assert RowsAgree(xs, ys) <==> FieldsAgree(xs[0], ys[0]) && RowsAgree(xs[1..], ys[1..]) by {
        if FieldsAgree(xs[0], ys[0]) && RowsAgree(xs[1..], ys[1..]) {
          forall k | 0 <= k < |xs| && k < |ys| ensures FieldsAgree(xs[k], ys[k]) {
            if k > 0 { assert xs[1..][k - 1] == xs[k] && ys[1..][k - 1] == ys[k]; }
          }
        }
        if RowsAgree(xs, ys) {
          forall k | 0 <= k < |xs[1..]| && k < |ys[1..]| ensures FieldsAgree(xs[1..][k], ys[1..][k]) {
            assert xs[1..][k] == xs[k + 1] && ys[1..][k] == ys[k + 1];
          }
        }
      }
    }
  }

  /** The `zip` stops at the shorter list: rows past it are never inspected. */
  lemma {:induction false} CompareRowsIgnoresTail<V>(table: string, xs: seq<Row<V>>, ys: seq<Row<V>>, extra: seq<Row<V>>)
    requires |xs| >= |ys|
    ensures CompareRows(table, xs + extra, ys) == CompareRows(table, xs, ys)
    ensures CompareRows(table, ys, xs + extra) == CompareRows(table, ys, xs)
    decreases |ys|
  {
    if |ys| > 0 {
      assert (xs + extra)[0] == xs[0];
      assert (xs + extra)[1..] == xs[1..] + extra;
      CompareRowsIgnoresTail(table, xs[1..], ys[1..], extra);
    }
  }

  /** Without the count check, a destination that lost trailing rows passes
      the value check: every prefix of a row list agrees with the whole list. */
  lemma {:induction false} ValueCheckMissesTruncation<V>(table: string, xs: seq<Row<V>>, k: nat)
    requires k <= |xs|
    ensures CompareRows(table, xs, xs[..k]) == Consistent
    decreases k
  {
    if k > 0 {
      CompareFieldsPassIff(table, xs[0], xs[0]);
      assert xs[..k][1..] == xs[1..][..k - 1];
      ValueCheckMissesTruncation(table, xs[1..], k - 1);
    }
  }

  /** The row comparison fails at value `j` of row pair `k`: every earlier
      row pair agreed, every earlier value of that pair agreed, and the
      verdict names the SQLite column and both values at that place. */
  ghost predicate MismatchAt<V>(table: string, xs: seq<Row<V>>, ys: seq<Row<V>>, k: nat, j: nat, v: Verdict<V>) {
    && k < |xs| && k < |ys|
    && (forall r :: 0 <= r < k ==> FieldsAgree(xs[r], ys[r]))
    && j < |xs[k]| && j < |ys[k]|
    && (forall c :: 0 <= c < j ==> xs[k][c].1 == ys[k][c].1)
    && xs[k][j].1 != ys[k][j].1
    && v == ValueMismatch(table, xs[k][j].0, xs[k][j].1, ys[k][j].1)
  }

  /** A failing row comparison stops at the first row pair that differs, at
      its first differing value. */
  lemma {:induction false} CompareRowsFailsAtFirst<V>(table: string, xs: seq<Row<V>>, ys: seq<Row<V>>)
    returns (k: nat, j: nat)
    requires CompareRows(table, xs, ys) != Consistent
    ensures MismatchAt(table, xs, ys, k, j, CompareRows(table, xs, ys))
    decreases |xs|
  {
    var v0 := CompareFields(table, xs[0], ys[0]);
    if v0 != Consistent {
      CompareFieldsFailsAtFirst(table, xs[0], ys[0]);
      k := 0;
      j :| 0 <= j < |xs[0]| && j < |ys[0]| && v0.column == xs[0][j].0 && v0.sqliteValue == xs[0][j].1
           && v0.pgValue == ys[0][j].1 && xs[0][j].1 != ys[0][j].1
           && forall i :: 0 <= i < j ==> xs[0][i].1 == ys[0][i].1;
    } else {
      CompareFieldsPassIff(table, xs[0], ys[0]);
      var k', j' := CompareRowsFailsAtFirst(table, xs[1..], ys[1..]);
      k, j := k' + 1, j';
      assert xs[1..][k'] == xs[k] && ys[1..][k'] == ys[k];
      forall r | 0 <= r < k ensures FieldsAgree(xs[r], ys[r]) {
        if r > 0 {
          assert xs[1..][r - 1] == xs[r] && ys[1..][r - 1] == ys[r];
        }
      }
    }
  }

  /** Both stores answer the select statements of `t`, and its transformed rows
      agree as the `zip` pairs them. */
  ghost predicate TableValuesAgree<R, V>(src: Store<R>, dst: Store<R>, transform: R -> Row<V>, t: string)
    requires t in Tables
  {
    && SqliteSelect(t) in src.results && PgSelect(t) in dst.results
    && RowsAgree(Transformed(transform, src.results[SqliteSelect(t)]),
                 Transformed(transform, dst.results[PgSelect(t)]))
  }

  /** A value failure from position `i` on comes from the first table, in
      visiting order, whose rows differ, at its first differing row pair and
      value; every earlier table was answered by both stores and agreed. */
  lemma {:induction false} ValuesFromFailsAtFirst<R, V>(src: Store<R>, dst: Store<R>, transform: R -> Row<V>, i: nat)
    returns (n: nat, k: nat, j: nat)
    requires i <= |Tables|
    requires ValuesFrom(src, dst, transform, i).ValueMismatch?
    ensures i <= n < |Tables|
    ensures forall m :: i <= m < n ==> TableValuesAgree(src, dst, transform, Tables[m])
    ensures SqliteSelect(Tables[n]) in src.results && PgSelect(Tables[n]) in dst.results
    ensures MismatchAt(Tables[n], Transformed(transform, src.results[SqliteSelect(Tables[n])]),
                       Transformed(transform, dst.results[PgSelect(Tables[n])]), k, j,
                       ValuesFrom(src, dst, transform, i))
    decreases |Tables| - i
  {
    var t := Tables[i];
    var xs := Transformed(transform, src.results[SqliteSelect(t)]);
    var ys := Transformed(transform, dst.results[PgSelect(t)]);
    if CompareRows(t, xs, ys) != Consistent {
      n := i;
      k, j := CompareRowsFailsAtFirst(t, xs, ys);
    } else {
      CompareRowsPassIff(t, xs, ys);
      n, k, j := ValuesFromFailsAtFirst(src, dst, transform, i + 1);
    }
  }

  /** A value failure of `check_consistency` happens only once every table's
      counts agreed, and names the first differing value of the first
      differing row pair of the first table whose rows differ. */
  lemma ValueFailureIsFirstMismatch<R, V>(src: Store<R>, dst: Store<R>, transform: R -> Row<V>)
    returns (n: nat, k: nat, j: nat)
    requires ConsistencyVerdict(src, dst, transform).ValueMismatch?
    ensures forall t :: t in Tables ==> CountsAgree(src, dst, t)
    ensures n < |Tables| && forall m :: 0 <= m < n ==> TableValuesAgree(src, dst, transform, Tables[m])
    ensures SqliteSelect(Tables[n]) in src.results && PgSelect(Tables[n]) in dst.results
    ensures MismatchAt(Tables[n], Transformed(transform, src.results[SqliteSelect(Tables[n])]),
                       Transformed(transform, dst.results[PgSelect(Tables[n])]), k, j,
                       ConsistencyVerdict(src, dst, transform))
  {
    IntegrityPassIff<R, V>(src, dst);
    n, k, j := ValuesFromFailsAtFirst(src, dst, transform, 0);
  }

  // ---------------------------------------------------------------------------
  // Properties of check_consistency
  // ---------------------------------------------------------------------------

  /** A store's count for a table is the number of rows its select returns. */
  predicate CountsMatchRows<R>(s: Store<R>, countQuery: Statement, selectQuery: Statement) {
    countQuery in s.counts && selectQuery in s.results ==> s.counts[countQuery] == |s.results[selectQuery]|
  }

  /** Both stores count what they select, for every checked table. */
  predicate StoresCoherent<R>(src: Store<R>, dst: Store<R>) {
    forall t :: t in Tables ==>
      CountsMatchRows(src, CountQuery(t), SqliteSelect(t)) && CountsMatchRows(dst, CountQuery(PgTable(t)), PgSelect(t))
  }

  lemma {:induction false} ValuesFromPassIff<R, V>(src: Store<R>, dst: Store<R>, transform: R -> Row<V>, i: nat)
    requires i <= |Tables|
    ensures ValuesFrom(src, dst, transform, i) == Consistent <==>
            forall j :: i <= j < |Tables| ==> TableValuesAgree(src, dst, transform, Tables[j])
    decreases |Tables| - i
  {
    if i < |Tables| {
      var t := Tables[i];
      if SqliteSelect(t) in src.results && PgSelect(t) in dst.results {
        CompareRowsPassIff(t, Transformed(transform, src.results[SqliteSelect(t)]),
                              Transformed(transform, dst.results[PgSelect(t)]));
      }
      ValuesFromPassIff(src, dst, transform, i + 1);
    }
  }

  /** A passing `check_consistency` over stores whose counts describe their
      rows means: for every table the two stores hold equally many rows, and
      each SQLite row, transformed, agrees with the PostgreSQL row at the same
      position on every value both rows have. The count check running first
      makes the truncation of the outer `zip` over rows harmless here; the
      inner `zip` over items still compares only the shorter row's length. */
  lemma ConsistentMeansEqualTables<R, V>(src: Store<R>, dst: Store<R>, transform: R -> Row<V>, t: string)
    requires ConsistencyVerdict(src, dst, transform) == Consistent
    requires StoresCoherent(src, dst)
    requires t in Tables
    ensures CountsAgree(src, dst, t)
    ensures SqliteSelect(t) in src.results && PgSelect(t) in dst.results
    ensures |src.results[SqliteSelect(t)]| == |dst.results[PgSelect(t)]|
    ensures forall k :: 0 <= k < |src.results[SqliteSelect(t)]| ==>
              FieldsAgree(transform(src.results[SqliteSelect(t)][k]), transform(dst.results[PgSelect(t)][k]))
  {
    IntegrityPassIff<R, V>(src, dst);
    ValuesFromPassIff(src, dst, transform, 0);
    var j :| 0 <= j < |Tables| && Tables[j] == t;
    var xs, ys := src.results[SqliteSelect(t)], dst.results[PgSelect(t)];
    assert RowsAgree(Transformed(transform, xs), Transformed(transform, ys));
    forall k | 0 <= k < |xs|
      ensures FieldsAgree(transform(xs[k]), transform(ys[k]))
    {
      assert Transformed(transform, xs)[k] == transform(xs[k]);
      assert Transformed(transform, ys)[k] == transform(ys[k]);
    }
  }

  /** The value check never runs when the count check fails. */
  lemma CountFailureStopsTheCheck<R, V>(src: Store<R>, dst: Store<R>, transform: R -> Row<V>)
    requires IntegrityVerdict<R, V>(src, dst) != Consistent
    ensures ConsistencyVerdict(src, dst, transform) == IntegrityVerdict(src, dst)
    ensures !ConsistencyVerdict(src, dst, transform).ValueMismatch?
  {
  }

}
