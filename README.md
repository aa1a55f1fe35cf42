# admin_panel: migration driver, consistency verifier and schema, in Dafny

This project models three parts of the `admin_panel` movie catalogue. Each is stated in Dafny and its properties are proved.

- **Schema** (`models.dfy`, module `Models`). It covers the Django models of `movies/models.py`:
  - the five entities Genre, Person, Filmwork, PersonFilmwork and GenreFilmwork, as datatypes;
  - the `FilmType` choices and the `max_length=7` of `type`;
  - the inclusive 0–100 rating validators;
  - the unique constraints, written as validity predicates over sequences of rows;
  - the foreign keys;
  - the `__str__` methods;
  - the `", "`-joined display helpers `get_genres` and `get_persons`.
- **Consistency verifier** (`consistency_check.dfy`, module `ConsistencyCheck`). It covers `utils/consistency_check.py`:
  - the fixed table order and the `content.` name mapping;
  - the two query dictionaries of `get_query`;
  - `test_integrity`, which compares row counts and stops at the first mismatching table;
  - `test_tables_values`, which pairs rows and then values positionally with `zip`, truncating to the shorter side, and stops at the first differing value;
  - `check_consistency`, which runs the two checks in order.

  The loops are methods, proved against recursive specification functions. A store is a map from each statement it can answer to a count, or to a list of raw rows.
- **Migration driver** (`sqlite_to_psql.dfy`, module `SqliteToPsql`). It covers `load_from_sqlite` and its inner `load_and_save` in `utils/sqlite_to_psql.py`:
  - The saver is a class. Every call on it (entering and leaving `prepare_insert_context`, `save`) is appended to a `trace` field.
  - The extractor is a function from a table to the batches its generator yields, plus whether it raises after them.
  - Whether a `save` raises is decided by an `accepts` function. It looks at the batch and the calls made before it.
  - The two nested loops are methods proved equal to a specification of the run.
  - Lemmas on that specification cover:
    - completeness: each batch is saved exactly once, in yield order;
    - load order, with parents before join tables;
    - insert-context bracketing;
    - abort on the first exception.

`wrappers.dfy` holds the `Option` type.

Python exceptions are modelled as values:
- `get_query`'s `KeyError` becomes `None`.
- A failing `assert` in the checks becomes a `CountMismatch` or `ValueMismatch` verdict.
- A query a store cannot run becomes `QueryFailed`.
- An exception escaping `load_from_sqlite` becomes a `Status` other than `Loaded`.

## Model

| member | source | states |
|---|---|---|
| Models.ParseFilmType | movies/models.py:78-80 | a `type` value maps to a choice exactly when it is `"movie"` or `"tv_show"`, and the choice's value is that string |
| Models.ParseFilmTypeInverse | movies/models.py:78-80 | parsing yields choice `t` iff the string is `t`'s value; every choice's value parses back to it |
| Models.ChoicesFitMaxLength | movies/models.py:78-93 | both choice values pass the `type` column check; `"tv_show"` uses the whole `max_length` of 7 |
| Models.FilmTypeValidIffChoice | movies/models.py:93 | a `type` string is valid iff it is one of the two choice values |
| Models.RatingRangeInclusive | movies/models.py:85-92 | the rating validators accept exactly 0 <= r <= 100, bounds included |
| Models.GenreStrIdentifies | movies/models.py:30-33 | under the unique `name` constraint, two genres have the same `__str__` iff they are the same row |
| Models.NullRoleCreditsCoexist | movies/models.py:57-67 | two credits of one person on one film never violate the (film_work, person, role) constraint when either role is NULL |
| Models.SameRoleCreditsConflict | movies/models.py:62-67 | two credits with the same film, person and non-NULL role violate the constraint |
| Models.ForeignKeysOfJoinTables | movies/models.py:117-119 | only the two join tables (the keys here and at lines 55-56) reference Filmwork, and no table references a join table |
| Models.DbTableIsSchemaQualified | movies/models.py:36-37 | each `db_table` value (here and at lines 49, 61, 108, 123), once quoted, is the schema-qualified name `"content"."<table>"` |
| Models.Join | movies/models.py:97-103 | `", ".join` of no names is empty; otherwise it is as long as the names plus one separator between each pair |
| Models.JoinEmptyAndSingle | movies/models.py:97-103 | `", ".join` of no names is empty; of one name, that name |
| Models.JoinAppend | movies/models.py:97-103 | joining one more name appends the separator and the name |
| Models.JoinEnds | movies/models.py:97-103 | a join starts with the first name and ends with the last, so there is no leading or trailing separator |
| Models.GetGenres | movies/models.py:97-98 | `get_genres` is empty for a film without genres; otherwise it starts with the first genre's name and ends with the last one's |
| Models.GetPersons | movies/models.py:102-103 | `get_persons` is empty for a film without persons; otherwise it starts with the first person's full name and ends with the last one's |
| Models.NoLinksNothingRelated | movies/models.py:94-95 | a film without join rows in a many-to-many relation has no related rows |
| Models.DisplayOfUnlinkedFilm | movies/models.py:97-103 | `get_genres` and `get_persons` of a film with no links are both empty |
| Models.DisplayOfSingleGenre | movies/models.py:94-98 | in any content with unique genre ids, a film whose only genre link points at genre `g` displays exactly `g`'s name, whatever the links of other films |
| Models.UniqueKeyFindsOne | movies/models.py:20 | with unique primary keys, looking up a key some row has finds exactly one row, the one with that key |
| Models.MissingKeyFindsNone | movies/models.py:20 | a key no row has finds no row |
| Models.RelatedPerLink | movies/models.py:94-95 | when the film's join rows resolve to rows with unique keys, `.all()` has one entry per join row of the film, and entry `k` is the row the `k`-th join row points at |
| Models.GenreLinksResolve | movies/models.py:117-119 | under the database constraints genre ids are unique and every genre link of a film finds its genre |
| Models.CreditsResolve | movies/models.py:54-56 | under the database constraints person ids are unique and every credit of a film finds its person |
| Models.DisplayedGenresMatchLinks | movies/models.py:94-98 | in content meeting the key, unique and foreign-key constraints (not the field validators), `get_genres` lists one name per genre link of the film, and name `k` is that of the genre the `k`-th link points at |
| Models.DisplayedPersonsMatchCredits | movies/models.py:95-103 | in content meeting the key, unique and foreign-key constraints (not the field validators), `get_persons` lists one name per credit of the film, and name `k` is the full name of the person the `k`-th credit points at |
| Models.ConstraintsAdmitUnvalidatedFilm | movies/models.py:85-93 | the database constraints, including the `varchar(7)` width of `type`, admit a film rated 150 with type "cartoon", which the field validators reject: only model validation checks the choices of `type` and the 0-100 range of `rating` |
| Models.LinksOfUniqueGenres | movies/models.py:124-129 | under the (film_work, genre) constraint, no two links of one film point at the same genre |
| Models.DisplayedGenresDistinct | movies/models.py:117-129 | in content meeting the key, unique and foreign-key constraints (not the field validators), `get_genres` lists no genre twice and no name twice (the names are unique by line 33) |
| ConsistencyCheck.GetQuery | utils/consistency_check.py:40-69 | a query exists iff the table is one of the five; a truthy `is_pg` picks the PostgreSQL dictionary, `is_pg == 0` the SQLite one; every entry is a `SELECT` |
| ConsistencyCheck.PgTableSplits | utils/consistency_check.py:36-37 | `get_pg_table(t)` is `"content."` followed by `t`, and is injective |
| ConsistencyCheck.TablesOrder | utils/consistency_check.py:27-33 | the checked tables are the five schema tables in the order genre, person, film_work, person_film_work, genre_film_work, all distinct |
| ConsistencyCheck.PgTablesAreModelTables | utils/consistency_check.py:36-37 | the quoted `db_table` of each schema table is `"content"."<name>"`, and `get_pg_table` of its name is `content.<name>` |
| ConsistencyCheck.QueryKeysAreTables | utils/consistency_check.py:41-65 | both dictionaries are keyed by exactly the five checked tables |
| ConsistencyCheck.GetQuerySides | utils/consistency_check.py:40-69 | the default `is_pg=0` gives the SQLite query, any non-zero value the PostgreSQL one, and the two differ |
| ConsistencyCheck.QueriesDifferOnlyInSchema | utils/consistency_check.py:41-65 | for every table both queries select the same ordered columns with the same trailing `;`, from `t` and from `get_pg_table(t)` |
| ConsistencyCheck.TestIntegrity | utils/consistency_check.py:72-85 | the count loop's result is the specification verdict of the count check |
| ConsistencyCheck.IntegrityFrom | utils/consistency_check.py:76-85 | the count check never reports a value mismatch; a count failure names a checked table and two different counts |
| ConsistencyCheck.IntegrityPassIff | utils/consistency_check.py:76-85 | the count check passes iff, for every table, both stores answer their count queries with equal counts |
| ConsistencyCheck.IntegrityFailsAtFirstMismatch | utils/consistency_check.py:76-85 | a count failure names a table whose counts differ, reports both counts, and comes after tables whose counts all agree |
| ConsistencyCheck.CompareFields | utils/consistency_check.py:97-102 | comparing a row pair either passes or names two different values of that table |
| ConsistencyCheck.CompareRowItems | utils/consistency_check.py:97-102 | the field loop's result is the specification comparison of one row pair |
| ConsistencyCheck.CompareFieldsPassIff | utils/consistency_check.py:97-102 | a row pair passes iff the values at each position both rows have are equal; column names are not compared |
| ConsistencyCheck.CompareFieldsFailsAtFirst | utils/consistency_check.py:97-102 | a row-pair failure is at the first differing position; it names the SQLite column and both values |
| ConsistencyCheck.CompareRows | utils/consistency_check.py:96-102 | comparing two row lists either passes or names two different values of that table |
| ConsistencyCheck.CompareTableRows | utils/consistency_check.py:96-102 | the row loop's result is the specification comparison of the two row lists |
| ConsistencyCheck.CompareRowsPassIff | utils/consistency_check.py:96-102 | two row lists pass iff every pair at a position both lists have passes |
| ConsistencyCheck.CompareRowsFailsAtFirst | utils/consistency_check.py:96-102 | a failing row comparison stops at the first row pair that differs, at its first differing value; all earlier pairs and earlier values of that pair agree |
| ConsistencyCheck.CompareRowsIgnoresTail | utils/consistency_check.py:96 | rows beyond the shorter list never change the outcome, on either side |
| ConsistencyCheck.ValueCheckMissesTruncation | utils/consistency_check.py:96 | a destination holding only a prefix of the source rows passes the value comparison |
| ConsistencyCheck.TestTablesValues | utils/consistency_check.py:88-102 | the table loop's result is the specification verdict of the value check |
| ConsistencyCheck.ValuesFrom | utils/consistency_check.py:91-102 | the value check never reports a count mismatch; a value failure names a checked table and two different values |
| ConsistencyCheck.ValuesFromPassIff | utils/consistency_check.py:91-102 | the value check passes iff, for every table, both stores answer its queries and the transformed rows agree positionally |
| ConsistencyCheck.ValuesFromFailsAtFirst | utils/consistency_check.py:91-102 | a value failure comes from the first table, in the checked order, whose rows differ, at its first differing row pair and value; every earlier table was answered by both stores and agreed |
| ConsistencyCheck.ConsistencyVerdict | utils/consistency_check.py:105-110 | a count failure names two different counts, a value failure two different values, and a value failure is reported only when the count check passed |
| ConsistencyCheck.ValueFailureIsFirstMismatch | utils/consistency_check.py:105-110 | when the verifier reports a value failure, every table's counts agreed, and the failure is the first differing value of the first differing row pair of the first differing table |
| ConsistencyCheck.CheckConsistency | utils/consistency_check.py:105-110 | the verifier's result is the combined specification verdict: the count check, then the value check |
| ConsistencyCheck.CountFailureStopsTheCheck | utils/consistency_check.py:109-110 | a failing count check is the verifier's outcome, and the value check is never reported |
| ConsistencyCheck.ConsistentMeansEqualTables | utils/consistency_check.py:105-110 | a passing run over stores whose counts match their row lists implies, for every table, equal counts, equal row numbers, and for each row pair equal values at every position both transformed rows have (column names are not compared, items past the shorter row are not looked at) |
| SqliteToPsql.Rank | utils/sqlite_to_psql.py:50 | every table has a position in the load tuple, and the tuple holds that table at that position |
| SqliteToPsql.PostgresSaver.constructor | utils/sqlite_to_psql.py:48 | a new saver has made no calls and keeps the destination's `accepts` |
| SqliteToPsql.PostgresSaver.EnterInsertContext | utils/sqlite_to_psql.py:53 | entering the insert context appends one entry event and changes nothing else |
| SqliteToPsql.PostgresSaver.ExitInsertContext | utils/sqlite_to_psql.py:53-55 | leaving the insert context appends one exit event |
| SqliteToPsql.PostgresSaver.Save | utils/sqlite_to_psql.py:55 | `save` appends one save event for that table and batch; it succeeds as the destination decides given the calls before it |
| SqliteToPsql.LoadAndSave | utils/sqlite_to_psql.py:52-55 | after the call, the saver's trace and the outcome are exactly those of the specification of one table's load |
| SqliteToPsql.LoadFromSqlite | utils/sqlite_to_psql.py:45-58 | after the call, the trace and the outcome are exactly those of the specification run over the load tuple |
| SqliteToPsql.SaveBatches | utils/sqlite_to_psql.py:54-55 | the batch loop saves at most the batches it is given, and ends either normally or with a failing `save` of its table |
| SqliteToPsql.LoadTable | utils/sqlite_to_psql.py:52-55 | one table's load begins by entering and ends by leaving that table's context, between them at most one save per batch; a failure names that table |
| SqliteToPsql.LoadTables | utils/sqlite_to_psql.py:57-58 | a failing run names one of the tables it drives |
| SqliteToPsql.SaveBatchesShape | utils/sqlite_to_psql.py:54-55 | the batch loop saves a prefix of the batches in order; it ends normally only after every batch was accepted, and otherwise every batch before the last one saved was accepted and the last one was refused, each batch judged on the calls before it |
| SqliteToPsql.SaveBatchesAllAccepted | utils/sqlite_to_psql.py:54-55 | when no `save` raises, every batch is saved |
| SqliteToPsql.LoadTableShape | utils/sqlite_to_psql.py:52-55 | one table's load is entry, a prefix of its batches, exit; it ends normally only if every batch was saved and accepted and the generator did not raise; a failing `save` is the refused last batch after accepted ones |
| SqliteToPsql.SuccessfulRunIsComplete | utils/sqlite_to_psql.py:52-58 | a run that returns made exactly the calls of a complete run: each table's context with all its batches, table after table, and no extraction raised |
| SqliteToPsql.FailedRunStopsAtFailingTable | utils/sqlite_to_psql.py:45-58 | a run that raises ends at some table: complete calls for the tables before it, then a prefix of that table's batches inside its context, and nothing after |
| SqliteToPsql.CleanSourceLoadsFully | utils/sqlite_to_psql.py:52-58 | when no extraction and no `save` raises, the run returns |
| SqliteToPsql.RunTouchesOnlyItsTables | utils/sqlite_to_psql.py:57-58 | every call of a run concerns one of the tables it drives |
| SqliteToPsql.RunFollowsOrder | utils/sqlite_to_psql.py:52-58 | when the tables come in increasing load order, the calls never return to an earlier table, so all of one table's batches are saved before the next table begins |
| SqliteToPsql.RunContextsBalanced | utils/sqlite_to_psql.py:53-55 | whatever the outcome, every save is inside its table's context, contexts never nest, and every context entered is left |
| SqliteToPsql.SaveInsideItsContext | utils/sqlite_to_psql.py:53-55 | in a balanced trace, the context open at each save is that save's table |
| SqliteToPsql.ExpectedSavesEachBatchOnce | utils/sqlite_to_psql.py:54-55 | in a complete run over distinct tables, the batches saved for a table are exactly what its extraction yielded, in order |
| SqliteToPsql.LoadOrderStrictlyRanked | utils/sqlite_to_psql.py:50 | the load tuple is in increasing load order, has no repeats and holds all five tables |
| SqliteToPsql.LoadOrderMatchesCheckOrder | utils/sqlite_to_psql.py:50 | the load tuple names the tables in the order the consistency verifier checks them |
| SqliteToPsql.ParentsRankedFirst | utils/sqlite_to_psql.py:50 | every table a foreign key points at comes before the table holding the key |
| SqliteToPsql.LoadFromSqliteOrdered | utils/sqlite_to_psql.py:50-58 | the calls of `load_from_sqlite` follow load order, and every call for a referenced parent table precedes every call for a join table that references it |
| SqliteToPsql.LoadFromSqliteSavesInContext | utils/sqlite_to_psql.py:53-55 | every `save` of `load_from_sqlite` happens inside its own table's insert context, and every context is left, including on an exception |
| SqliteToPsql.LoadFromSqliteSavesEveryBatch | utils/sqlite_to_psql.py:54-55 | a run that returns has given every batch each extraction yielded to `save` exactly once, in yield order, with the same table |
| SqliteToPsql.LoadFromSqliteAbortsRemaining | utils/sqlite_to_psql.py:45-58 | an exception in one table aborts the rest of the run: no later table is touched, and the last call leaves the failing table's context |

## Notes on the code

- `test_integrity` asserts inside its loop (utils/consistency_check.py:82), so it stops at the first table whose counts differ (`IntegrityFailsAtFirstMismatch`).
- The queries of `get_query` (utils/consistency_check.py:41-65) have no `ORDER BY`. The value check pairs rows in whatever order each store returns them (`CompareRowsIgnoresTail`, `ValueCheckMissesTruncation`).
- `creation_date` and `rating` (movies/models.py:84-92) are declared `blank=True` but not `null=True`, so both are NOT NULL columns; `blank=True` only lets a form leave them empty. `Filmwork` therefore holds a plain `Date` and a plain `real`.
- The (film_work, person, role) constraint follows PostgreSQL's default that NULLs are distinct. Two credits whose role is NULL never clash (`NullRoleCreditsCoexist`).
- The consistency verifier checks counts before values, so the truncation of the outer `zip` over rows (utils/consistency_check.py:96) cannot hide missing rows in a passing run. This holds for stores whose counts describe their row lists (`ConsistentMeansEqualTables`).
- Nothing covers the inner `zip` over a row's items (utils/consistency_check.py:97). A transformed row that lacks trailing items, or whose column names differ, still passes (`CompareFieldsPassIff`).

## Left out

- Connections, cursors, `execute`, `fetchone` and `fetchall` are I/O. Each store is given as the answers it returns.
- SQL evaluation is not modelled. Queries are structured statements (columns, table, trailing `;`), not text, and `COUNT(*)` is whatever count the store gives.
- `SQLiteExtractor.transform`, `SQLiteExtractor.extract` and the internals of `PostgresSaver` are not part of this model. They appear as function parameters:
  - `transform` maps a raw row to its items;
  - `extract` maps a table to its batches and whether it raises;
  - `accepts` stands for the destination's answer to `save`.
- What `PostgresSaver` does to the destination (its insert statements, its conflict handling) is not modelled. Only the order and content of the calls made on it are.
- The order of Python's lazy `map`/generator evaluation is not modelled. An extraction that raises is modelled as raising after its last batch, and all rows are fetched before they are compared.
- The failure messages of the `assert` statements are not modelled. The verdicts carry the values the messages show (table, column, counts, values).
- Running under `python -O`, which strips the checks' `assert` statements, is not modelled.
- Python's `==` on row values is modelled as Dafny equality, which is reflexive. A float NaN would fail the source's `assert` even against itself; the model, and `ValueCheckMissesTruncation` in particular, assumes no such value.
- Logging and both `__main__` blocks are not modelled. They only set up connections and log exceptions.
- The Django ORM machinery is not modelled: `uuid4` defaults, `auto_now`, translations, indexes, cascades and `blank` form validation. Timestamps and dates are plain integers.
- `prepare_insert_context` is assumed to enter and leave without raising and never to suppress an exception. A context manager whose `__exit__` returned true would swallow a failing `save` and let the run go on to the next table; `LoadFromSqliteAbortsRemaining` and `FailedRunStopsAtFailingTable` rely on this assumption.
- `transform` is a total function here. A `transform` that raised would do so lazily inside the `zip` of `test_tables_values`; that exception is not a verdict of the model.
- `genres.all()` and `persons.all()` have no ordering in the source, so the database chooses the order. `Related`, below `GenresOf` and `PersonsOf`, lists the genres and persons in join-table order. The order-dependent statements (`GetGenres`, `GetPersons`, `DisplayedGenresMatchLinks`, `DisplayedPersonsMatchCredits`) describe that one order.
- The translated labels of the `FilmType` choices are not modelled. Only the stored values are.
- `rating` is a Python float. It is modelled as a Dafny `real` and only its range is stated.
- config/settings.py is configuration only and is not part of this model.
