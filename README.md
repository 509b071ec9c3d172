# Cloud Spanner DB-API driver: cursor and connection state machines

This project models the core of the DB-API (PEP 249) driver for Cloud Spanner in
python-spanner-django. That core is three objects:

- The `Cursor` of `google/cloud/spanner_dbapi/cursor.py`. It has a closed flag and a
  connection reference. It also holds the current result stream, a peek iterator over
  that stream, a row count, an array size and the DDL statements it has run.
  - `execute` checks that the cursor and its connection are open. It then drops the
    current stream and routes the statement by its class:
    - DDL goes to a schema update;
    - read-only SQL goes to a snapshot query;
    - an `INSERT` becomes one bulk insert or a series of statements in one transaction;
    - anything else is run through `execute_update` in one transaction.
  - Four named backend exceptions are translated into DB-API errors.
  - `executemany` runs `execute` once per parameter set.
  - The fetch methods hand out the iterator's rows.
  - `description` and `Column.__str__` describe the result's columns.
- The `Connection` of `google/cloud/spanner_dbapi/connection.py`. It is a closed flag
  with fixed settings, and it refuses `commit` and `rollback`.
- The older autocommit `Connection` of `spanner/dbapi/autocommit_on_connection.py`. It
  holds a database handle, a closed flag and a queue of DDL statements. The queue is
  flushed as one schema update before a commit or a table listing.

The database handle is a class, `Backend.Database`:

- Every call made on it is appended to its `log`.
- It answers each call from fixed oracles, keyed by the call's position in the log.
  Each call that can fail has its own oracle: beginning a transaction, a schema
  update, a snapshot query (which may also fail on reading its first chunk), reading
  a transaction statement's result, an update and a commit. A bulk insert and a
  transaction's `execute_sql` only record the call; their failures surface when the
  result is read or at commit. A retry of an aborted transaction is not modelled.

The SQL helpers (`classify_stmt`, `parse_insert`, `sql_pyformat_args_to_spanner`,
`get_param_types`, `ensure_where_clause`) are function fields of `Backend.Parser`.

The model has two layers:

- Module `CursorModel` states what each cursor operation does. Each one is a function
  of the cursor's state, the connection's closed flag, the helpers and the oracles. It
  returns the new state, the calls made (in order) and how the operation ended.
- The class `SpannerDbapi.Cursor` updates its fields in place. Each of its methods is
  proved to leave the state and the log exactly as the matching function says.

The lemmas in `CursorModel` state what the driver promises about those functions.

Modules, one per file:

- `DbapiErrors` (errors.dfy): exceptions and their translation.
- `Backend` (backend.dfy): values, calls, the database handle and the helpers.
- `Fetch` (fetch.dfy): the row iterator.
- `Description` (description.dfy): `description` and `Column`.
- `CursorModel` (cursor_model.dfy).
- `SpannerDbapi` (spanner_dbapi.dfy): the classes `Connection` and `Cursor`.
- `AutocommitOnConnection` (autocommit_connection.dfy).
- `AsWritten` (as_written.dfy): the two defects listed under Findings, as written.

Where the code departs from its evident intent, the model follows the intent. It also
models the code as written, beside it; see "## Findings".

Two behaviours of the code that a reader might not expect are modelled as written:

- `executemany` on a closed cursor raises `ProgrammingError`
  (google/cloud/spanner_dbapi/cursor.py:176-177). It only looks at the connection
  reference, which `close` drops. The repository's own test
  `test_executemany_on_closed_cursor` (tests/spanner_dbapi/test_cursor.py:136-145)
  expects `InterfaceError`; the model follows the code.
- `execute` drops the current stream first (cursor.py:154). A read-only query then
  assigns its new stream before reading the first row (cursor.py:317-320), so when
  that read fails the exception is raised with the new stream already current.

## Model

| member | source | states |
|---|---|---|
| DbapiErrors.Translate | google/cloud/spanner_dbapi/cursor.py:168-173 | `AlreadyExists` and `FailedPrecondition` become `IntegrityError`. `InvalidArgument` becomes `ProgrammingError`. `InternalServerError` becomes `OperationalError`. Each carries the backend's details. Every other exception passes unchanged. Each direction is stated as an iff. |
| DbapiErrors.TranslateStatus | google/cloud/spanner_dbapi/cursor.py:168-173 | A normal ending stays normal. A raised exception is raised translated. |
| DbapiErrors.TranslateIdempotent | google/cloud/spanner_dbapi/cursor.py:168-173 | Translating an exception twice is the same as translating it once. |
| DbapiErrors.FromBackend | google/cloud/spanner_dbapi/cursor.py:338-339 | A backend call ends normally exactly when it reports no error. Otherwise that error is raised untranslated. |
| Backend.OrNone | google/cloud/spanner_dbapi/cursor.py:162-167 | `args or None`: an empty sequence or mapping counts as no arguments. Any other argument is passed on unchanged. |
| Backend.Prepare | google/cloud/spanner_dbapi/cursor.py:237-241 | The statement sent is the rewritten SQL and parameters. It carries the parameter types derived from the rewritten parameters. |
| Fetch.Start | google/cloud/spanner_dbapi/cursor.py:317-320 | The iterator placed over a new stream has every row of the stream still to hand out. |
| Fetch.Advance | google/cloud/spanner_dbapi/cursor.py:220-223 | `next` gives `None` exactly when no rows remain, and then moves nothing. Otherwise it hands out the first remaining row, and the rest remain. |
| Fetch.TakeMany | google/cloud/spanner_dbapi/cursor.py:204-214 | At most `size` rows are handed out, none for a size of zero or less. There are fewer only when the rows run out. The rows handed out, followed by those left, are the rows that remained before. |
| Fetch.TakeAll | google/cloud/spanner_dbapi/cursor.py:216-218 | Hands out exactly the remaining rows and leaves none. |
| Fetch.FetchManyRun | google/cloud/spanner_dbapi/cursor.py:189-214 | Successive `fetchmany` calls hand out the remaining rows in order, each row once. What they hand out, followed by what is left, is what remained. |
| Fetch.FetchManyThenAll | google/cloud/spanner_dbapi/cursor.py:189-218 | Any run of `fetchmany` calls followed by `fetchall` yields exactly what one `fetchall` yields. |
| Fetch.TakeManyStop | google/cloud/spanner_dbapi/cursor.py:204-214 | `fetchmany` stops after `size` rows or at the end of the rows, whichever comes first, and hands out exactly the rows it passed. |
| Fetch.TakeManySplit | google/cloud/spanner_dbapi/cursor.py:204-214 | `fetchmany(a)` then `fetchmany(b)` equals `fetchmany(a + b)`, in rows and in the iterator left. |
| Fetch.AdvanceIsTakeOne | google/cloud/spanner_dbapi/cursor.py:182-214 | `fetchone` agrees with `fetchmany(1)`. |
| Description.DisplaySize | google/cloud/spanner_dbapi/cursor.py:47-53 | Exactly BOOL, DATE, FLOAT64, INT64 and TIMESTAMP have a display size. Each size is between 1 and 12, and it is 8 exactly for FLOAT64 and INT64. |
| Description.Describe | google/cloud/spanner_dbapi/cursor.py:109-132 | `None` exactly when there is no stream or no metadata yet. Otherwise there is one column per field, in order, with the field's name and type code, the table's display size and the field's size. Precision and scale are unset and `null_ok` is false. |
| Description.NatToString | google/cloud/spanner_dbapi/cursor.py:369-376 | Python's `str` of a number is non-empty, all decimal digits, and has no leading zero. |
| Description.NatToStringRoundTrip | google/cloud/spanner_dbapi/cursor.py:369-376 | The decimal text of a number reads back as that number. |
| Description.Join | google/cloud/spanner_dbapi/cursor.py:365-387 | `", ".join` of no items is empty. Of one item, it is that item. |
| Description.JoinStartsWithFirst | google/cloud/spanner_dbapi/cursor.py:365-387 | A joined list starts with its first item. |
| Description.ColumnOf | google/cloud/spanner_dbapi/cursor.py:122-130 | The column has the field's name and type code and the field's size as internal size. It has a display size exactly for BOOL, DATE, FLOAT64, INT64 and TIMESTAMP. Precision and scale are unset and `null_ok` is false. |
| Description.ColumnStr | google/cloud/spanner_dbapi/cursor.py:364-389 | `str(column)` starts with `Column(` and ends with `)`. |
| Description.ColumnItems | google/cloud/spanner_dbapi/cursor.py:365-386 | The text items always start with the quoted name and then the type code's number. |
| Description.ColumnItemsCount | google/cloud/spanner_dbapi/cursor.py:365-386 | Besides those two, there is exactly one item for each truthy optional field. Unset and zero fields are dropped. |
| Description.ColumnStrShape | google/cloud/spanner_dbapi/cursor.py:364-389 | `str(column)` opens with `Column(name='<name>'` and closes with `)`. |
| Description.ColumnStrExample | google/cloud/spanner_dbapi/cursor.py:364-389 | A column with type code 8, internal size 10 and precision 3 prints as `Column(name='col-name', type_code=8, internal_size=10, precision='3')`. |
| Description.ExampleItems | google/cloud/spanner_dbapi/cursor.py:365-386 | The items of that example column are exactly the four shown. |
| CursorModel.Fresh | google/cloud/spanner_dbapi/cursor.py:83-90 | A new cursor is open, with no stream, no iterator and no DDL statements. The row count is unset (-1) and the array size is 1. |
| CursorModel.Guard | google/cloud/spanner_dbapi/cursor.py:65-72 | The checks pass exactly when both the cursor and the connection are open. The cursor's own flag is checked first, each with its `InterfaceError` message. |
| CursorModel.InsertEachShape | google/cloud/spanner_dbapi/cursor.py:278-287 | A run that did not fail made two calls per list item. A failed run made at most that many, and its failure is the backend's answer to its last call, the reading of the failing statement's result. |
| CursorModel.InsertEachSnoc | google/cloud/spanner_dbapi/cursor.py:278-287 | If the run so far did not fail, one more item executes its rewritten statement and then reads its result; the run fails exactly when that reading fails. |
| CursorModel.InsertEachCalls | google/cloud/spanner_dbapi/cursor.py:278-287 | The calls are, pair by pair, the rewritten statement of each list item in list order, followed by reading its result. |
| CursorModel.InsertEachDrains | google/cloud/spanner_dbapi/cursor.py:278-287 | Every result read before the last one of a run succeeded, and so did the last one if the run did not fail. |
| CursorModel.InsertEachStops | google/cloud/spanner_dbapi/cursor.py:278-287 | Once a statement fails, no later statement runs. |
| CursorModel.InsertEachOwned | google/cloud/spanner_dbapi/cursor.py:278-287 | Every call of a heterogeneous insert belongs to the insert handler. |
| CursorModel.HandleInsertHomogeneous | google/cloud/spanner_dbapi/cursor.py:264-268 | A homogeneous insert begins a transaction; if beginning fails, that error is raised and nothing more is sent. Otherwise it is one bulk insert of the parsed table, columns and values, then the commit, whose answer is the outcome. The cursor's state is untouched. |
| CursorModel.HandleInsertHeterogeneous | google/cloud/spanner_dbapi/cursor.py:267-276 | A heterogeneous insert begins a transaction; if beginning fails, that error is raised and nothing more is sent. Otherwise it runs the list. A failure is raised as that backend error with no commit. Otherwise the commit follows and its answer is the outcome. The cursor's state is untouched. |
| CursorModel.HandleInsertOwned | google/cloud/spanner_dbapi/cursor.py:248-287 | An insert makes at least one call, and every call other than begin and commit is one of the insert handler's own. |
| CursorModel.Execute | google/cloud/spanner_dbapi/cursor.py:140-173 | `execute` never changes the closed flag or the array size, and it keeps the iterator valid. Its full behaviour is stated by the lemmas below. |
| CursorModel.RunDdl | google/cloud/spanner_dbapi/cursor.py:337-339 | After the checks, one schema update of the statement; it ends normally exactly when the update reports no error. The state is untouched. A failed check sends nothing and raises its error. |
| CursorModel.HandleDql | google/cloud/spanner_dbapi/cursor.py:296-323 | After the checks, one snapshot query of the prepared statement. A stream whose first chunk was read becomes current, with an iterator over all its rows from the start and a `description`. The closed flag, array size and DDL list never change. A failed check sends nothing. |
| CursorModel.InsertEach | google/cloud/spanner_dbapi/cursor.py:278-287 | At most two calls per list item. |
| CursorModel.HandleInsert | google/cloud/spanner_dbapi/cursor.py:248-276 | An insert begins with a begin call and leaves the cursor's state untouched. A failed begin is raised and is the only call. An insert that ends normally ends with a commit. |
| CursorModel.HandleUpdate | google/cloud/spanner_dbapi/cursor.py:230-246 | After the checks, begin comes first; a failed begin is raised and is the only call. An update that ends normally is exactly begin, the update with a WHERE clause ensured, commit, and it drops the iterator. The closed flag, stream, array size and DDL list never change. |
| CursorModel.Route | google/cloud/spanner_dbapi/cursor.py:157-167 | Routing never changes the closed flag or the array size. The statement joins the DDL list exactly when it is DDL. |
| CursorModel.ExecuteMany | google/cloud/spanner_dbapi/cursor.py:175-180 | Only appends to the log. A closed cursor raises `ProgrammingError` and changes nothing. An empty list of parameter sets changes nothing. |
| CursorModel.ExecuteGuardFirst | google/cloud/spanner_dbapi/cursor.py:65-72 | A closed cursor, or an open cursor of a closed connection, raises the matching `InterfaceError`. It makes no call and changes nothing. |
| CursorModel.ExecuteOneHandler | google/cloud/spanner_dbapi/cursor.py:157-167 | Once the checks pass, `execute` calls the database. Every call it makes, other than begin and commit, belongs to the handler for the statement's class. |
| CursorModel.ExecuteCalls | google/cloud/spanner_dbapi/cursor.py:157-167 | A DDL statement is one schema update of that statement, and it joins the DDL list. A read-only statement is one snapshot query. A homogeneous insert is begin, one bulk insert, commit. Any other statement begins a transaction and runs through `execute_update` with a WHERE clause ensured. When beginning the transaction fails, begin is the only call. |
| CursorModel.HeterogeneousInsertRunsAll | google/cloud/spanner_dbapi/cursor.py:248-287 | A successful heterogeneous insert runs every statement of its list, in order, each result read to the end, between one begin and one commit. |
| CursorModel.HandleInsertRunsAll | google/cloud/spanner_dbapi/cursor.py:267-287 | The same, for the insert handler on its own: `2n + 2` calls, begin first, commit last, and the item pairs in between. |
| CursorModel.ExecuteStream | google/cloud/spanner_dbapi/cursor.py:154-163 | After `execute`, the current stream is the read-only query's stream if it returned one. After a successful first read that stream carries its metadata, so `description` has one column per field. A stream whose first read failed stays current. Otherwise there is no stream, and `description` is `None`. |
| CursorModel.ExecuteIteratorAndCount | google/cloud/spanner_dbapi/cursor.py:296-323 | How each path leaves the iterator and the row count. A stream gives a fresh iterator over its rows and an unknown count. An integer result becomes the count. A returned update drops the iterator; an update whose transaction could not begin leaves both alone. DDL and inserts leave both alone. |
| CursorModel.ExecuteTranslatesNamedErrors | google/cloud/spanner_dbapi/cursor.py:168-173 | No backend exception of the four named kinds leaves `execute` untranslated. |
| CursorModel.ExecuteDdlFailure | google/cloud/spanner_dbapi/cursor.py:337-339 | A failed schema update is raised as its DB-API translation, with the backend's details. |
| CursorModel.SequenceExtends | google/cloud/spanner_dbapi/cursor.py:175-180 | A run of `execute` calls only appends to the call log. |
| CursorModel.SequenceAppend | google/cloud/spanner_dbapi/cursor.py:175-180 | Running over `a + b` means running over `a` and then, unless that raised, over `b` from where `a` left off. |
| CursorModel.SequenceSnoc | google/cloud/spanner_dbapi/cursor.py:179-180 | One more parameter set runs one more `execute` from the state and log left so far. |
| CursorModel.SequenceStops | google/cloud/spanner_dbapi/cursor.py:179-180 | After an `execute` raises, the later parameter sets are never used. |
| CursorModel.ExecuteEachAppend | google/cloud/spanner_dbapi/cursor.py:175-180 | `executemany` over `a + b` is `executemany` over `a`, then (unless that raised) over `b`. |
| CursorModel.ExecuteEachOne | google/cloud/spanner_dbapi/cursor.py:175-180 | `executemany` with one parameter set is exactly one `execute`. |
| CursorModel.ExecuteManyOnClosedCursor | google/cloud/spanner_dbapi/cursor.py:175-177 | On a closed cursor, `executemany` raises `ProgrammingError`. It makes no call and changes nothing. |
| CursorModel.Next | google/cloud/spanner_dbapi/cursor.py:220-223 | Keeps the iterator valid. Its results are stated in `Fetch.Advance` and `FetchWithoutIterator`. |
| CursorModel.FetchOne | google/cloud/spanner_dbapi/cursor.py:182-187 | Keeps the iterator valid. Its results are stated in `FetchOneAtEnd` and `FetchWithoutIterator`. |
| CursorModel.FetchMany | google/cloud/spanner_dbapi/cursor.py:189-214 | Keeps the iterator valid. Its results are stated in `FetchManyBound` and `FetchManyThenFetchAll`. |
| CursorModel.FetchAll | google/cloud/spanner_dbapi/cursor.py:216-218 | Keeps the iterator valid. Its results are stated in `FetchAllRemaining` and `FetchWithoutIterator`. |
| CursorModel.FetchManyBound | google/cloud/spanner_dbapi/cursor.py:189-214 | At most `size` rows (by default `arraysize`), fewer only at the end. Together with the rows left, they are the rows that remained. |
| CursorModel.FetchOneAtEnd | google/cloud/spanner_dbapi/cursor.py:182-187 | `fetchone` returns `None` exactly when no rows remain, and then changes nothing. |
| CursorModel.FetchAllRemaining | google/cloud/spanner_dbapi/cursor.py:216-218 | `fetchall` returns exactly the remaining rows and leaves none. |
| CursorModel.FetchWithoutIterator | google/cloud/spanner_dbapi/cursor.py:220-228 | With no result, `__next__`, `fetchone` and `fetchall` raise `ProgrammingError("no results to return")`. The closed checks come first. |
| CursorModel.FetchManyRowsRun | google/cloud/spanner_dbapi/cursor.py:189-214 | `fetchmany` calls on a cursor hand out what `Fetch.FetchManyRun` hands out on its iterator, and leave that run's iterator in the cursor. |
| CursorModel.FetchManyThenFetchAll | google/cloud/spanner_dbapi/cursor.py:189-218 | On a cursor, `fetchmany` calls followed by `fetchall` hand out every remaining row once, in order. Derived from `FetchManyRowsRun` and `Fetch.FetchManyThenAll`. |
| CursorModel.FetchManyState | google/cloud/spanner_dbapi/cursor.py:189-214 | `fetchmany` calls leave an open cursor with a valid iterator. |
| SpannerDbapi.TransactionModeFor | google/cloud/spanner_dbapi/connection.py:42-46 | At construction the mode is read-only exactly when the connection is read-only. The mode is fixed then and does not follow later changes to `read_only`. |
| SpannerDbapi.Connection.constructor | google/cloud/spanner_dbapi/connection.py:37-55 | The defaults: open; autocommit; read-write; transactional DML; no timeout or timestamps; not inside a transaction; no staleness. |
| SpannerDbapi.Connection.Cursor | google/cloud/spanner_dbapi/connection.py:69-74 | A closed connection raises `InterfaceError`. Otherwise the result is a new, open cursor over this connection. |
| SpannerDbapi.Connection.Close | google/cloud/spanner_dbapi/connection.py:76-81 | Sets the closed flag and nothing else. |
| SpannerDbapi.Connection.Commit | google/cloud/spanner_dbapi/connection.py:83-88 | Always raises the autocommit-only `Warning`. |
| SpannerDbapi.Connection.Rollback | google/cloud/spanner_dbapi/connection.py:90-95 | Always raises the autocommit-only `Warning`. |
| SpannerDbapi.Connection.Exit | google/cloud/spanner_dbapi/connection.py:97-101 | Leaving a `with` block closes the connection. The block's exception, if any, propagates. |
| SpannerDbapi.Cursor.constructor | google/cloud/spanner_dbapi/cursor.py:83-90 | A new cursor over `c` is in the state `Fresh()`. |
| SpannerDbapi.Cursor.IsClosed | google/cloud/spanner_dbapi/cursor.py:92-99 | True exactly when the guarded operations refuse to run. |
| SpannerDbapi.Cursor.Close | google/cloud/spanner_dbapi/cursor.py:134-138 | Drops the connection and sets the flag, so the invariant `connection == null <==> closed` holds. Nothing else changes. |
| SpannerDbapi.Cursor.Exit | google/cloud/spanner_dbapi/cursor.py:328-329 | Leaving a `with` block closes the cursor. |
| SpannerDbapi.Cursor.RunDdlStatements | google/cloud/spanner_dbapi/cursor.py:337-339 | The state and log are exactly `CursorModel.RunDdl`. |
| SpannerDbapi.Cursor.HandleDql | google/cloud/spanner_dbapi/cursor.py:296-323 | The state and log are exactly `CursorModel.HandleDql`. |
| SpannerDbapi.Cursor.DoExecuteUpdate | google/cloud/spanner_dbapi/cursor.py:235-246 | Sends the rewritten statement with a WHERE clause. Once it returns, the iterator is dropped, and an integer result becomes the row count. A failure changes no state. |
| SpannerDbapi.Cursor.HandleUpdate | google/cloud/spanner_dbapi/cursor.py:230-233 | The state and log are exactly `CursorModel.HandleUpdate`. A failed begin is raised at once. The commit comes only after the update returned. |
| SpannerDbapi.Cursor.DoExecuteInsertHomogeneous | google/cloud/spanner_dbapi/cursor.py:289-294 | Exactly one bulk insert of the parsed table, columns and values. |
| SpannerDbapi.Cursor.DoExecuteInsertHeterogeneous | google/cloud/spanner_dbapi/cursor.py:278-287 | The log grows by exactly `InsertEach`'s calls, and the result is its error. |
| SpannerDbapi.Cursor.InsertHeterogeneousTransaction | google/cloud/spanner_dbapi/cursor.py:270-276 | Begin, then the run, then a commit only if the run did not fail. A failed begin is raised at once, and nothing more is sent. A failure of the run is raised as the backend error; otherwise the commit's answer is the outcome. |
| SpannerDbapi.Cursor.HandleInsert | google/cloud/spanner_dbapi/cursor.py:248-276 | The state and log are exactly `CursorModel.HandleInsert`. |
| SpannerDbapi.Cursor.Execute | google/cloud/spanner_dbapi/cursor.py:140-173 | The state and log are exactly `CursorModel.Execute`. A closed cursor raises `InterfaceError` and changes nothing. |
| SpannerDbapi.Cursor.ExecuteMany | google/cloud/spanner_dbapi/cursor.py:175-180 | The state and log are exactly `CursorModel.ExecuteMany`: one `execute` per parameter set, in order, stopping at the first that raises. |
| SpannerDbapi.Cursor.Next | google/cloud/spanner_dbapi/cursor.py:220-223 | The state and result are exactly `CursorModel.Next`. |
| SpannerDbapi.Cursor.Iter | google/cloud/spanner_dbapi/cursor.py:225-228 | Fails exactly when there is no iterator, with `ProgrammingError`. Otherwise it returns the cursor's iterator as it stands, as a value (see "## Left out"). |
| SpannerDbapi.Cursor.FetchOne | google/cloud/spanner_dbapi/cursor.py:182-187 | The state and result are exactly `CursorModel.FetchOne`. |
| SpannerDbapi.Cursor.FetchMany | google/cloud/spanner_dbapi/cursor.py:189-214 | Its loop of `__next__` calls gives exactly `CursorModel.FetchMany`'s rows and state. |
| SpannerDbapi.Cursor.FetchAll | google/cloud/spanner_dbapi/cursor.py:216-218 | The state and result are exactly `CursorModel.FetchAll`. |
| SpannerDbapi.Cursor.SetInputSizes | google/cloud/spanner_dbapi/cursor.py:331-332 | Always raises `ProgrammingError("Unimplemented")`. |
| SpannerDbapi.Cursor.SetOutputSize | google/cloud/spanner_dbapi/cursor.py:334-335 | Always raises `ProgrammingError("Unimplemented")`. |
| AutocommitOnConnection.ClosedCheck | spanner/dbapi/autocommit_on_connection.py:18-23 | Raises `Error("attempting to use an already closed connection")` exactly when closed. |
| AutocommitOnConnection.DdlSent | spanner/dbapi/autocommit_on_connection.py:52-64 | The DDL a stretch of calls sent, in order; a stretch without a schema update sent none. |
| AutocommitOnConnection.DdlSentAppend | spanner/dbapi/autocommit_on_connection.py:52-64 | The DDL sent by two stretches of calls is the first stretch's DDL followed by the second's. |
| AutocommitOnConnection.DdlSentUpdate | spanner/dbapi/autocommit_on_connection.py:52-64 | One schema update sends exactly its statements. |
| AutocommitOnConnection.DdlSentQuery | spanner/dbapi/autocommit_on_connection.py:104-113 | A snapshot read sends no DDL. |
| AutocommitOnConnection.AutocommitCursor.constructor | spanner/dbapi/autocommit_on_connection.py:47-50 | A cursor is created over its connection. |
| AutocommitOnConnection.Connection.constructor | spanner/dbapi/autocommit_on_connection.py:13-16 | Open, over the handle, with an empty DDL queue. |
| AutocommitOnConnection.Connection.Rollback | spanner/dbapi/autocommit_on_connection.py:42-45 | Only the closed check. |
| AutocommitOnConnection.Connection.Close | spanner/dbapi/autocommit_on_connection.py:25-28 | Closing twice raises `Error` and changes nothing. Otherwise the handle is dropped and the flag set. Pending DDL is discarded, not sent. |
| AutocommitOnConnection.Connection.HandleUpdateDdl | spanner/dbapi/autocommit_on_connection.py:52-64 | One schema update of the given statements. Its failure is raised unchanged. |
| AutocommitOnConnection.Connection.RunPriorDdlStatements | spanner/dbapi/autocommit_on_connection.py:81-89 | An empty queue changes nothing. Otherwise the whole queue, in order, is sent as one schema update and the queue is empty afterwards, even on failure. The DDL sent plus the DDL pending never changes. |
| AutocommitOnConnection.Connection.Commit | spanner/dbapi/autocommit_on_connection.py:37-40 | The closed check, then a flush with the same guarantees. |
| AutocommitOnConnection.Connection.Exit | spanner/dbapi/autocommit_on_connection.py:33-35 | Leaving a `with` block flushes and then closes. A failed flush raises and leaves the connection open. |
| AutocommitOnConnection.Connection.Cursor | spanner/dbapi/autocommit_on_connection.py:47-50 | A closed connection raises `Error`. Otherwise the result is a new cursor over this connection. |
| AutocommitOnConnection.Connection.ReadSnapshot | spanner/dbapi/autocommit_on_connection.py:66-69 | A closed connection raises `Error`. Otherwise the result is the handle the snapshot is taken on. |
| AutocommitOnConnection.Connection.InTransaction | spanner/dbapi/autocommit_on_connection.py:71-74 | A closed connection raises `Error`. Otherwise the result is the handle whose transaction runs the callback. |
| AutocommitOnConnection.Connection.AppendDdlStatement | spanner/dbapi/autocommit_on_connection.py:76-79 | A closed connection raises `Error`. Otherwise the statement joins the end of the queue, so the DDL accounted for grows by exactly it. |
| AutocommitOnConnection.Connection.ListTables | spanner/dbapi/autocommit_on_connection.py:91-113 | Flushes the pending DDL first, so the tables it creates are listed. If the flush fails, nothing is read. Otherwise one snapshot query of the information schema returns all its rows. An integer reply raises `TypeError`. |
| AsWritten.FetchOneAsWritten | google/cloud/spanner_dbapi/cursor.py:65-72 | As written, `fetchone()` on a cursor with rows left returns `None` and changes nothing. The intended `fetchone` returns the next row. |
| AsWritten.Decorated | google/cloud/spanner_dbapi/cursor.py:65-72 | The decorated method, as written, changes nothing. Any argument raises `TypeError` with Python's arity message. Without arguments it returns `None` exactly when the checks pass. |
| AsWritten.ExecuteDdl | google/cloud/spanner_dbapi/cursor.py:159-161 | As written, DDL makes no call and leaves the DDL list alone. It always raises, with `TypeError` exactly when the checks pass. |
| AsWritten.ExecuteAsWritten | google/cloud/spanner_dbapi/cursor.py:65-72 | As written, `execute(sql)` raises `TypeError` before any check. The intended `execute` on an open cursor calls the database. |
| AsWritten.DdlAsWritten | google/cloud/spanner_dbapi/cursor.py:159-161 | As written, a DDL statement raises `TypeError` and neither reaches the backend nor joins the DDL list. As intended, it is sent as one schema update and recorded. |

## Left out

- Retries of aborted transactions by `run_in_transaction` are not modelled. Each transaction is one attempt: begin, body, commit.
- The backend, the client library's result streams and the SQL helpers (`classify_stmt`, `parse_insert`, `sql_pyformat_args_to_spanner`, `get_param_types`, `ensure_where_clause`) are not part of this model. They are oracles and total function fields: an exception raised inside a helper is not modelled.
- `PeekIterator` is a row sequence and a position. Its buffering of the first row is not modelled, and neither is the `tuple` conversion of each row in `fetchmany`.
- `Field.ByteSize()` (the serialized size of a field descriptor) is an input, `Field.byteSize`.
- The truthiness of the protobuf metadata in `description` is modelled as its presence.
- The `rowcount` and `connection` properties are not modelled as members: they are the fields `rowCount` and `connection`.
- The connection's `inside_transaction`, `transaction_started` and `is_closed` properties are the fields they read.
- The connection's `WeakSet` of cursors is left out because nothing in the core reads it.
- `__enter__` returns the object itself and is not modelled.
- `SpannerDbapi.Cursor.Iter`: returns the iterator as a value, a copy of the cursor's `itr`. In Python `__iter__` returns the cursor's one `PeekIterator`, so a `for row in cursor` loop advances the cursor too; in the model, advancing the returned value leaves the cursor's `itr` where it was. Only `Next` and the fetch methods advance the cursor. `fetchall` drains that shared iterator, and `FetchAll` models this by storing the drained iterator back in `itr`.
- `AsWritten.ArityMsg`: the model writes the name `wrapped()`, which is what Python before 3.10 prints (the code object's name). Python 3.10 and later print the function's `__qualname__`, which `@wraps(func)` at cursor.py:64 sets to the decorated method's, as in `Cursor.execute() takes 1 positional argument but 2 were given`; only the name differs.
- `get_table_column_schema` calls a helper that is not part of this model.
- `read_snapshot` and `in_transaction` return the database handle. The snapshot object and the running of the callback in a transaction are not modelled.
- `AutocommitOnConnection.AutocommitCursor`: the autocommit cursor's own code is not part of this model.
- `CursorModel.RunDdl`: sends the one-statement list `[sql]`. At cursor.py:339 the bare string is passed to `update_ddl`, which expects a list of statements. What the client library does with a string is not part of this model.
- `SpannerDbapi.Cursor.Execute`: the check for a missing connection after the closed checks (cursor.py:151-152) is not a separate branch. Under the invariant `connection == null <==> closed`, the guard has already refused that case.
- Exceptions that escape mid-operation in Python (a `KeyboardInterrupt`, a helper raising) are not modelled.
- Integers are unbounded: Python's integers are too, so no wrap-around is modelled.
- The superseded prototypes under `spanner/dbapi/` other than the autocommit connection, and the samples, are not part of this model.

## Findings

| source | as written | input that shows it | evidently intended | confidence | as-written member | corrected member |
|---|---|---|---|---|---|---|
| google/cloud/spanner_dbapi/cursor.py:65-72 | The decorator's inner function `wrapped(self)` takes no further arguments and never calls the decorated method. A guarded method called with arguments (`execute(sql)`, `fetchmany(2)`) raises `TypeError`. One called without arguments (`fetchone()`, `fetchall()`) returns `None` after the checks. | An open cursor whose iterator still holds the row `[1]`: `fetchone()` returns `None`. | Run the checks, then return the decorated method's result for the same arguments. | high; not executed | AsWritten.FetchOneAsWritten | CursorModel.FetchOneAtEnd |
| google/cloud/spanner_dbapi/cursor.py:160 | `self._ddl_statements.append()` has no argument, so every DDL statement raises `TypeError` before the schema update. | `execute("CREATE TABLE t (id INT64) PRIMARY KEY (id)")` on an open cursor | Append `sql` to the DDL list, then send it. | high; not executed | AsWritten.DdlAsWritten | CursorModel.ExecuteCalls |
