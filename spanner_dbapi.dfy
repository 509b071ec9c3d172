/** The DB-API `Connection` and `Cursor` objects. Each method updates the
    object's fields in place and is proved to do exactly what the matching
    function of `CursorModel` says. */
module SpannerDbapi {
  import opened DbapiErrors
  import opened Backend
  import opened Fetch
  import opened CursorModel
  import Desc = Description

  datatype TransactionMode = ReadOnly | ReadWrite

  datatype AutocommitDmlMode = Transactional | PartitionedNonAtomic

  /** The transaction mode follows the read-only flag. */
  function TransactionModeFor(readOnly: bool): (m: TransactionMode)
    ensures m == ReadOnly <==> readOnly
    ensures m == ReadWrite <==> !readOnly
  {
    if readOnly then ReadOnly else ReadWrite
  }

  /** A connection to one database. It never runs a multi-statement
      transaction: every statement commits on its own. */
  class Connection {
    const instance: string
    const database: Database
    var autocommit: bool
    var readOnly: bool
    var transactionMode: TransactionMode
    var autocommitDmlMode: AutocommitDmlMode
    var timeoutSecs: int
    var readTimestamp: Option<int>
    var commitTimestamp: Option<int>
    /** `_is_closed`, read through the `is_closed` property. */
    var closed: bool
    var insideTransaction: bool
    var transactionStarted: bool
    var readOnlyStaleness: map<string, int>

    /** A new connection is open, in autocommit, read-write and
        transactional mode, and not inside a transaction. */
    constructor (instance: string, database: Database)
      ensures this.instance == instance && this.database == database
      ensures !closed
      ensures autocommit && !readOnly && transactionMode == TransactionModeFor(readOnly) == ReadWrite
      ensures autocommitDmlMode == Transactional
      ensures timeoutSecs == 0 && readTimestamp == None && commitTimestamp == None
      ensures insideTransaction == !autocommit && !insideTransaction && !transactionStarted
      ensures readOnlyStaleness == map[]
    {
      this.instance := instance;
      this.database := database;
      autocommit := true;
      readOnly := false;
      transactionMode := TransactionModeFor(false);
      autocommitDmlMode := Transactional;
      timeoutSecs := 0;
      readTimestamp := None;
      commitTimestamp := None;
      closed := false;
      insideTransaction := !true;
      transactionStarted := false;
      readOnlyStaleness := map[];
    }

    /** `cursor()`: refused once the connection is closed; otherwise a new
        cursor over this connection, and the connection stays open. */
    method Cursor() returns (r: Result<Cursor>)
      ensures old(closed) ==> r == Failure(InterfaceError(ConnectionClosedMsg))
      ensures !old(closed) ==>
        r.Success? && fresh(r.value) && r.value.Valid() && r.value.connection == this
        && r.value.View() == Fresh()
    {
      if closed {
        return Failure(InterfaceError(ConnectionClosedMsg));
      }
      var c := new Cursor(this);
      return Success(c);
    }

    /** `close()`: sets the flag and nothing else; closing again is harmless. */
    method Close()
      modifies this`closed
      ensures closed
    {
      closed := true;
    }

    /** `commit()`: always refused with a `Warning`, whatever the state. */
    method Commit() returns (st: Status)
      ensures st == Raised(Warning(AutocommitOnlyMsg))
    {
      return Raised(Warning(AutocommitOnlyMsg));
    }

    /** `rollback()`: always refused with a `Warning`, whatever the state. */
    method Rollback() returns (st: Status)
      ensures st == Raised(Warning(AutocommitOnlyMsg))
    {
      return Raised(Warning(AutocommitOnlyMsg));
    }

    /** `__exit__`: leaving a `with` block closes the connection, whether or
        not the block raised; the exception, if any, then propagates. */
    method Exit(raised: Option<Exc>) returns (st: Status)
      modifies this`closed
      ensures closed
      ensures st == if raised.Some? then Raised(raised.value) else Ok
    {
      Close();
      st := if raised.Some? then Raised(raised.value) else Ok;
    }
  }

  /** A cursor: the per-query state over one connection. */
  class Cursor {
    /** `_connection`; `None` once the cursor is closed. */
    var connection: Connection?
    /** `_is_closed`. */
    var isClosed: bool
    /** `_stream`: the current result stream. */
    var stream: Option<Stream>
    /** `_itr`: the peek iterator over the current stream. */
    var itr: Option<RowIterator>
    /** `_row_count`, read through the `rowcount` property. */
    var rowCount: int
    var arraysize: int
    /** `_ddl_statements`: every DDL statement this cursor has executed. */
    var ddlStatements: seq<string>

    ghost predicate Valid()
      reads this
    {
      (connection == null <==> isClosed) && (itr.Some? ==> itr.value.Valid())
    }

    /** The cursor's state as a value. */
    function View(): (v: CursorView)
      reads this
      ensures Valid() ==> v.Valid()
    {
      CursorView(isClosed, stream, itr, rowCount, arraysize, ddlStatements)
    }

    /** Whether the parent connection is closed. */
    function ConnClosed(): bool
      reads this, connection
    {
      connection != null && connection.closed
    }

    /** The database handle of the parent connection, if there is one. */
    function Db(): set<object>
      reads this
    {
      if connection == null then {} else {connection.database}
    }

    /** The log of that handle, empty without one. */
    function Log(): seq<Rpc>
      reads this, connection, Db()
    {
      if connection == null then [] else connection.database.log
    }

    /** This cursor did what `s` says, starting from the log `oldLog`. */
    ghost predicate Did(s: Step, oldLog: seq<Rpc>, st: Status)
      reads this, connection, Db()
    {
      connection != null && View() == s.view && connection.database.log == oldLog + s.rpcs && st == s.status
    }

    /** A new cursor is open, over `c`, with no stream, no iterator, an
        unknown row count, an array size of one and no DDL statements. */
    constructor (c: Connection)
      ensures Valid() && connection == c && View() == Fresh()
    {
      connection := c;
      isClosed := false;
      stream := None;
      itr := None;
      rowCount := UnsetCount;
      arraysize := 1;
      ddlStatements := [];
    }

    /** `is_closed`: true exactly when the guarded operations refuse to run,
        i.e. when this cursor or its connection is closed. */
    function IsClosed(): (b: bool)
      requires Valid()
      reads this, connection
      ensures b <==> Guard(isClosed, ConnClosed()).Some?
    {
      isClosed || connection.closed
    }

    /** `description`. */
    function Description(): Option<seq<Desc.Column>>
      reads this
    {
      Desc.Describe(stream)
    }

    /** `close()`: drops the connection and sets the closed flag. */
    method Close()
      modifies this
      ensures Valid() == old(itr.Some? ==> itr.value.Valid())
      ensures connection == null && isClosed
      ensures View() == old(View()).(closed := true)
    {
      connection := null;
      isClosed := true;
    }

    /** `__exit__`: leaving a `with` block closes the cursor. */
    method Exit()
      modifies this
      ensures Valid() == old(itr.Some? ==> itr.value.Valid())
      ensures connection == null && isClosed
      ensures View() == old(View()).(closed := true)
    {
      Close();
    }

    /** `_run_ddl_statements(sql)`. */
    method RunDdlStatements(sql: string) returns (st: Status)
      requires Valid()
      modifies this, Db()
      ensures Valid() && connection == old(connection)
      ensures old(connection) == null ==> st == Raised(InterfaceError(CursorClosedMsg)) && View() == old(View())
      ensures old(connection) != null ==>
        Did(RunDdl(old(View()), connection.closed, connection.database.oracles,
                   |old(connection.database.log)|, sql), old(connection.database.log), st)
    {
      var g := Guard(isClosed, ConnClosed());
      if g.Some? {
        return Raised(g.value);
      }
      var err := connection.database.UpdateDdl([sql]);
      st := FromBackend(err);
    }

    /** `_handle_dql(sql, params)`. */
    method HandleDql(p: Parser, sql: string, args: Args) returns (st: Status)
      requires Valid()
      modifies this, Db()
      ensures Valid() && connection == old(connection)
      ensures old(connection) == null ==> st == Raised(InterfaceError(CursorClosedMsg)) && View() == old(View())
      ensures old(connection) != null ==>
        Did(CursorModel.HandleDql(old(View()), connection.closed, p, connection.database.oracles,
                                  |old(connection.database.log)|, sql, args), old(connection.database.log), st)
    {
      var g := Guard(isClosed, ConnClosed());
      if g.Some? {
        return Raised(g.value);
      }
      var reply := connection.database.SnapshotQuery(Prepare(p, sql, args));
      match reply {
        case QueryCount(k) =>
          rowCount := k;
          itr := None;
          st := Ok;
        case QueryStream(md, rows) =>
          // The peek iterator read the first chunk at once, so the
          // stream's metadata is there for `description`.
          var s := Stream(Some(md), rows);
          stream := Some(s);
          itr := Some(Start(s));
          rowCount := UnsetCount;
          st := Ok;
        case QueryStreamError(s, e) =>
          stream := Some(s);
          st := Raised(Backend(e));
        case QueryFailed(e) =>
          st := Raised(Backend(e));
      }
    }

    /** `__do_execute_update`: the body of the update transaction. */
    method DoExecuteUpdate(db: Database, p: Parser, sql: string, args: Args) returns (st: Status)
      requires Valid()
      modifies this, db
      ensures Valid() && connection == old(connection)
      ensures db.log == old(db.log) + [ExecuteUpdateCall(Prepare(p, p.ensureWhere(sql), args))]
      ensures match db.oracles.update(|old(db.log)|)
              case UpdateFailed(e) => st == Raised(Backend(e)) && View() == old(View())
              case UpdateCount(k) => st == Ok && View() == old(View()).(itr := None, rowCount := k)
              case UpdateOther => st == Ok && View() == old(View()).(itr := None)
    {
      var res := db.ExecuteUpdate(Prepare(p, p.ensureWhere(sql), args));
      match res {
        case UpdateFailed(e) =>
          st := Raised(Backend(e));
        case UpdateCount(k) =>
          itr := None;
          rowCount := k;
          st := Ok;
        case UpdateOther =>
          itr := None;
          st := Ok;
      }
    }

    /** `_handle_update(sql, params)`: `__do_execute_update` in one
        transaction, committed if it did not raise. */
    method HandleUpdate(p: Parser, sql: string, args: Args) returns (st: Status)
      requires Valid()
      modifies this, Db()
      ensures Valid() && connection == old(connection)
      ensures old(connection) == null ==> st == Raised(InterfaceError(CursorClosedMsg)) && View() == old(View())
      ensures old(connection) != null ==>
        Did(CursorModel.HandleUpdate(old(View()), connection.closed, p, connection.database.oracles,
                                     |old(connection.database.log)|, sql, args), old(connection.database.log), st)
    {
      var g := Guard(isClosed, ConnClosed());
      if g.Some? {
        return Raised(g.value);
      }
      var db := connection.database;
      var b := db.Begin();
      if b.Some? {
        return Raised(Backend(b.value));
      }
      st := DoExecuteUpdate(db, p, sql, args);
      if st.Ok? {
        var err := db.Commit();
        st := FromBackend(err);
      }
    }

    /** `_do_execute_insert_homogenous`: the whole value matrix in one bulk
        `insert`. */
    method DoExecuteInsertHomogeneous(db: Database, parts: InsertParts)
      requires parts.Homogeneous?
      modifies db
      ensures db.log == old(db.log) + [InsertCall(parts.table, parts.columns, parts.values)]
    {
      db.Insert(parts.table, parts.columns, parts.values);
    }

    /** `_do_execute_insert_heterogenous`: every `(sql, params)` pair, in
        order, each result read to the end. */
    method DoExecuteInsertHeterogeneous(db: Database, p: Parser, list: seq<(string, Args)>)
      returns (err: Option<BackendError>)
      modifies db
      ensures var r := InsertEach(p, db.oracles, |old(db.log)|, list);
              db.log == old(db.log) + r.rpcs && err == r.err
    {
      ghost var n := |db.log|;
      var i := 0;
      while i < |list|
        invariant 0 <= i <= |list| && |db.log| == n + 2 * i
        invariant InsertEach(p, db.oracles, n, list[..i]).err == None
        invariant db.log == old(db.log) + InsertEach(p, db.oracles, n, list[..i]).rpcs
      {
        ghost var before := db.log;
        InsertEachSnocLog(p, db.oracles, n, list, i, old(db.log), before);
        db.ExecuteSql(Prepare(p, list[i].0, list[i].1));
        assert |db.log| == n + 2 * i + 1;
        // The client library only carries the statement out while its
        // result is read, so the result is read to the end here.
        var e := db.Drain();
        assert db.log == before + [ExecuteSqlCall(Prepare(p, list[i].0, list[i].1)), DrainCall];
        ghost var next := InsertEach(p, db.oracles, n, list[..i + 1]);
        assert e == next.err && db.log == old(db.log) + next.rpcs;
        if e.Some? {
          InsertEachStops(p, db.oracles, n, list, i + 1);
          assert InsertEach(p, db.oracles, n, list) == next;
          return e;
        }
        i := i + 1;
      }
      assert list[..i] == list;
      return None;
    }

    /** `run_in_transaction(_do_execute_insert_heterogenous, list)`: the
        pairs run between a begin and a commit; a failed begin ends it at
        once, and a failed pair ends it without a commit. */
    method InsertHeterogeneousTransaction(db: Database, p: Parser, list: seq<(string, Args)>)
      returns (st: Status)
      modifies db
      ensures db.oracles.begin(|old(db.log)|).Some? ==>
                db.log == old(db.log) + [BeginCall] && st == Raised(Backend(db.oracles.begin(|old(db.log)|).value))
      ensures db.oracles.begin(|old(db.log)|).None? ==>
              var r := InsertEach(p, db.oracles, |old(db.log)| + 1, list);
              if r.err.Some? then
                db.log == old(db.log) + ([BeginCall] + r.rpcs) && st == Raised(Backend(r.err.value))
              else
                db.log == old(db.log) + ([BeginCall] + r.rpcs + [CommitCall])
                && st == FromBackend(db.oracles.commit(|old(db.log)| + 1 + |r.rpcs|))
    {
      ghost var log0 := db.log;
      ghost var r := InsertEach(p, db.oracles, |log0| + 1, list);
      var b := db.Begin();
      if b.Some? {
        return Raised(Backend(b.value));
      }
      assert |db.log| == |log0| + 1;
      var err := DoExecuteInsertHeterogeneous(db, p, list);
      assert err == r.err && db.log == log0 + [BeginCall] + r.rpcs;
      AppendThree(log0, [BeginCall], r.rpcs, [CommitCall]);
      if err.Some? {
        st := Raised(Backend(err.value));
      } else {
        assert |db.log| == |log0| + 1 + |r.rpcs|;
        var e := db.Commit();
        st := FromBackend(e);
      }
    }

    /** `_handle_insert(sql, params)`: not guarded; only `execute` calls it,
        after its own checks. */
    method HandleInsert(p: Parser, sql: string, args: Args) returns (st: Status)
      requires Valid() && connection != null
      modifies connection.database
      ensures Did(CursorModel.HandleInsert(old(View()), p, connection.database.oracles,
                                           |old(connection.database.log)|, sql, args),
                  old(connection.database.log), st)
    {
      var db := connection.database;
      ghost var log0, v0 := db.log, View();
      ghost var s := CursorModel.HandleInsert(v0, p, db.oracles, |log0|, sql, args);
      var parts := p.parseInsert(sql, args);
      if parts.Homogeneous? {
        HandleInsertHomogeneous(v0, p, db.oracles, |log0|, sql, args);
        var b := db.Begin();
        if b.Some? {
          st := Raised(Backend(b.value));
          assert db.log == log0 + s.rpcs && st == s.status;
          return;
        }
        DoExecuteInsertHomogeneous(db, parts);
        var e := db.Commit();
        st := FromBackend(e);
        assert db.log == log0 + [BeginCall, InsertCall(parts.table, parts.columns, parts.values), CommitCall];
        assert db.log == log0 + s.rpcs && st == s.status;
      } else {
        HandleInsertHeterogeneous(v0, p, db.oracles, |log0|, sql, args);
        st := InsertHeterogeneousTransaction(db, p, parts.sqlParamsList);
        assert db.log == log0 + s.rpcs && st == s.status;
      }
      assert View() == v0;
    }

    /** `execute(sql, args)`. */
    method Execute(p: Parser, sql: string, args: Args) returns (st: Status)
      requires Valid()
      modifies this, Db()
      ensures Valid() && connection == old(connection)
      ensures old(connection) == null ==> st == Raised(InterfaceError(CursorClosedMsg)) && View() == old(View())
      ensures old(connection) != null ==>
        Did(CursorModel.Execute(old(View()), connection.closed, p, connection.database.oracles,
                                |old(connection.database.log)|, sql, args), old(connection.database.log), st)
    {
      var g := Guard(isClosed, ConnClosed());
      if g.Some? {
        return Raised(g.value);
      }
      // The check for a missing connection that follows in the source
      // cannot fire here: only `close` drops the connection, and it also
      // sets the flag the guard has just checked.
      ghost var v0, log0, o, cc := View(), connection.database.log, connection.database.oracles, connection.closed;
      stream := None;
      ghost var v1 := View();
      ghost var route := CursorModel.Route(v1, cc, p, o, |log0|, sql, args);
      var h: Status;
      match p.classify(sql) {
        case Ddl =>
          ddlStatements := ddlStatements + [sql];
          h := RunDdlStatements(sql);
          assert Did(route, log0, h);
        case NonUpdating =>
          h := HandleDql(p, sql, OrNone(args));
          assert Did(route, log0, h);
        case Insert =>
          h := HandleInsert(p, sql, OrNone(args));
          assert Did(route, log0, h);
        case Updating =>
          h := HandleUpdate(p, sql, OrNone(args));
          assert Did(route, log0, h);
      }
      st := TranslateStatus(h);
      CursorModel.ExecuteRoutes(v0, cc, p, o, |log0|, sql, args);
    }

    /** `executemany(sql, seq_of_params)`. */
    method ExecuteMany(p: Parser, sql: string, argsList: seq<Args>) returns (st: Status)
      requires Valid()
      modifies this, Db()
      ensures Valid() && connection == old(connection)
      ensures old(connection) == null ==>
        st == Raised(ProgrammingError(NotConnectedMsg)) && View() == old(View())
      ensures old(connection) != null ==>
        var t := CursorModel.ExecuteMany(old(View()), connection.closed, p, connection.database.oracles,
                                         old(connection.database.log), sql, argsList);
        View() == t.view && connection.database.log == t.log && st == t.status
    {
      if connection == null {
        return Raised(ProgrammingError(NotConnectedMsg));
      }
      ghost var v0, log0 := View(), connection.database.log;
      ghost var cc, o := connection.closed, connection.database.oracles;
      ghost var step := ExecuteStep(cc, p, o, sql);
      var i := 0;
      st := Ok;
      while i < |argsList|
        invariant 0 <= i <= |argsList|
        invariant Valid() && connection == old(connection) && connection != null
        invariant connection.closed == cc && connection.database.oracles == o
        invariant var t := Sequence(step, v0, log0, argsList[..i]);
                  View() == t.view && connection.database.log == t.log && t.status == Ok && st == Ok
      {
        st := Execute(p, sql, argsList[i]);
        SequenceSnoc(step, v0, log0, argsList, i);
        if st.Raised? {
          SequenceStops(step, v0, log0, argsList, i + 1);
          return;
        }
        i := i + 1;
      }
      assert argsList[..i] == argsList;
    }

    /** `__next__`: not guarded. */
    method Next() returns (r: Result<Option<Row>>)
      requires Valid()
      modifies this`itr
      ensures Valid()
      ensures var f := CursorModel.Next(old(View())); View() == f.view && r == f.result
      ensures old(itr).None? ==> itr == old(itr) && r.Failure?
      ensures old(itr).Some? ==>
        var (row, it') := Advance(old(itr).value); itr == Some(it') && r == Success(row)
    {
      if itr == None {
        return Failure(ProgrammingError(NoResultsMsg));
      }
      var (row, it') := Advance(itr.value);
      itr := Some(it');
      return Success(row);
    }

    /** `__iter__`: not guarded; the iterator itself, or `ProgrammingError`
        when there is none. */
    method Iter() returns (r: Result<RowIterator>)
      requires Valid()
      ensures itr.None? <==> r.Failure?
      ensures r.Failure? ==> r.error == ProgrammingError(NoResultsMsg)
      ensures r.Success? ==> Some(r.value) == itr && r.value.Valid()
    {
      if itr == None {
        return Failure(ProgrammingError(NoResultsMsg));
      }
      return Success(itr.value);
    }

    /** `fetchone()`. */
    method FetchOne() returns (r: Result<Option<Row>>)
      requires Valid()
      modifies this`itr
      ensures Valid()
      ensures var f := CursorModel.FetchOne(old(View()), ConnClosed()); View() == f.view && r == f.result
    {
      var g := Guard(isClosed, ConnClosed());
      if g.Some? {
        return Failure(g.value);
      }
      r := Next();
    }

    /** `fetchmany(size)`: up to `size` rows, one `__next__` at a time,
        stopping early when the rows run out. */
    method FetchMany(size: Option<int>) returns (r: Result<seq<Row>>)
      requires Valid()
      modifies this`itr
      ensures Valid()
      ensures var f := CursorModel.FetchMany(old(View()), ConnClosed(), size); View() == f.view && r == f.result
    {
      var g := Guard(isClosed, ConnClosed());
      if g.Some? {
        return Failure(g.value);
      }
      var k := if size.Some? then size.value else arraysize;
      var items: seq<Row> := [];
      ghost var it0 := itr;
      var bound := if k < 0 then 0 else k;
      for i := 0 to bound
        invariant itr.Some? <==> it0.Some?
        invariant it0.None? ==> i == 0 && items == []
        invariant it0.Some? ==>
          itr.value.Valid() && itr.value.rows == it0.value.rows && itr.value.pos == it0.value.pos + i
          && items == it0.value.rows[it0.value.pos..itr.value.pos]
      {
        ghost var before := itr;
        var next := Next();
        match next {
          case Failure(e) =>
            return Failure(e);
          case Success(row) =>
            if row == None {
              assert itr.value.pos == |itr.value.rows|;
              break;
            }
            var rows, p0 := it0.value.rows, it0.value.pos;
            assert itr.value.pos == before.value.pos + 1 && row.value == rows[before.value.pos];
            assert rows[p0..itr.value.pos] == rows[p0..before.value.pos] + [row.value];
            items := items + [row.value];
        }
      }
      if it0.Some? && k > 0 {
        TakeManyStop(it0.value, k, itr.value.pos);
      }
      return Success(items);
    }

    /** `fetchall()`. */
    method FetchAll() returns (r: Result<seq<Row>>)
      requires Valid()
      modifies this`itr
      ensures Valid()
      ensures var f := CursorModel.FetchAll(old(View()), ConnClosed()); View() == f.view && r == f.result
    {
      var g := Guard(isClosed, ConnClosed());
      if g.Some? {
        return Failure(g.value);
      }
      var it := Iter();
      if it.Failure? {
        return Failure(it.error);
      }
      var (rows, it') := TakeAll(it.value);
      itr := Some(it');
      return Success(rows);
    }

    /** `setinputsizes()`: not implemented. */
    method SetInputSizes() returns (st: Status)
      ensures st == Raised(ProgrammingError("Unimplemented"))
    {
      return Raised(ProgrammingError("Unimplemented"));
    }

    /** `setoutputsize(column)`: not implemented. */
    method SetOutputSize() returns (st: Status)
      ensures st == Raised(ProgrammingError("Unimplemented"))
    {
      return Raised(ProgrammingError("Unimplemented"));
    }
  }
}
