/** The older autocommit `Connection`: a database handle, a closed flag and
    a queue of DDL statements that waits until the next flush. */
module AutocommitOnConnection {
  import opened DbapiErrors
  import opened Backend

  /** The closed check every operation starts with. */
  function ClosedCheck(closed: bool): (st: Status)
    ensures st.Raised? <==> closed
    ensures closed ==> st == Raised(Error(AlreadyClosedConnectionMsg))
  {
    if closed then Raised(Error(AlreadyClosedConnectionMsg)) else Ok
  }

  /** The DDL statements a call log has sent to the backend, in order. */
  function DdlSent(log: seq<Rpc>): (sent: seq<string>)
    ensures (forall i :: 0 <= i < |log| ==> !log[i].UpdateDdlCall?) ==> sent == []
    decreases |log|
  {
    if log == [] then []
    else
      DdlSent(log[..|log| - 1])
      + match log[|log| - 1] { case UpdateDdlCall(statements) => statements case _ => [] }
  }

  /** What two stretches of the log sent is what the first sent followed by
      what the second sent. */
  lemma {:induction false} DdlSentAppend(a: seq<Rpc>, b: seq<Rpc>)
    ensures DdlSent(a + b) == DdlSent(a) + DdlSent(b)
    decreases |b|
  {
    if b == [] {
      assert a + b == a;
    } else {
      var b' := b[..|b| - 1];
      DdlSentAppend(a, b');
      assert (a + b)[..|a + b| - 1] == a + b';
      assert (a + b)[|a + b| - 1] == b[|b| - 1];
    }
  }

  /** A schema update of `statements` sends exactly those statements. */
  lemma DdlSentUpdate(log: seq<Rpc>, statements: seq<string>)
    ensures DdlSent(log + [UpdateDdlCall(statements)]) == DdlSent(log) + statements
  {
    DdlSentAppend(log, [UpdateDdlCall(statements)]);
    assert [UpdateDdlCall(statements)][..0] == [];
  }

  /** A snapshot read sends no DDL. */
  lemma DdlSentQuery(log: seq<Rpc>, stmt: Statement)
    ensures DdlSent(log + [SnapshotQueryCall(stmt)]) == DdlSent(log)
  {
    DdlSentAppend(log, [SnapshotQueryCall(stmt)]);
    assert [SnapshotQueryCall(stmt)][..0] == [];
  }

  /** The query `list_tables` runs: the names of the tables of the default
      schema, read from the information schema. */
  const ListTablesSql: string :=
    "SELECT t.table_name FROM information_schema.tables AS t WHERE t.table_catalog = '' and t.table_schema = ''"

  /** The autocommit cursor; its code is not part of this model, only the
      connection it is created over. */
  class AutocommitCursor {
    const connection: Connection

    constructor (c: Connection)
      ensures connection == c
    {
      connection := c;
    }
  }

  class Connection {
    /** `__dbhandle`; `None` once the connection is closed. */
    var dbHandle: Database?
    /** `__closed`. */
    var closed: bool
    /** `__ddl_statements`: DDL waiting for the next flush. */
    var ddlStatements: seq<string>

    ghost predicate Valid()
      reads this
    {
      closed <==> dbHandle == null
    }

    /** The handle, as a frame. */
    function Db(): set<object>
      reads this
    {
      if dbHandle == null then {} else {dbHandle}
    }

    /** Every DDL statement accounted for: those the handle has been sent,
        then those still waiting. */
    ghost function Accounted(): seq<string>
      reads this, Db()
    {
      (if dbHandle == null then [] else DdlSent(dbHandle.log)) + ddlStatements
    }

    /** A new connection is open over `db` with an empty queue. */
    constructor (db: Database)
      ensures Valid() && dbHandle == db && !closed && ddlStatements == []
    {
      dbHandle := db;
      closed := false;
      ddlStatements := [];
    }

    /** `rollback()`: the closed check and nothing else. */
    method Rollback() returns (st: Status)
      ensures st == ClosedCheck(closed)
    {
      st := ClosedCheck(closed);
    }

    /** `close()`: `rollback` first, so that closing twice raises `Error`;
        then the handle is dropped and the flag set. Pending DDL is
        discarded, not flushed. */
    method Close() returns (st: Status)
      requires Valid()
      modifies this
      ensures Valid() && closed && ddlStatements == old(ddlStatements)
      ensures st == ClosedCheck(old(closed))
      ensures old(closed) ==> unchanged(this)
      ensures dbHandle == null
    {
      st := Rollback();
      if st.Raised? {
        return;
      }
      dbHandle := null;
      closed := true;
    }

    /** `__handle_update_ddl(statements)`: one schema update, waited for;
        its failure is raised unchanged. */
    method HandleUpdateDdl(statements: seq<string>) returns (st: Status)
      requires Valid()
      modifies Db()
      ensures old(closed) ==> st == ClosedCheck(true) && unchanged(Db())
      ensures !old(closed) ==>
        dbHandle.log == old(dbHandle.log) + [UpdateDdlCall(statements)]
        && st == FromBackend(dbHandle.oracles.ddl(|old(dbHandle.log)|))
    {
      st := ClosedCheck(closed);
      if st.Raised? {
        return;
      }
      var err := dbHandle.UpdateDdl(statements);
      st := FromBackend(err);
    }

    /** `run_prior_DDL_statements()`: nothing to do on an empty queue;
        otherwise the queue is emptied first and then sent, whole and in
        order, as one schema update, so it is empty afterwards even when the
        update fails. No statement is lost or sent twice. */
    method RunPriorDdlStatements() returns (st: Status)
      requires Valid()
      modifies this, Db()
      ensures Valid() && dbHandle == old(dbHandle) && closed == old(closed)
      ensures old(closed) ==> st == ClosedCheck(true) && unchanged(this, Db())
      ensures !old(closed) && old(ddlStatements) == [] ==> st == Ok && unchanged(this, Db())
      ensures !old(closed) && old(ddlStatements) != [] ==>
        ddlStatements == []
        && dbHandle.log == old(dbHandle.log) + [UpdateDdlCall(old(ddlStatements))]
        && st == FromBackend(dbHandle.oracles.ddl(|old(dbHandle.log)|))
      ensures Accounted() == old(Accounted())
    {
      st := ClosedCheck(closed);
      if st.Raised? {
        return;
      }
      if ddlStatements == [] {
        return;
      }
      var statements := ddlStatements;
      ghost var log0 := dbHandle.log;
      assert old(Accounted()) == DdlSent(log0) + statements;
      ddlStatements := [];
      DdlSentUpdate(log0, statements);
      st := HandleUpdateDdl(statements);
      assert Accounted() == DdlSent(log0 + [UpdateDdlCall(statements)]) + [];
    }

    /** `commit()`: the closed check, then a flush of the pending DDL. */
    method Commit() returns (st: Status)
      requires Valid()
      modifies this, Db()
      ensures Valid() && dbHandle == old(dbHandle) && closed == old(closed)
      ensures old(closed) ==> st == ClosedCheck(true) && unchanged(this, Db())
      ensures !old(closed) && old(ddlStatements) == [] ==> st == Ok && unchanged(this, Db())
      ensures !old(closed) && old(ddlStatements) != [] ==>
        ddlStatements == []
        && dbHandle.log == old(dbHandle.log) + [UpdateDdlCall(old(ddlStatements))]
        && st == FromBackend(dbHandle.oracles.ddl(|old(dbHandle.log)|))
      ensures Accounted() == old(Accounted())
    {
      st := ClosedCheck(closed);
      if st.Raised? {
        return;
      }
      st := RunPriorDdlStatements();
    }

    /** `__exit__`: leaving a `with` block commits and then closes. If the
        commit raises, that exception leaves and the connection stays open;
        otherwise the block's own exception, if any, propagates. */
    method Exit(raised: Option<Exc>) returns (st: Status)
      requires Valid()
      modifies this, Db()
      ensures Valid()
      ensures old(closed) ==> st == ClosedCheck(true) && unchanged(this)
      ensures !old(closed) && old(ddlStatements) == [] ==>
        closed && dbHandle == null && unchanged(old(dbHandle))
        && st == (if raised.Some? then Raised(raised.value) else Ok)
      ensures !old(closed) && old(ddlStatements) != [] ==>
        var ddl := old(dbHandle).oracles.ddl(|old(dbHandle.log)|);
        old(dbHandle).log == old(dbHandle.log) + [UpdateDdlCall(old(ddlStatements))]
        && ddlStatements == []
        && (ddl.Some? ==> st == Raised(Backend(ddl.value)) && !closed && dbHandle == old(dbHandle))
        && (ddl.None? ==> closed && dbHandle == null
                          && st == (if raised.Some? then Raised(raised.value) else Ok))
    {
      st := Commit();
      if st.Raised? {
        return;
      }
      st := Close();
      st := if raised.Some? then Raised(raised.value) else Ok;
    }

    /** `cursor()`: the closed check, then a new cursor over this
        connection. */
    method Cursor() returns (r: Result<AutocommitCursor>)
      ensures closed ==> r == Failure(Error(AlreadyClosedConnectionMsg))
      ensures !closed ==> r.Success? && fresh(r.value) && r.value.connection == this
    {
      var st := ClosedCheck(closed);
      if st.Raised? {
        return Failure(st.exc);
      }
      var c := new AutocommitCursor(this);
      return Success(c);
    }

    /** `read_snapshot()`: the closed check, then the handle, on which the
        snapshot reads are made. */
    method ReadSnapshot() returns (r: Result<Database>)
      requires Valid()
      ensures closed ==> r == Failure(Error(AlreadyClosedConnectionMsg))
      ensures !closed ==> r == Success(dbHandle)
    {
      var st := ClosedCheck(closed);
      if st.Raised? {
        return Failure(st.exc);
      }
      return Success(dbHandle);
    }

    /** `in_transaction(fn, ...)`: the closed check, then the handle in
        whose transaction `fn` runs. */
    method InTransaction() returns (r: Result<Database>)
      requires Valid()
      ensures closed ==> r == Failure(Error(AlreadyClosedConnectionMsg))
      ensures !closed ==> r == Success(dbHandle)
    {
      var st := ClosedCheck(closed);
      if st.Raised? {
        return Failure(st.exc);
      }
      return Success(dbHandle);
    }

    /** `append_ddl_statement(s)`: the closed check, then `s` joins the end
        of the queue. */
    method AppendDdlStatement(s: string) returns (st: Status)
      requires Valid()
      modifies this`ddlStatements
      ensures st == ClosedCheck(closed)
      ensures closed ==> ddlStatements == old(ddlStatements)
      ensures !closed ==> ddlStatements == old(ddlStatements) + [s]
      ensures !closed ==> Accounted() == old(Accounted()) + [s]
    {
      st := ClosedCheck(closed);
      if st.Raised? {
        return;
      }
      ddlStatements := ddlStatements + [s];
    }

    /** `list_tables()`: flushes the pending DDL first, so that tables it
        creates are listed, then reads the table names in a snapshot and
        returns every row. */
    method ListTables() returns (r: Result<seq<Row>>)
      requires Valid()
      modifies this, Db()
      ensures Valid() && dbHandle == old(dbHandle) && closed == old(closed)
      ensures old(closed) ==> r == Failure(Error(AlreadyClosedConnectionMsg)) && unchanged(this, Db())
      ensures !old(closed) ==> ddlStatements == []
      ensures !old(closed) ==>
        var flush := if old(ddlStatements) == [] then [] else [UpdateDdlCall(old(ddlStatements))];
        var n := |old(dbHandle.log)| + |flush|;
        var err := if flush == [] then None else dbHandle.oracles.ddl(|old(dbHandle.log)|);
        if err.Some? then
          dbHandle.log == old(dbHandle.log) + flush && r == Failure(Backend(err.value))
        else
          dbHandle.log == old(dbHandle.log) + flush + [SnapshotQueryCall(Statement(ListTablesSql, NoArgs, map[]))]
          && r == match dbHandle.oracles.query(n)
                  case QueryStream(_, rows) => Success(rows)
                  case QueryCount(_) => Failure(TypeError("'int' object is not iterable"))
                  case QueryStreamError(_, e) => Failure(Backend(e))
                  case QueryFailed(e) => Failure(Backend(e))
      ensures Accounted() == old(Accounted())
    {
      var st := RunPriorDdlStatements();
      if st.Raised? {
        return Failure(st.exc);
      }
      var stmt := Statement(ListTablesSql, NoArgs, map[]);
      DdlSentQuery(dbHandle.log, stmt);
      var reply := dbHandle.SnapshotQuery(stmt);
      match reply {
        case QueryStream(_, rows) =>
          return Success(rows);
        case QueryCount(_) =>
          return Failure(TypeError("'int' object is not iterable"));
        case QueryStreamError(_, e) =>
          return Failure(Backend(e));
        case QueryFailed(e) =>
          return Failure(Backend(e));
      }
    }
  }
}
