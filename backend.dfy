/** The collaborators of the cursor, modelled as oracles: the database
    handle (snapshot reads, read-write transactions, schema updates) and the
    SQL helpers of the parse utilities. Neither is part of this model's
    code; only what the cursor sends them and what they can answer is. */
module Backend {
  import opened DbapiErrors

  /** A parameter or column value. */
  datatype Value =
    | NullValue
    | BoolValue(b: bool)
    | IntValue(i: int)
    | StringValue(s: string)

  type Row = seq<Value>

  /** The `args` of `execute`: nothing, a sequence of positional values or a
      mapping of named values. */
  datatype Args =
    | NoArgs
    | Positional(values: seq<Value>)
    | Named(named: map<string, Value>)

  /** Python's `args or None`: an empty sequence or mapping counts as no
      arguments at all. */
  function OrNone(args: Args): (r: Args)
    ensures r == NoArgs <==> args == NoArgs || args == Positional([]) || args == Named(map[])
    ensures r != NoArgs ==> r == args
  {
    match args
    case Positional(vs) => if vs == [] then NoArgs else args
    case Named(m) => if m == map[] then NoArgs else args
    case NoArgs => NoArgs
  }

  /** The backend's column type codes. */
  datatype TypeCode =
    | Unspecified | Bool | Int64 | Float64 | Timestamp | Date
    | StringType | Bytes | ArrayType | StructType | Numeric

  /** The wire number of each type code. */
  function CodeNumber(t: TypeCode): (n: nat)
    ensures n <= 10
    ensures t != Unspecified <==> n != 0
  {
    match t
    case Unspecified => 0
    case Bool => 1
    case Int64 => 2
    case Float64 => 3
    case Timestamp => 4
    case Date => 5
    case StringType => 6
    case Bytes => 7
    case ArrayType => 8
    case StructType => 9
    case Numeric => 10
  }

  /** A field of a result's row type; `byteSize` is the serialized size of the
      field descriptor, which this model does not compute. */
  datatype Field = Field(name: string, typeCode: TypeCode, byteSize: nat)

  datatype Metadata = Metadata(fields: seq<Field>)

  /** A streamed result set: its metadata (absent until the first chunk has
      been read) and its rows. */
  datatype Stream = Stream(metadata: Option<Metadata>, rows: seq<Row>)

  /** A statement as sent to the backend: rewritten SQL, parameters and the
      wire type of each parameter. */
  datatype Statement = Statement(sql: string, params: Args, paramTypes: map<string, TypeCode>)

  /** One call made on the database handle, in the order made. */
  datatype Rpc =
    | UpdateDdlCall(statements: seq<string>)
    | SnapshotQueryCall(stmt: Statement)
    | BeginCall
    | InsertCall(table: string, columns: seq<string>, values: seq<Row>)
    | ExecuteSqlCall(stmt: Statement)
    /** Reading a transaction's `execute_sql` result to its end. */
    | DrainCall
    | ExecuteUpdateCall(stmt: Statement)
    | CommitCall

  /** What a snapshot `execute_sql` returns: an integer, a result stream
      whose first chunk was read (Cloud Spanner sends the result's metadata
      with the first chunk, so it is known from then on), a stream whose
      first row cannot be read, or the backend exception the call itself
      raised. */
  datatype QueryReply =
    | QueryCount(count: int)
    | QueryStream(metadata: Metadata, rows: seq<Row>)
    | QueryStreamError(stream: Stream, err: BackendError)
    | QueryFailed(err: BackendError)

  /** What a transaction's `execute_update` returns. */
  datatype UpdateReply = UpdateCount(count: int) | UpdateOther | UpdateFailed(err: BackendError)

  /** The backend's answers, keyed by the position of the call in the log.
      Within one run every request is determined by the earlier answers, so
      a reply per position covers every answer these calls can give; an
      aborted transaction's retry is not among them. */
  datatype Oracles = Oracles(
    ddl: nat -> Option<BackendError>,
    begin: nat -> Option<BackendError>,
    query: nat -> QueryReply,
    update: nat -> UpdateReply,
    drain: nat -> Option<BackendError>,
    commit: nat -> Option<BackendError>)

  /** The database handle: every call is appended to `log` and answered by
      `oracles`. A transaction is the calls between a `BeginCall` and its
      `CommitCall`; the handle's retry of an aborted attempt is not modelled. */
  class Database {
    var log: seq<Rpc>
    const oracles: Oracles

    constructor (o: Oracles)
      ensures log == [] && oracles == o
    {
      log := [];
      oracles := o;
    }

    /** `update_ddl(statements).result()`: start the schema change and wait. */
    method UpdateDdl(statements: seq<string>) returns (err: Option<BackendError>)
      modifies this
      ensures log == old(log) + [UpdateDdlCall(statements)]
      ensures err == oracles.ddl(|old(log)|)
    {
      err := oracles.ddl(|log|);
      log := log + [UpdateDdlCall(statements)];
    }

    /** `snapshot().execute_sql(...)` in a single-use read-only snapshot. */
    method SnapshotQuery(stmt: Statement) returns (r: QueryReply)
      modifies this
      ensures log == old(log) + [SnapshotQueryCall(stmt)]
      ensures r == oracles.query(|old(log)|)
    {
      r := oracles.query(|log|);
      log := log + [SnapshotQueryCall(stmt)];
    }

    /** Starting the transaction of `run_in_transaction`, which can fail. */
    method Begin() returns (err: Option<BackendError>)
      modifies this
      ensures log == old(log) + [BeginCall]
      ensures err == oracles.begin(|old(log)|)
    {
      err := oracles.begin(|log|);
      log := log + [BeginCall];
    }

    /** `transaction.insert`: buffers the rows as one mutation; it is sent,
        and can fail, only at commit. */
    method Insert(table: string, columns: seq<string>, values: seq<Row>)
      modifies this
      ensures log == old(log) + [InsertCall(table, columns, values)]
    {
      log := log + [InsertCall(table, columns, values)];
    }

    /** `transaction.execute_sql`: returns a lazy result; the statement is
        only carried out, and can only fail, while that result is read. */
    method ExecuteSql(stmt: Statement)
      modifies this
      ensures log == old(log) + [ExecuteSqlCall(stmt)]
    {
      log := log + [ExecuteSqlCall(stmt)];
    }

    /** Reading the result of the last `ExecuteSql` to its end. */
    method Drain() returns (err: Option<BackendError>)
      modifies this
      ensures log == old(log) + [DrainCall]
      ensures err == oracles.drain(|old(log)|)
    {
      err := oracles.drain(|log|);
      log := log + [DrainCall];
    }

    method ExecuteUpdate(stmt: Statement) returns (r: UpdateReply)
      modifies this
      ensures log == old(log) + [ExecuteUpdateCall(stmt)]
      ensures r == oracles.update(|old(log)|)
    {
      r := oracles.update(|log|);
      log := log + [ExecuteUpdateCall(stmt)];
    }

    method Commit() returns (err: Option<BackendError>)
      modifies this
      ensures log == old(log) + [CommitCall]
      ensures err == oracles.commit(|old(log)|)
    {
      err := oracles.commit(|log|);
      log := log + [CommitCall];
    }
  }

  /** The classification tags of `classify_stmt`; `Updating` is every
      statement that is none of the other three. */
  datatype StmtKind = Ddl | Insert | NonUpdating | Updating

  /** What `parse_insert` returns: one table, column list and value matrix
      for a homogeneous insert, or else one `(sql, params)` pair per
      statement to run. */
  datatype InsertParts =
    | Homogeneous(table: string, columns: seq<string>, values: seq<Row>)
    | Heterogeneous(sqlParamsList: seq<(string, Args)>)

  /** The helpers of the parse utilities, whose code is not part of this
      model: `classify_stmt`, `parse_insert`, `sql_pyformat_args_to_spanner`,
      `get_param_types` and `ensure_where_clause`. */
  datatype Parser = Parser(
    classify: string -> StmtKind,
    parseInsert: (string, Args) -> InsertParts,
    toSpanner: (string, Args) -> (string, Args),
    paramTypes: Args -> map<string, TypeCode>,
    ensureWhere: string -> string)

  /** `sql_pyformat_args_to_spanner` followed by `get_param_types` on the
      rewritten parameters. */
  function Prepare(p: Parser, sql: string, args: Args): (s: Statement)
    ensures (s.sql, s.params) == p.toSpanner(sql, args)
    ensures s.paramTypes == p.paramTypes(s.params)
  {
    var (sql', params) := p.toSpanner(sql, args);
    Statement(sql', params, p.paramTypes(params))
  }
}
