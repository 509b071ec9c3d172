/** Two places where `cursor.py` does not do what it evidently means to,
    modelled exactly as written, each beside a lemma that shows the
    difference from the intended behaviour that `CursorModel` models. */
module AsWritten {
  import opened DbapiErrors
  import opened Backend
  import opened Fetch
  import opened CursorModel
  import Description

  /** Python's message for calling the decorator's inner function, which
      takes `self` only, with `k` further arguments: the count includes
      `self`. The function's name in it depends on the Python version. */
  function ArityMsg(k: nat): string
  {
    "wrapped() takes 1 positional argument but " + Description.NatToString(k + 1) + " were given"
  }

  /** A method decorated with `_is_connection_closed`, as written: the inner
      function accepts no argument besides `self`, and after the two closed
      checks it returns `None` without calling the decorated method. */
  function Decorated(v: CursorView, connClosed: bool, argc: nat): (f: Fetched<Option<Row>>)
    ensures f.view == v
    ensures argc > 0 ==> f.result == Failure(TypeError(ArityMsg(argc)))
    ensures argc == 0 ==> (f.result == Success(None) <==> Guard(v.closed, connClosed).None?)
  {
    if argc > 0 then Fetched(v, Failure(TypeError(ArityMsg(argc))))
    else match Guard(v.closed, connClosed)
      case Some(e) => Fetched(v, Failure(e))
      case None => Fetched(v, Success(None))
  }

  /** `fetchone()` as written: it never reaches the iterator, so it answers
      `None`, the value meant for "no rows left", while rows remain, and it
      never moves on. The intended `fetchone` returns the next row. */
  lemma FetchOneAsWritten(v: CursorView)
    requires v.Valid() && !v.closed && v.itr.Some? && v.itr.value.Remaining() != []
    ensures Decorated(v, false, 0) == Fetched(v, Success(None))
    ensures FetchOne(v, false).result == Success(Some(v.itr.value.Remaining()[0]))
    ensures FetchOne(v, false).result != Decorated(v, false, 0).result
  {
    var it := v.itr.value;
    assert it.Remaining()[0] == it.rows[it.pos];
  }

  /** `execute(sql)` as written: the call passes `sql`, which the inner
      function does not accept, so every `execute` raises `TypeError`
      before any check and makes no call on the database. The intended
      `execute` of an open cursor calls the database at least once. */
  lemma ExecuteAsWritten(v: CursorView, p: Parser, o: Oracles, n: nat, sql: string, args: Args)
    requires v.Valid() && !v.closed
    ensures Decorated(v, false, 1).result == Failure(TypeError(ArityMsg(1)))
    ensures |Execute(v, false, p, o, n, sql, args).rpcs| >= 1
  {
    ExecuteOneHandler(v, false, p, o, n, sql, args);
  }

  /** Python's message for `list.append()` with no argument. */
  const AppendArityMsg: string := "append() takes exactly one argument (0 given)"

  /** `execute` on a DDL statement, as written (with the checks of the
      decorator run as intended): the statement list's `append` is called
      with no argument, which raises `TypeError` outside the handled
      backend errors, after the stream was dropped and before the schema
      update. */
  function ExecuteDdl(v: CursorView, connClosed: bool, sql: string): (s: Step)
    ensures s.rpcs == [] && s.view.ddl == v.ddl && s.status.Raised?
    ensures s.status.exc.TypeError? <==> Guard(v.closed, connClosed).None?
  {
    match Guard(v.closed, connClosed)
    case Some(e) => Step(v, [], Raised(e))
    case None => Step(v.(stream := None), [], Raised(TypeError(AppendArityMsg)))
  }

  /** As written, no DDL statement ever reaches the backend or the cursor's
      DDL list; as intended, it is sent as one schema update and recorded. */
  lemma DdlAsWritten(v: CursorView, p: Parser, o: Oracles, n: nat, sql: string, args: Args)
    requires v.Valid() && !v.closed && p.classify(sql) == Ddl
    ensures var s := ExecuteDdl(v, false, sql);
            s.rpcs == [] && s.view.ddl == v.ddl && s.status == Raised(TypeError(AppendArityMsg))
    ensures var s := Execute(v, false, p, o, n, sql, args);
            s.rpcs == [UpdateDdlCall([sql])] && s.view.ddl == v.ddl + [sql]
  {
    ExecuteCalls(v, p, o, n, sql, args);
  }
}
