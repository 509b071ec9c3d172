/** What each operation of the DB-API `Cursor` does, as functions of the
    cursor's state, the parent connection's closed flag, the SQL helpers and
    the backend's answers. The class `SpannerDbapi.Cursor` is proved to
    behave exactly as these functions say; the lemmas here state what the
    driver promises about them. */
module CursorModel {
  import opened DbapiErrors
  import opened Backend
  import opened Fetch
  import Description

  /** `_UNSET_COUNT`: the row count when no statement has reported one. */
  const UnsetCount: int := -1

  /** The per-query state of a cursor. `closed` is the cursor's own flag;
      the connection reference is dropped exactly when it is set. */
  datatype CursorView = CursorView(
    closed: bool,
    stream: Option<Stream>,
    itr: Option<RowIterator>,
    rowCount: int,
    arraysize: int,
    ddl: seq<string>)
  {
    ghost predicate Valid() { itr.Some? ==> itr.value.Valid() }
  }

  /** The state of a new cursor. */
  function Fresh(): (v: CursorView)
    ensures v.Valid() && !v.closed
    ensures v.stream == None && v.itr == None && v.ddl == []
    ensures v.rowCount == UnsetCount && v.arraysize == 1
  {
    CursorView(false, None, None, UnsetCount, 1, [])
  }

  /** The effect of one operation: the new state, the calls it made on the
      database handle, in order, and how it ended. */
  datatype Step = Step(view: CursorView, rpcs: seq<Rpc>, status: Status)

  /** The closed checks that guard `execute`, the fetch methods and three of
      the handlers: the cursor's own flag first, then the connection's. */
  function Guard(closed: bool, connClosed: bool): (r: Option<Exc>)
    ensures r.None? <==> !closed && !connClosed
    ensures closed ==> r == Some(InterfaceError(CursorClosedMsg))
    ensures !closed && connClosed ==> r == Some(InterfaceError(ConnectionClosedMsg))
  {
    if closed then Some(InterfaceError(CursorClosedMsg))
    else if connClosed then Some(InterfaceError(ConnectionClosedMsg))
    else None
  }

  // ---- the four handlers ----

  /** `_run_ddl_statements(sql)`: one schema update, waited for. */
  function RunDdl(v: CursorView, connClosed: bool, o: Oracles, n: nat, sql: string): (s: Step)
    ensures s.view == v
    ensures Guard(v.closed, connClosed).Some? ==> s.rpcs == [] && s.status == Raised(Guard(v.closed, connClosed).value)
    ensures Guard(v.closed, connClosed).None? ==>
              s.rpcs == [UpdateDdlCall([sql])] && (s.status.Ok? <==> o.ddl(n).None?)
  {
    match Guard(v.closed, connClosed)
    case Some(e) => Step(v, [], Raised(e))
    case None => Step(v, [UpdateDdlCall([sql])], FromBackend(o.ddl(n)))
  }

  /** `_handle_dql`: the statement runs in a read-only snapshot. An integer
      result is a row count and drops the iterator; a stream becomes the
      current stream, a peek iterator is placed over it (reading its first
      chunk, which carries the metadata, and which can itself fail) and the
      row count is unknown. */
  function HandleDql(v: CursorView, connClosed: bool, p: Parser, o: Oracles, n: nat,
                     sql: string, args: Args): (s: Step)
    ensures s.view.closed == v.closed && s.view.arraysize == v.arraysize && s.view.ddl == v.ddl
    ensures Guard(v.closed, connClosed).Some? ==> s == Step(v, [], Raised(Guard(v.closed, connClosed).value))
    ensures Guard(v.closed, connClosed).None? ==> s.rpcs == [SnapshotQueryCall(Prepare(p, sql, args))]
    ensures Guard(v.closed, connClosed).None? && o.query(n).QueryStream? ==>
              s.status == Ok && s.view.itr.Some? && s.view.itr.value.rows == o.query(n).rows
              && s.view.itr.value.pos == 0
              && Description.Describe(s.view.stream).Some?
  {
    match Guard(v.closed, connClosed)
    case Some(e) => Step(v, [], Raised(e))
    case None =>
      var rpcs := [SnapshotQueryCall(Prepare(p, sql, args))];
      match o.query(n)
      case QueryCount(k) => Step(v.(rowCount := k, itr := None), rpcs, Ok)
      case QueryStream(md, rows) =>
        var s := Stream(Some(md), rows);
        Step(v.(stream := Some(s), itr := Some(Start(s)), rowCount := UnsetCount), rpcs, Ok)
      case QueryStreamError(s, e) => Step(v.(stream := Some(s)), rpcs, Raised(Backend(e)))
      case QueryFailed(e) => Step(v, rpcs, Raised(Backend(e)))
  }

  /** The outcome of running a list of statements one after another. */
  datatype Run = Run(rpcs: seq<Rpc>, err: Option<BackendError>)

  /** `_do_execute_insert_heterogenous`: each `(sql, params)` pair in list
      order is rewritten, executed in the transaction and its result read to
      the end (the client library carries the write out only then); the
      first failure stops the run. */
  function InsertEach(p: Parser, o: Oracles, n: nat, list: seq<(string, Args)>): (r: Run)
    ensures |r.rpcs| <= 2 * |list|
    decreases |list|
  {
    if list == [] then Run([], None)
    else
      var prev := InsertEach(p, o, n, list[..|list| - 1]);
      if prev.err.Some? then prev
      else
        var (sql, params) := list[|list| - 1];
        var k := n + |prev.rpcs|;
        Run(prev.rpcs + [ExecuteSqlCall(Prepare(p, sql, params)), DrainCall], o.drain(k + 1))
  }

  /** A run that did not fail made two calls per pair; one that failed
      made at most that many, and its failure is the answer to its last
      call, the reading of the failing statement's result. */
  lemma {:induction false} InsertEachShape(p: Parser, o: Oracles, n: nat, list: seq<(string, Args)>)
    ensures var r := InsertEach(p, o, n, list);
            (r.err.None? ==> |r.rpcs| == 2 * |list|)
            && (r.err.Some? ==> 2 <= |r.rpcs| <= 2 * |list| && r.err == o.drain(n + |r.rpcs| - 1))
    decreases |list|
  {
    if list != [] {
      InsertEachShape(p, o, n, list[..|list| - 1]);
    }
  }

  /** The calls of a run are, pair by pair, the rewritten statement of each
      list item in order followed by reading its result. */
  lemma {:induction false} InsertEachCalls(p: Parser, o: Oracles, n: nat, list: seq<(string, Args)>)
    ensures var r := InsertEach(p, o, n, list);
            forall i :: 0 <= i < |list| && 2 * i + 1 < |r.rpcs| ==>
              r.rpcs[2 * i] == ExecuteSqlCall(Prepare(p, list[i].0, list[i].1)) && r.rpcs[2 * i + 1] == DrainCall
    decreases |list|
  {
    if list != [] {
      var init := list[..|list| - 1];
      InsertEachCalls(p, o, n, init);
      InsertEachShape(p, o, n, init);
      var prev := InsertEach(p, o, n, init);
      var r := InsertEach(p, o, n, list);
      var last := list[|list| - 1];
      if prev.err.None? {
        assert r.rpcs == prev.rpcs + [ExecuteSqlCall(Prepare(p, last.0, last.1)), DrainCall];
      } else {
        assert r == prev;
      }
      forall i | 0 <= i < |list| && 2 * i + 1 < |r.rpcs|
        ensures r.rpcs[2 * i] == ExecuteSqlCall(Prepare(p, list[i].0, list[i].1)) && r.rpcs[2 * i + 1] == DrainCall
      {
        if i < |init| {
          assert list[i] == init[i];
        }
      }
    }
  }

  /** Every result read before the last one of a run succeeded, and so did
      the last one if the run did. */
  lemma {:induction false} InsertEachDrains(p: Parser, o: Oracles, n: nat, list: seq<(string, Args)>)
    ensures var r := InsertEach(p, o, n, list);
            forall i :: 0 <= i < |list| && 2 * i + 1 < |r.rpcs| && (r.err.None? || 2 * i + 2 < |r.rpcs|) ==>
              o.drain(n + 2 * i + 1).None?
    decreases |list|
  {
    if list != [] {
      var init := list[..|list| - 1];
      InsertEachDrains(p, o, n, init);
      InsertEachShape(p, o, n, init);
      var prev := InsertEach(p, o, n, init);
      var r := InsertEach(p, o, n, list);
      if prev.err.Some? {
        assert r == prev;
      }
    }
  }

  /** Once a statement has failed, the statements after it are never run:
      the run over the whole list is the run over the prefix that failed. */
  lemma {:induction false} InsertEachStops(p: Parser, o: Oracles, n: nat, list: seq<(string, Args)>, j: nat)
    requires j <= |list| && InsertEach(p, o, n, list[..j]).err.Some?
    ensures InsertEach(p, o, n, list) == InsertEach(p, o, n, list[..j])
    decreases |list|
  {
    if j < |list| {
      var init := list[..|list| - 1];
      assert init[..j] == list[..j];
      InsertEachStops(p, o, n, init, j);
    } else {
      assert list[..j] == list;
    }
  }

  /** One more pair, when the run so far did not fail: its statement is
      executed and its result read, right after the calls made so far. */
  lemma InsertEachSnoc(p: Parser, o: Oracles, n: nat, list: seq<(string, Args)>, i: nat)
    requires i < |list| && InsertEach(p, o, n, list[..i]).err.None?
    ensures var prev := InsertEach(p, o, n, list[..i]);
            InsertEach(p, o, n, list[..i + 1])
              == Run(prev.rpcs + [ExecuteSqlCall(Prepare(p, list[i].0, list[i].1)), DrainCall],
                     o.drain(n + 2 * i + 1))
  {
    assert list[..i + 1][..i] == list[..i];
    InsertEachShape(p, o, n, list[..i]);
  }

  /** The same step, read on a call log that ends with the run so far. */
  lemma InsertEachSnocLog(p: Parser, o: Oracles, n: nat, list: seq<(string, Args)>, i: nat,
                          base: seq<Rpc>, log: seq<Rpc>)
    requires i < |list| && InsertEach(p, o, n, list[..i]).err.None?
    requires log == base + InsertEach(p, o, n, list[..i]).rpcs
    ensures var next := InsertEach(p, o, n, list[..i + 1]);
            log + [ExecuteSqlCall(Prepare(p, list[i].0, list[i].1)), DrainCall] == base + next.rpcs
            && next.err == o.drain(n + 2 * i + 1)
  {
    InsertEachSnoc(p, o, n, list, i);
  }

  /** `_handle_insert` (not guarded): a homogeneous insert is one bulk
      `insert` in one transaction, anything else is `InsertEach` in one
      transaction. A transaction whose begin fails does nothing more; one
      whose body fails is not committed. */
  function HandleInsert(v: CursorView, p: Parser, o: Oracles, n: nat, sql: string, args: Args): (s: Step)
    ensures s.view == v && |s.rpcs| >= 1 && s.rpcs[0] == BeginCall
    ensures o.begin(n).Some? ==> s.rpcs == [BeginCall] && s.status == Raised(Backend(o.begin(n).value))
    ensures s.status.Ok? ==> |s.rpcs| >= 2 && s.rpcs[|s.rpcs| - 1] == CommitCall
  {
    if o.begin(n).Some? then Step(v, [BeginCall], Raised(Backend(o.begin(n).value)))
    else match p.parseInsert(sql, args)
    case Homogeneous(table, columns, values) =>
      Step(v, [BeginCall, InsertCall(table, columns, values), CommitCall], FromBackend(o.commit(n + 2)))
    case Heterogeneous(list) =>
      var r := InsertEach(p, o, n + 1, list);
      if r.err.Some? then Step(v, [BeginCall] + r.rpcs, Raised(Backend(r.err.value)))
      else Step(v, [BeginCall] + r.rpcs + [CommitCall], FromBackend(o.commit(n + 1 + |r.rpcs|)))
  }

  /** Appending three stretches of calls to a log one after another is
      appending their concatenation. */
  lemma AppendThree(log: seq<Rpc>, a: seq<Rpc>, b: seq<Rpc>, c: seq<Rpc>)
    ensures log + a + b + c == log + (a + b + c)
    ensures log + a + b == log + (a + b)
  {
  }

  /** The calls of a homogeneous insert: begin, and nothing more if it
      fails; otherwise the one bulk insert and the commit, whose answer is
      the outcome. */
  lemma HandleInsertHomogeneous(v: CursorView, p: Parser, o: Oracles, n: nat, sql: string, args: Args)
    requires p.parseInsert(sql, args).Homogeneous?
    ensures var q := p.parseInsert(sql, args);
            var s := HandleInsert(v, p, o, n, sql, args);
            s.view == v
            && (o.begin(n).Some? ==> s.rpcs == [BeginCall] && s.status == Raised(Backend(o.begin(n).value)))
            && (o.begin(n).None? ==>
                  s.rpcs == [BeginCall, InsertCall(q.table, q.columns, q.values), CommitCall]
                  && s.status == FromBackend(o.commit(n + 2)))
  {
  }

  /** The calls of a heterogeneous insert: begin, and nothing more if it
      fails; otherwise the run, then the commit if the run did not fail. */
  lemma HandleInsertHeterogeneous(v: CursorView, p: Parser, o: Oracles, n: nat, sql: string, args: Args)
    requires p.parseInsert(sql, args).Heterogeneous?
    ensures var r := InsertEach(p, o, n + 1, p.parseInsert(sql, args).sqlParamsList);
            var s := HandleInsert(v, p, o, n, sql, args);
            s.view == v
            && (o.begin(n).Some? ==> s.rpcs == [BeginCall] && s.status == Raised(Backend(o.begin(n).value)))
            && (o.begin(n).None? && r.err.Some? ==>
                  s.rpcs == [BeginCall] + r.rpcs && s.status == Raised(Backend(r.err.value)))
            && (o.begin(n).None? && r.err.None? ==>
                  s.rpcs == [BeginCall] + r.rpcs + [CommitCall] && s.status == FromBackend(o.commit(n + 1 + |r.rpcs|)))
  {
  }

  /** `_handle_update`: in one transaction, `__do_execute_update` makes sure
      the statement has a WHERE clause, rewrites it and runs it; once it has
      returned, the iterator is dropped, and an integer result becomes the
      row count. The commit comes last and can still fail. */
  function HandleUpdate(v: CursorView, connClosed: bool, p: Parser, o: Oracles, n: nat,
                        sql: string, args: Args): (s: Step)
    ensures s.view.closed == v.closed && s.view.stream == v.stream && s.view.arraysize == v.arraysize
            && s.view.ddl == v.ddl
    ensures Guard(v.closed, connClosed).Some? ==> s == Step(v, [], Raised(Guard(v.closed, connClosed).value))
    ensures Guard(v.closed, connClosed).None? ==> |s.rpcs| >= 1 && s.rpcs[0] == BeginCall
    ensures Guard(v.closed, connClosed).None? && o.begin(n).Some? ==>
              s == Step(v, [BeginCall], Raised(Backend(o.begin(n).value)))
    ensures s.status.Ok? ==>
              s.rpcs == [BeginCall, ExecuteUpdateCall(Prepare(p, p.ensureWhere(sql), args)), CommitCall]
              && s.view.itr == None
  {
    match Guard(v.closed, connClosed)
    case Some(e) => Step(v, [], Raised(e))
    case None =>
      if o.begin(n).Some? then Step(v, [BeginCall], Raised(Backend(o.begin(n).value)))
      else
      var rpcs := [BeginCall, ExecuteUpdateCall(Prepare(p, p.ensureWhere(sql), args))];
      match o.update(n + 1)
      case UpdateFailed(e) => Step(v, rpcs, Raised(Backend(e)))
      case UpdateCount(k) =>
        Step(v.(itr := None, rowCount := k), rpcs + [CommitCall], FromBackend(o.commit(n + 2)))
      case UpdateOther =>
        Step(v.(itr := None), rpcs + [CommitCall], FromBackend(o.commit(n + 2)))
  }

  /** The handler `execute` picks for a statement, with the arguments it
      passes (`args or None`). A DDL statement is first added to the cursor's
      DDL list. */
  function Route(v: CursorView, connClosed: bool, p: Parser, o: Oracles, n: nat,
                 sql: string, args: Args): (s: Step)
    ensures s.view.closed == v.closed && s.view.arraysize == v.arraysize
    ensures s.view.ddl == if p.classify(sql) == Ddl then v.ddl + [sql] else v.ddl
  {
    match p.classify(sql)
    case Ddl => RunDdl(v.(ddl := v.ddl + [sql]), connClosed, o, n, sql)
    case NonUpdating => HandleDql(v, connClosed, p, o, n, sql, OrNone(args))
    case Insert => HandleInsert(v, p, o, n, sql, OrNone(args))
    case Updating => HandleUpdate(v, connClosed, p, o, n, sql, OrNone(args))
  }

  /** `execute(sql, args)`: the closed checks, then the current stream is
      dropped and the statement routed; backend exceptions of the four named
      kinds leave as DB-API errors. */
  function Execute(v: CursorView, connClosed: bool, p: Parser, o: Oracles, n: nat,
                   sql: string, args: Args): (s: Step)
    ensures v.Valid() ==> s.view.Valid()
    ensures s.view.closed == v.closed && s.view.arraysize == v.arraysize
  {
    match Guard(v.closed, connClosed)
    case Some(e) => Step(v, [], Raised(e))
    case None =>
      var h := Route(v.(stream := None), connClosed, p, o, n, sql, args);
      h.(status := TranslateStatus(h.status))
  }

  /** Past the closed checks, `execute` is the routed handler with its
      status translated. */
  lemma ExecuteRoutes(v: CursorView, connClosed: bool, p: Parser, o: Oracles, n: nat, sql: string, args: Args)
    requires Guard(v.closed, connClosed).None?
    ensures var h := Route(v.(stream := None), connClosed, p, o, n, sql, args);
            Execute(v, connClosed, p, o, n, sql, args) == Step(h.view, h.rpcs, TranslateStatus(h.status))
  {
  }

  /** One operation applied to a state, given the log position it starts at. */
  type StepFn = (CursorView, nat, Args) -> Step

  /** The state, the whole call log and the outcome after a run of steps. */
  datatype Trace = Trace(view: CursorView, log: seq<Rpc>, status: Status)

  /** Applying a step to each argument in turn, in order, each starting from
      the state and the log the previous one left, stopping at the first
      that raises. */
  function Sequence(step: StepFn, v: CursorView, log: seq<Rpc>, argsList: seq<Args>): Trace
    decreases |argsList|
  {
    if argsList == [] then Trace(v, log, Ok)
    else
      var prev := Sequence(step, v, log, argsList[..|argsList| - 1]);
      if prev.status.Raised? then prev
      else
        var s := step(prev.view, |prev.log|, argsList[|argsList| - 1]);
        Trace(s.view, prev.log + s.rpcs, s.status)
  }

  /** A run only ever appends to the log it started from. */
  lemma {:induction false} SequenceExtends(step: StepFn, v: CursorView, log: seq<Rpc>, argsList: seq<Args>)
    ensures log <= Sequence(step, v, log, argsList).log
    decreases |argsList|
  {
    if argsList != [] {
      SequenceExtends(step, v, log, argsList[..|argsList| - 1]);
    }
  }

  /** Running a sequence over `a + b` is running it over `a` and then, from
      where that left off, over `b`. */
  lemma {:induction false} SequenceAppend(step: StepFn, v: CursorView, log: seq<Rpc>, a: seq<Args>, b: seq<Args>)
    ensures var sa := Sequence(step, v, log, a);
            Sequence(step, v, log, a + b)
              == if sa.status.Raised? then sa else Sequence(step, sa.view, sa.log, b)
    decreases |b|
  {
    if b == [] {
      assert a + b == a;
    } else {
      var b' := b[..|b| - 1];
      SequenceAppend(step, v, log, a, b');
      assert (a + b)[..|a + b| - 1] == a + b';
      assert (a + b)[|a + b| - 1] == b[|b| - 1];
    }
  }

  /** One more argument: if the run so far did not raise, the step runs
      once more from where the run left off. */
  lemma SequenceSnoc(step: StepFn, v: CursorView, log: seq<Rpc>, argsList: seq<Args>, i: nat)
    requires i < |argsList| && Sequence(step, v, log, argsList[..i]).status.Ok?
    ensures var prev := Sequence(step, v, log, argsList[..i]);
            var s := step(prev.view, |prev.log|, argsList[i]);
            Sequence(step, v, log, argsList[..i + 1]) == Trace(s.view, prev.log + s.rpcs, s.status)
  {
    assert argsList[..i + 1][..i] == argsList[..i];
  }

  /** Once a step has raised, the later arguments are never used. */
  lemma SequenceStops(step: StepFn, v: CursorView, log: seq<Rpc>, argsList: seq<Args>, i: nat)
    requires i <= |argsList| && Sequence(step, v, log, argsList[..i]).status.Raised?
    ensures Sequence(step, v, log, argsList) == Sequence(step, v, log, argsList[..i])
  {
    SequenceAppend(step, v, log, argsList[..i], argsList[i..]);
    assert argsList[..i] + argsList[i..] == argsList;
  }

  /** `execute(sql, ·)` as a step. */
  function ExecuteStep(connClosed: bool, p: Parser, o: Oracles, sql: string): (step: StepFn)
  {
    (w: CursorView, k: nat, args: Args) => Execute(w, connClosed, p, o, k, sql, args)
  }

  /** The loop of `executemany`: `execute` once per parameter set, in order,
      stopping at the first that raises. */
  function ExecuteEach(v: CursorView, connClosed: bool, p: Parser, o: Oracles, log: seq<Rpc>,
                       sql: string, argsList: seq<Args>): Trace
  {
    Sequence(ExecuteStep(connClosed, p, o, sql), v, log, argsList)
  }

  /** `executemany`: it is not guarded, but refuses a cursor that has no
      connection any more, i.e. one that was closed. */
  function ExecuteMany(v: CursorView, connClosed: bool, p: Parser, o: Oracles, log: seq<Rpc>,
                       sql: string, argsList: seq<Args>): (t: Trace)
    ensures log <= t.log
    ensures v.closed ==> t == Trace(v, log, Raised(ProgrammingError(NotConnectedMsg)))
    ensures !v.closed && argsList == [] ==> t == Trace(v, log, Ok)
  {
    if v.closed then Trace(v, log, Raised(ProgrammingError(NotConnectedMsg)))
    else
      SequenceExtends(ExecuteStep(connClosed, p, o, sql), v, log, argsList);
      ExecuteEach(v, connClosed, p, o, log, sql, argsList)
  }

  // ---- fetching ----

  /** The effect of a fetch: the new state and the rows or the exception. */
  datatype Fetched<T> = Fetched(view: CursorView, result: Result<T>)

  /** `__next__`: the next row of the iterator (`None` for StopIteration);
      a `ProgrammingError` when there is no iterator. */
  function Next(v: CursorView): (f: Fetched<Option<Row>>)
    requires v.Valid()
    ensures f.view.Valid()
  {
    match v.itr
    case None => Fetched(v, Failure(ProgrammingError(NoResultsMsg)))
    case Some(it) =>
      var (row, it') := Advance(it);
      Fetched(v.(itr := Some(it')), Success(row))
  }

  /** `fetchone`: guarded `next(self)`, with exhaustion turned into `None`. */
  function FetchOne(v: CursorView, connClosed: bool): (f: Fetched<Option<Row>>)
    requires v.Valid()
    ensures f.view.Valid()
  {
    match Guard(v.closed, connClosed)
    case Some(e) => Fetched(v, Failure(e))
    case None => Next(v)
  }

  /** `fetchmany(size)`: guarded; `size` defaults to `arraysize`. A size
      that is zero or negative asks for nothing and so never reaches the
      iterator check. */
  function FetchMany(v: CursorView, connClosed: bool, size: Option<int>): (f: Fetched<seq<Row>>)
    requires v.Valid()
    ensures f.view.Valid()
  {
    match Guard(v.closed, connClosed)
    case Some(e) => Fetched(v, Failure(e))
    case None =>
      var k := if size.Some? then size.value else v.arraysize;
      if k <= 0 then Fetched(v, Success([]))
      else match v.itr
        case None => Fetched(v, Failure(ProgrammingError(NoResultsMsg)))
        case Some(it) =>
          var (rows, it') := TakeMany(it, k);
          Fetched(v.(itr := Some(it')), Success(rows))
  }

  /** `fetchall`: guarded `list(iter(self))`. */
  function FetchAll(v: CursorView, connClosed: bool): (f: Fetched<seq<Row>>)
    requires v.Valid()
    ensures f.view.Valid()
  {
    match Guard(v.closed, connClosed)
    case Some(e) => Fetched(v, Failure(e))
    case None =>
      match v.itr
      case None => Fetched(v, Failure(ProgrammingError(NoResultsMsg)))
      case Some(it) =>
        var (rows, it') := TakeAll(it);
        Fetched(v.(itr := Some(it')), Success(rows))
  }

  // ==== properties ====

  /** The closed checks run before anything else, the cursor's first: a
      closed cursor, or an open cursor of a closed connection, raises the
      matching `InterfaceError`, makes no call and changes nothing. */
  lemma ExecuteGuardFirst(v: CursorView, connClosed: bool, p: Parser, o: Oracles, n: nat,
                          sql: string, args: Args)
    requires v.Valid() && (v.closed || connClosed)
    ensures var s := Execute(v, connClosed, p, o, n, sql, args);
            s.view == v && s.rpcs == []
            && s.status == Raised(InterfaceError(if v.closed then CursorClosedMsg else ConnectionClosedMsg))
  {
  }

  /** Which handler a call belongs to (none for the transaction brackets). */
  function Owner(r: Rpc): Option<StmtKind>
  {
    match r
    case UpdateDdlCall(_) => Some(Ddl)
    case SnapshotQueryCall(_) => Some(NonUpdating)
    case InsertCall(_, _, _) => Some(Insert)
    case ExecuteSqlCall(_) => Some(Insert)
    case DrainCall => Some(Insert)
    case ExecuteUpdateCall(_) => Some(Updating)
    case BeginCall => None
    case CommitCall => None
  }

  lemma {:induction false} InsertEachOwned(p: Parser, o: Oracles, n: nat, list: seq<(string, Args)>)
    ensures forall r :: r in InsertEach(p, o, n, list).rpcs ==> Owner(r) == Some(Insert)
    decreases |list|
  {
    if list != [] {
      var init := list[..|list| - 1];
      InsertEachOwned(p, o, n, init);
    }
  }

  /** `execute` picks exactly one handler, the one for the statement's tag:
      once the checks pass it calls the database, and every call it makes
      belongs to that handler (besides the transaction's begin and commit). */
  lemma ExecuteOneHandler(v: CursorView, connClosed: bool, p: Parser, o: Oracles, n: nat,
                          sql: string, args: Args)
    requires v.Valid() && !v.closed && !connClosed
    ensures var s := Execute(v, connClosed, p, o, n, sql, args);
            |s.rpcs| >= 1
            && forall r :: r in s.rpcs && Owner(r).Some? ==> Owner(r) == Some(p.classify(sql))
  {
    var s := Execute(v, connClosed, p, o, n, sql, args);
    var a := OrNone(args);
    match p.classify(sql)
    case Insert =>
      var h := HandleInsert(v.(stream := None), p, o, n, sql, a);
      HandleInsertOwned(v.(stream := None), p, o, n, sql, a);
      assert s.rpcs == h.rpcs;
    case Updating =>
      var u := ExecuteUpdateCall(Prepare(p, p.ensureWhere(sql), a));
      assert s.rpcs == [BeginCall] || s.rpcs == [BeginCall, u] || s.rpcs == [BeginCall, u, CommitCall];
    case Ddl =>
      assert s.rpcs == [UpdateDdlCall([sql])];
    case NonUpdating =>
      assert s.rpcs == [SnapshotQueryCall(Prepare(p, sql, a))];
  }

  /** Every call of an insert that is not a transaction bracket is an
      insert's own call, and there is at least one. */
  lemma HandleInsertOwned(v: CursorView, p: Parser, o: Oracles, n: nat, sql: string, args: Args)
    ensures var s := HandleInsert(v, p, o, n, sql, args);
            |s.rpcs| >= 1 && forall r :: r in s.rpcs && Owner(r).Some? ==> Owner(r) == Some(Insert)
  {
    var parts := p.parseInsert(sql, args);
    if parts.Heterogeneous? {
      HandleInsertHeterogeneous(v, p, o, n, sql, args);
      InsertEachOwned(p, o, n + 1, parts.sqlParamsList);
    }
  }

  /** What each handler sends: a DDL statement is one schema update of that
      statement (and is kept in the cursor's DDL list); a read-only one is
      one snapshot query of the rewritten statement; a homogeneous insert is
      exactly one bulk insert between begin and commit; any other statement
      starts a transaction and runs the statement, with a WHERE clause
      ensured, through `execute_update`. */
  lemma ExecuteCalls(v: CursorView, p: Parser, o: Oracles, n: nat, sql: string, args: Args)
    requires v.Valid() && !v.closed
    ensures var s := Execute(v, false, p, o, n, sql, args);
            var a := OrNone(args);
            match p.classify(sql)
            case Ddl => s.rpcs == [UpdateDdlCall([sql])] && s.view.ddl == v.ddl + [sql]
            case NonUpdating => s.rpcs == [SnapshotQueryCall(Prepare(p, sql, a))] && s.view.ddl == v.ddl
            case Insert =>
              s.view.ddl == v.ddl && (o.begin(n).Some? ==> s.rpcs == [BeginCall]) &&
              (o.begin(n).None? && p.parseInsert(sql, a).Homogeneous? ==>
                 var parts := p.parseInsert(sql, a);
                 s.rpcs == [BeginCall, InsertCall(parts.table, parts.columns, parts.values), CommitCall])
            case Updating =>
              s.view.ddl == v.ddl && (o.begin(n).Some? ==> s.rpcs == [BeginCall]) &&
              (o.begin(n).None? ==>
                 |s.rpcs| >= 2 && s.rpcs[..2] == [BeginCall, ExecuteUpdateCall(Prepare(p, p.ensureWhere(sql), a))])
  {
  }

  /** A heterogeneous insert that succeeds runs every pair of its list, in
      order, each followed by reading its result to the end, inside one
      transaction that is then committed. */
  lemma HeterogeneousInsertRunsAll(v: CursorView, p: Parser, o: Oracles, n: nat, sql: string, args: Args)
    requires v.Valid() && !v.closed
    requires p.classify(sql) == Insert && p.parseInsert(sql, OrNone(args)).Heterogeneous?
    ensures var s := Execute(v, false, p, o, n, sql, args);
            var list := p.parseInsert(sql, OrNone(args)).sqlParamsList;
            s.status.Ok? ==>
              |s.rpcs| == 2 * |list| + 2 && s.rpcs[0] == BeginCall && s.rpcs[|s.rpcs| - 1] == CommitCall
              && forall i :: 0 <= i < |list| ==>
                   s.rpcs[2 * i + 1] == ExecuteSqlCall(Prepare(p, list[i].0, list[i].1))
                   && s.rpcs[2 * i + 2] == DrainCall
  {
    var h := HandleInsert(v.(stream := None), p, o, n, sql, OrNone(args));
    HandleInsertRunsAll(v.(stream := None), p, o, n, sql, OrNone(args));
    var s := Execute(v, false, p, o, n, sql, args);
    assert s.rpcs == h.rpcs && s.status == TranslateStatus(h.status);
  }

  /** The same, for the insert handler on its own. */
  lemma HandleInsertRunsAll(v: CursorView, p: Parser, o: Oracles, n: nat, sql: string, args: Args)
    requires p.parseInsert(sql, args).Heterogeneous?
    ensures var h := HandleInsert(v, p, o, n, sql, args);
            var list := p.parseInsert(sql, args).sqlParamsList;
            h.status.Ok? ==>
              |h.rpcs| == 2 * |list| + 2 && h.rpcs[0] == BeginCall && h.rpcs[|h.rpcs| - 1] == CommitCall
              && forall i :: 0 <= i < |list| ==>
                   h.rpcs[2 * i + 1] == ExecuteSqlCall(Prepare(p, list[i].0, list[i].1))
                   && h.rpcs[2 * i + 2] == DrainCall
  {
    var list := p.parseInsert(sql, args).sqlParamsList;
    var r := InsertEach(p, o, n + 1, list);
    InsertEachCalls(p, o, n + 1, list);
    InsertEachShape(p, o, n + 1, list);
    var h := HandleInsert(v, p, o, n, sql, args);
    HandleInsertHeterogeneous(v, p, o, n, sql, args);
    if h.status.Ok? {
      assert r.err.None?;
      assert h.rpcs == [BeginCall] + r.rpcs + [CommitCall];
      forall i | 0 <= i < |list|
        ensures h.rpcs[2 * i + 1] == ExecuteSqlCall(Prepare(p, list[i].0, list[i].1))
        ensures h.rpcs[2 * i + 2] == DrainCall
      {
        Bracketed(r.rpcs, 2 * i);
      }
    }
  }

  /** Inside a transaction's brackets, the call at position `k` of the body
      sits at position `k + 1`. */
  lemma Bracketed(body: seq<Rpc>, k: nat)
    requires k + 1 < |body|
    ensures ([BeginCall] + body + [CommitCall])[k + 1] == body[k]
    ensures ([BeginCall] + body + [CommitCall])[k + 2] == body[k + 1]
  {
  }

  /** Every execute drops the current stream, so that `description` is
      `None` afterwards, unless the read-only path received a stream, which
      then becomes the current stream. When its first chunk was read, the
      stream's metadata is there, and `description` has one column per
      field of it. */
  lemma ExecuteStream(v: CursorView, p: Parser, o: Oracles, n: nat, sql: string, args: Args)
    requires v.Valid() && !v.closed
    ensures var s := Execute(v, false, p, o, n, sql, args);
            var q := o.query(n);
            if p.classify(sql) == NonUpdating && q.QueryStream? then
              s.view.stream == Some(Stream(Some(q.metadata), q.rows))
              && Description.Describe(s.view.stream).Some?
              && |Description.Describe(s.view.stream).value| == |q.metadata.fields|
            else if p.classify(sql) == NonUpdating && q.QueryStreamError? then s.view.stream == Some(q.stream)
            else s.view.stream == None && Description.Describe(s.view.stream) == None
  {
  }

  /** How `execute` leaves the iterator and the row count. The DDL and
      insert paths leave both alone. The read-only path: a stream gives a
      fresh iterator over its rows and the unknown row count, an integer
      becomes the row count and drops the iterator. The update path drops the
      iterator once `execute_update` has returned, and its integer result
      becomes the row count; any other result leaves the count alone. */
  lemma ExecuteIteratorAndCount(v: CursorView, p: Parser, o: Oracles, n: nat, sql: string, args: Args)
    requires v.Valid() && !v.closed
    ensures var s := Execute(v, false, p, o, n, sql, args);
            match p.classify(sql)
            case Ddl => s.view.itr == v.itr && s.view.rowCount == v.rowCount
            case Insert => s.view.itr == v.itr && s.view.rowCount == v.rowCount
            case NonUpdating =>
              (match o.query(n)
               case QueryCount(k) => s.view.itr == None && s.view.rowCount == k
               case QueryStream(md, rows) =>
                 s.view.itr == Some(Start(Stream(Some(md), rows))) && s.view.itr.value.Remaining() == rows
                 && s.view.rowCount == UnsetCount
               case _ => s.view.itr == v.itr && s.view.rowCount == v.rowCount)
            case Updating =>
              if o.begin(n).Some? then s.view.itr == v.itr && s.view.rowCount == v.rowCount
              else
              (match o.update(n + 1)
               case UpdateFailed(_) => s.view.itr == v.itr && s.view.rowCount == v.rowCount
               case UpdateCount(k) => s.view.itr == None && s.view.rowCount == k
               case UpdateOther => s.view.itr == None && s.view.rowCount == v.rowCount)
  {
  }

  /** No backend exception of the four named kinds leaves `execute`
      untranslated, whichever handler raised it. */
  lemma ExecuteTranslatesNamedErrors(v: CursorView, connClosed: bool, p: Parser, o: Oracles, n: nat,
                                     sql: string, args: Args)
    requires v.Valid()
    ensures var s := Execute(v, connClosed, p, o, n, sql, args);
            s.status.Raised? && s.status.exc.Backend? ==> s.status.exc.cause.kind.OtherBackend?
  {
  }

  /** A failed schema update is raised as the translation of the backend's
      exception: `AlreadyExists` and `FailedPrecondition` as an
      `IntegrityError`, `InvalidArgument` as a `ProgrammingError`,
      `InternalServerError` as an `OperationalError`, each carrying the
      backend's details. */
  lemma ExecuteDdlFailure(v: CursorView, p: Parser, o: Oracles, n: nat, sql: string, args: Args)
    requires v.Valid() && !v.closed && p.classify(sql) == Ddl && o.ddl(n).Some?
    ensures var s := Execute(v, false, p, o, n, sql, args);
            var e := o.ddl(n).value;
            s.status == Raised(Translate(Backend(e)))
            && (e.kind in {AlreadyExists, FailedPrecondition} ==> s.status.exc == IntegrityError(e.details))
            && (e.kind == InvalidArgument ==> s.status.exc == ProgrammingError(e.details))
            && (e.kind == InternalServerError ==> s.status.exc == OperationalError(e.details))
  {
  }

  /** `executemany` over `a + b` is `executemany` over `a` and then, unless
      that raised, over `b` from the state and log it left. */
  lemma ExecuteEachAppend(v: CursorView, connClosed: bool, p: Parser, o: Oracles,
                          log: seq<Rpc>, sql: string, a: seq<Args>, b: seq<Args>)
    ensures var sa := ExecuteEach(v, connClosed, p, o, log, sql, a);
            ExecuteEach(v, connClosed, p, o, log, sql, a + b)
              == if sa.status.Raised? then sa else ExecuteEach(sa.view, connClosed, p, o, sa.log, sql, b)
  {
    SequenceAppend(ExecuteStep(connClosed, p, o, sql), v, log, a, b);
  }

  /** One parameter set: `executemany` is a single `execute`. */
  lemma ExecuteEachOne(v: CursorView, connClosed: bool, p: Parser, o: Oracles, log: seq<Rpc>,
                       sql: string, args: Args)
    ensures var s := Execute(v, connClosed, p, o, |log|, sql, args);
            ExecuteEach(v, connClosed, p, o, log, sql, [args]) == Trace(s.view, log + s.rpcs, s.status)
  {
    var step := ExecuteStep(connClosed, p, o, sql);
    assert [args][..0] == [];
    assert Sequence(step, v, log, []) == Trace(v, log, Ok);
    assert step(v, |log|, args) == Execute(v, connClosed, p, o, |log|, sql, args);
  }

  /** A closed cursor makes `executemany` raise `ProgrammingError`, not the
      `InterfaceError` of the guarded methods, because it only looks at the
      connection reference that `close` dropped. */
  lemma ExecuteManyOnClosedCursor(v: CursorView, connClosed: bool, p: Parser, o: Oracles, log: seq<Rpc>,
                                  sql: string, argsList: seq<Args>)
    requires v.closed
    ensures ExecuteMany(v, connClosed, p, o, log, sql, argsList)
      == Trace(v, log, Raised(ProgrammingError(NotConnectedMsg)))
  {
  }

  /** `fetchmany` hands out at most `size` rows (by default `arraysize`),
      fewer only when the rows run out, and together with the rows that are
      left they are exactly the rows that were left before. */
  lemma FetchManyBound(v: CursorView, size: Option<int>)
    requires v.Valid() && !v.closed && v.itr.Some?
    ensures var f := FetchMany(v, false, size);
            var k := if size.Some? then size.value else v.arraysize;
            f.result.Success? && f.view.itr.Some?
            && |f.result.value| <= (if k < 0 then 0 else k)
            && (|f.result.value| < k ==> f.view.itr.value.Remaining() == [])
            && f.result.value + f.view.itr.value.Remaining() == v.itr.value.Remaining()
  {
  }

  /** `fetchone` returns `None` exactly when the rows have run out, and
      then changes nothing. */
  lemma FetchOneAtEnd(v: CursorView)
    requires v.Valid() && !v.closed && v.itr.Some?
    ensures var f := FetchOne(v, false);
            f.result.Success?
            && (f.result.value == None <==> v.itr.value.Remaining() == [])
            && (f.result.value == None ==> f.view == v)
  {
  }

  /** `fetchall` returns exactly the rows that are left and leaves none. */
  lemma FetchAllRemaining(v: CursorView)
    requires v.Valid() && !v.closed && v.itr.Some?
    ensures var f := FetchAll(v, false);
            f.result == Success(v.itr.value.Remaining())
            && f.view.itr.Some? && f.view.itr.value.Remaining() == []
  {
  }

  /** Without an iterator every fetch that reaches the iterator raises
      `ProgrammingError`; a closed cursor raises `InterfaceError` first. */
  lemma FetchWithoutIterator(v: CursorView, connClosed: bool)
    requires v.Valid() && v.itr.None?
    ensures Next(v).result == Failure(ProgrammingError(NoResultsMsg))
    ensures var g := Guard(v.closed, connClosed);
            FetchOne(v, connClosed).result == Failure(if g.Some? then g.value else ProgrammingError(NoResultsMsg))
            && FetchAll(v, connClosed).result == Failure(if g.Some? then g.value else ProgrammingError(NoResultsMsg))
  {
  }

  /** A run of `fetchmany` calls on an open cursor, followed by `fetchall`,
      hands out the rows of the iterator once each, in order. */
  lemma {:induction false} FetchManyThenFetchAll(v: CursorView, sizes: seq<nat>)
    requires v.Valid() && !v.closed && v.itr.Some?
    ensures FetchManyRows(v, sizes) + FetchAll(FetchManyState(v, sizes), false).result.value
      == v.itr.value.Remaining()
  {
    FetchManyRowsRun(v, sizes);
    FetchManyThenAll(v.itr.value, sizes);
  }

  /** Successive `fetchmany` calls on the cursor are the iterator's run of
      `fetchmany` calls: the same rows, and the iterator it leaves. */
  lemma {:induction false} FetchManyRowsRun(v: CursorView, sizes: seq<nat>)
    requires v.Valid() && !v.closed && v.itr.Some?
    ensures var run := FetchManyRun(v.itr.value, sizes);
            FetchManyRows(v, sizes) == run.0 && FetchManyState(v, sizes) == v.(itr := Some(run.1))
    decreases |sizes|
  {
    if sizes != [] {
      var f := FetchMany(v, false, Some(sizes[0]));
      FetchManyRowsRun(f.view, sizes[1..]);
      if sizes[0] == 0 {
        assert TakeMany(v.itr.value, 0).1 == v.itr.value;
      }
      assert f.view == v.(itr := Some(TakeMany(v.itr.value, sizes[0]).1));
    }
  }

  /** The rows handed out by successive `fetchmany(size)` calls on an open
      cursor that has an iterator. */
  function FetchManyRows(v: CursorView, sizes: seq<nat>): seq<Row>
    requires v.Valid() && !v.closed && v.itr.Some?
    decreases |sizes|
  {
    if sizes == [] then []
    else
      var f := FetchMany(v, false, Some(sizes[0]));
      f.result.value + FetchManyRows(f.view, sizes[1..])
  }

  /** The state those calls leave. */
  function FetchManyState(v: CursorView, sizes: seq<nat>): (w: CursorView)
    requires v.Valid() && !v.closed && v.itr.Some?
    ensures w.Valid() && !w.closed && w.itr.Some?
    decreases |sizes|
  {
    if sizes == [] then v
    else FetchManyState(FetchMany(v, false, Some(sizes[0])).view, sizes[1..])
  }
}
