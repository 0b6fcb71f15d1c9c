/**
 * BulkInsert: what `postgresInsertOrBatchIgnoreOnConflict` does with the
 * database, as a function of its inputs. The database is an executor: a
 * function from a raw query, and the transaction it is bound to, to the rows
 * it returns or a failure. `Run` records the outcome together with every
 * query that was sent, so what happened before a failure stays visible.
 */
module BulkInsert {
  import opened Results
  import opened JsSemantics
  import opened RawInsert
  import opened Chunking

  /** A knex transaction handle (`Knex.Transaction`), opaque to the builder. */
  datatype Transaction = Transaction(id: nat)

  /** What awaiting a raw query gives: the returned rows, or a rejection. */
  datatype QueryResult<R> = Rows(rows: seq<R>) | Failed(reason: string)

  /** The outcome of a call and the queries it sent to the database, in order. */
  datatype Run<T> = Run(result: Result<T, Error>, issued: seq<RawQuery>)

  /**
   * One turn of the loop on a built statement: a statement that could not be
   * built ends the run with its error and sends nothing; a sent query that
   * fails ends the run; returned rows are kept (when returning is set) in
   * front of what the later turns give.
   */
  function Turn<R>(s: Result<RawQuery, Error>, returning: bool, trx: Option<Transaction>,
                   exec: (RawQuery, Option<Transaction>) -> QueryResult<R>, later: Run<seq<R>>): Run<seq<R>>
  {
    match s
    case Err(e) => Run(Err(e), [])
    case Ok(q) =>
      match exec(q, trx)
      case Failed(reason) => Run(Err(QueryFailed(reason)), [q])
      case Rows(rows) => Prepend(if returning then rows else [], [q], later)
  }

  /** The chunk loop from `nextFirstEl = next` on, moving on by `size`. */
  function RunFrom<R>(table: string, data: seq<Record>, c: PostgresOnConflict, size: nat, returning: bool,
                      trx: Option<Transaction>, exec: (RawQuery, Option<Transaction>) -> QueryResult<R>,
                      next: nat): Run<seq<R>>
    decreases |data| - next, 2
  {
    if next >= |data| then Run(Ok([]), []) else TurnAt(table, data, c, size, returning, trx, exec, next)
  }

  /**
   * The turn of the loop at `next`, followed by the turns after it. An empty
   * chunk throws at `Object.keys(data[0])` before anything is sent.
   */
  function TurnAt<R>(table: string, data: seq<Record>, c: PostgresOnConflict, size: nat, returning: bool,
                     trx: Option<Transaction>, exec: (RawQuery, Option<Transaction>) -> QueryResult<R>,
                     next: nat): Run<seq<R>>
    requires next < |data|
    decreases |data| - next, 1
  {
    if Chunk(data, size, next) == [] then Run(Err(KeysOfMissingFirstRecord), [])
    else TurnWith(table, data, c, size, returning, trx, exec, next)
  }

  /** The turn at `next` on a chunk that is not empty: its statement is sent, then the loop moves on. */
  function TurnWith<R>(table: string, data: seq<Record>, c: PostgresOnConflict, size: nat, returning: bool,
                       trx: Option<Transaction>, exec: (RawQuery, Option<Transaction>) -> QueryResult<R>,
                       next: nat): Run<seq<R>>
    requires next < |data| && size > 0
    decreases |data| - next, 0
  {
    Turn(InsertIgnoreStatement(table, Chunk(data, size, next), c), returning, trx, exec,
         RunFrom(table, data, c, size, returning, trx, exec, next + size))
  }

  /**
   * One turn of the loop at `next`: a chunk whose statement cannot be built
   * ends the run with that error and sends nothing; otherwise the chunk is
   * not empty, so the bulk size is positive, a failing query ends the run
   * after it is sent, and returned rows go in front of the later turns'.
   */
  lemma RunFromStep<R>(table: string, data: seq<Record>, c: PostgresOnConflict, size: nat, returning: bool,
                       trx: Option<Transaction>, exec: (RawQuery, Option<Transaction>) -> QueryResult<R>, next: nat)
    requires next < |data|
    ensures var chunk := Chunk(data, size, next);
            var run := RunFrom(table, data, c, size, returning, trx, exec, next);
            var later := RunFrom(table, data, c, size, returning, trx, exec, next + size);
            match InsertIgnoreStatement(table, chunk, c)
            case Err(e) => run == Run(Err(e), [])
            case Ok(q) =>
              && size > 0
              && (exec(q, trx).Failed? ==> run == Run(Err(QueryFailed(exec(q, trx).reason)), [q]))
              && (exec(q, trx).Rows? ==> run == Prepend(if returning then exec(q, trx).rows else [], [q], later))
  {
    TurnAtIsTurn(table, data, c, size, returning, trx, exec, next);
  }

  /** The loop's turn at `next` is `Turn` on the statement of the chunk at `next`, an empty chunk included. */
  lemma TurnAtIsTurn<R>(table: string, data: seq<Record>, c: PostgresOnConflict, size: nat, returning: bool,
                        trx: Option<Transaction>, exec: (RawQuery, Option<Transaction>) -> QueryResult<R>, next: nat)
    requires next < |data|
    ensures RunFrom(table, data, c, size, returning, trx, exec, next) ==
            Turn(InsertIgnoreStatement(table, Chunk(data, size, next), c), returning, trx, exec,
                 RunFrom(table, data, c, size, returning, trx, exec, next + size))
  {
    assert RunFrom(table, data, c, size, returning, trx, exec, next) == TurnAt(table, data, c, size, returning, trx, exec, next);
    if Chunk(data, size, next) != [] {
      assert TurnAt(table, data, c, size, returning, trx, exec, next) == TurnWith(table, data, c, size, returning, trx, exec, next);
    }
  }

  /** When the loop ends, the run so far is the whole run. */
  lemma LoopDone<R>(table: string, data: seq<Record>, c: PostgresOnConflict, size: nat, returning: bool,
                    trx: Option<Transaction>, exec: (RawQuery, Option<Transaction>) -> QueryResult<R>, next: nat,
                    whole: Run<seq<R>>, rows: seq<R>, issued: seq<RawQuery>)
    requires next >= |data|
    requires whole == Prepend(rows, issued, RunFrom(table, data, c, size, returning, trx, exec, next))
    ensures whole == Run(Ok(rows), issued)
  {
    assert rows + [] == rows && issued + [] == issued;
  }

  /** Rows and queries of earlier turns in front of a later run's. */
  function Prepend<R>(rows: seq<R>, issued: seq<RawQuery>, run: Run<seq<R>>): (r: Run<seq<R>>)
    ensures r.issued == issued + run.issued
    ensures r.result.Ok? <==> run.result.Ok?
    ensures r.result.Ok? ==> r.result.value == rows + run.result.value
    ensures r.result.Err? ==> r.result.error == run.result.error
  {
    Run(match run.result
        case Ok(later) => Ok(rows + later)
        case Err(e) => Err(e),
        issued + run.issued)
  }

  /** Prepending nothing leaves a run as it is. */
  lemma PrependNothing<R>(run: Run<seq<R>>)
    ensures Prepend([], [], run) == run
  {
    match run.result
    case Ok(later) => assert [] + later == later;
    case Err(_) =>
  }

  /** Prepending twice is prepending the two runs of rows and of queries at once. */
  lemma PrependPrepend<R>(rows: seq<R>, issued: seq<RawQuery>, rows': seq<R>, issued': seq<RawQuery>, run: Run<seq<R>>)
    ensures Prepend(rows, issued, Prepend(rows', issued', run)) == Prepend(rows + rows', issued + issued', run)
  {
    assert issued + (issued' + run.issued) == issued + issued' + run.issued;
    match run.result
    case Ok(later) => assert rows + (rows' + later) == rows + rows' + later;
    case Err(_) =>
  }

  /** The statements of a list of chunks, one per chunk. */
  function Statements(table: string, chunks: seq<seq<Record>>, c: PostgresOnConflict): (ss: seq<Result<RawQuery, Error>>)
    ensures |ss| == |chunks|
    decreases |chunks|
  {
    if |chunks| == 0 then [] else [InsertIgnoreStatement(table, chunks[0], c)] + Statements(table, chunks[1..], c)
  }

  /** The statement at position i is the statement of chunk i. */
  lemma {:induction false} StatementsAt(table: string, chunks: seq<seq<Record>>, c: PostgresOnConflict)
    ensures forall i :: 0 <= i < |chunks| ==> Statements(table, chunks, c)[i] == InsertIgnoreStatement(table, chunks[i], c)
    decreases |chunks|
  {
    if |chunks| > 0 {
      StatementsAt(table, chunks[1..], c);
      var ss := Statements(table, chunks, c);
      assert ss[1..] == Statements(table, chunks[1..], c);
      forall i | 1 <= i < |chunks|
        ensures ss[i] == InsertIgnoreStatement(table, chunks[i], c)
      {
        assert ss[i] == ss[1..][i - 1] && chunks[i] == chunks[1..][i - 1];
      }
    }
  }

  /** The same loop over a list of statements given in advance. */
  function RunPlan<R>(stmts: seq<Result<RawQuery, Error>>, returning: bool, trx: Option<Transaction>,
                      exec: (RawQuery, Option<Transaction>) -> QueryResult<R>): Run<seq<R>>
    decreases |stmts|
  {
    if |stmts| == 0 then Run(Ok([]), [])
    else Turn(stmts[0], returning, trx, exec, RunPlan(stmts[1..], returning, trx, exec))
  }

  /** The rows the given queries return, one query after the other. */
  function CollectRows<R>(exec: (RawQuery, Option<Transaction>) -> QueryResult<R>, trx: Option<Transaction>,
                          qs: seq<RawQuery>): seq<R>
    decreases |qs|
  {
    if |qs| == 0 then []
    else (match exec(qs[0], trx) case Rows(rows) => rows case Failed(_) => []) + CollectRows(exec, trx, qs[1..])
  }

  /** After the loop: the collected rows when returning is set, null otherwise. */
  function Collected<R>(run: Run<seq<R>>, returning: bool): (r: Run<Option<seq<R>>>)
    ensures r.issued == run.issued
    ensures r.result.Ok? <==> run.result.Ok?
    ensures r.result.Ok? ==> r.result.value == if returning then Some(run.result.value) else None
    ensures r.result.Err? ==> r.result.error == run.result.error
  {
    Run(match run.result
        case Ok(rows) => Ok(if returning then Some(rows) else None)
        case Err(e) => Err(e),
        run.issued)
  }

  /**
   * `postgresInsertOrBatchIgnoreOnConflict`: chunked, it runs the loop and
   * yields the collected rows when returning is set and null otherwise;
   * single-shot, it yields whatever the one query returns.
   */
  function IgnoreOnConflictOutcome<R>(table: string, returning: bool, trx: Option<Transaction>,
                                      data: seq<Record>, c: PostgresOnConflict,
                                      autoBulk: bool, bulkSize: nat, bulk: bool,
                                      exec: (RawQuery, Option<Transaction>) -> QueryResult<R>): Run<Option<seq<R>>>
  {
    if BulkDecision(|data|, autoBulk, bulkSize, bulk) then
      Collected(RunFrom(table, data, c, bulkSize, returning, trx, exec, 0), returning)
    else
      match InsertIgnoreStatement(table, data, c)
      case Err(e) => Run(Err(e), [])
      case Ok(q) =>
        match exec(q, trx)
        case Failed(reason) => Run(Err(QueryFailed(reason)), [q])
        case Rows(rows) => Run(Ok(Some(rows)), [q])
  }

  /** The loop over the input is the loop over the statements of the input's chunk plan. */
  lemma {:induction false} RunFromFollowsPlan<R>(table: string, data: seq<Record>, c: PostgresOnConflict, size: nat,
                                                 returning: bool, trx: Option<Transaction>,
                                                 exec: (RawQuery, Option<Transaction>) -> QueryResult<R>, next: nat)
    requires size > 0
    ensures RunFrom(table, data, c, size, returning, trx, exec, next) ==
            RunPlan(Statements(table, Chunks(data, size, next), c), returning, trx, exec)
    decreases |data| - next
  {
    if next < |data| {
      RunFromFollowsPlan(table, data, c, size, returning, trx, exec, next + size);
      FollowsPlanStep(table, data, c, size, returning, trx, exec, next);
    }
  }

  /** The turn at `next` is the first step of the plan from `next`, and the later turns are the rest of it. */
  lemma FollowsPlanStep<R>(table: string, data: seq<Record>, c: PostgresOnConflict, size: nat,
                           returning: bool, trx: Option<Transaction>,
                           exec: (RawQuery, Option<Transaction>) -> QueryResult<R>, next: nat)
    requires size > 0 && next < |data|
    requires RunFrom(table, data, c, size, returning, trx, exec, next + size) ==
             RunPlan(Statements(table, Chunks(data, size, next + size), c), returning, trx, exec)
    ensures RunFrom(table, data, c, size, returning, trx, exec, next) ==
            RunPlan(Statements(table, Chunks(data, size, next), c), returning, trx, exec)
  {
    var cs := Chunks(data, size, next);
    ChunksCons(data, size, next);
    StatementsCons(table, cs, c);
    RunPlanCons(Statements(table, cs, c), returning, trx, exec);
    TurnAtIsTurn(table, data, c, size, returning, trx, exec, next);
  }

  /** The statements of a non-empty list of chunks: the first chunk's, then the rest's. */
  lemma StatementsCons(table: string, chunks: seq<seq<Record>>, c: PostgresOnConflict)
    requires |chunks| > 0
    ensures Statements(table, chunks, c)[0] == InsertIgnoreStatement(table, chunks[0], c)
    ensures Statements(table, chunks, c)[1..] == Statements(table, chunks[1..], c)
  {
    assert Statements(table, chunks, c) == [InsertIgnoreStatement(table, chunks[0], c)] + Statements(table, chunks[1..], c);
  }

  /** A plan of one or more statements runs its first statement's turn before the rest. */
  lemma RunPlanCons<R>(stmts: seq<Result<RawQuery, Error>>, returning: bool, trx: Option<Transaction>,
                       exec: (RawQuery, Option<Transaction>) -> QueryResult<R>)
    requires |stmts| > 0
    ensures RunPlan(stmts, returning, trx, exec) == Turn(stmts[0], returning, trx, exec, RunPlan(stmts[1..], returning, trx, exec))
  {
  }

  /**
   * When every statement is built and every query returns rows, one query
   * is sent per statement, in order, and the result is the rows of those
   * queries in order (nothing when returning is not set).
   */
  lemma {:induction false} PlanAllSent<R>(stmts: seq<Result<RawQuery, Error>>, returning: bool,
                                          trx: Option<Transaction>, exec: (RawQuery, Option<Transaction>) -> QueryResult<R>)
    requires forall i :: 0 <= i < |stmts| ==> stmts[i].Ok? && exec(stmts[i].value, trx).Rows?
    ensures var run := RunPlan(stmts, returning, trx, exec);
            && run.result.Ok?
            && |run.issued| == |stmts|
            && (forall i :: 0 <= i < |stmts| ==> stmts[i] == Ok(run.issued[i]))
            && run.result.value == (if returning then CollectRows(exec, trx, run.issued) else [])
    decreases |stmts|
  {
    if |stmts| > 0 {
      var rest := stmts[1..];
      PlanAllSent(rest, returning, trx, exec);
      var run := RunPlan(stmts, returning, trx, exec);
      var later := RunPlan(rest, returning, trx, exec);
      var q := stmts[0].value;
      assert run.issued == [q] + later.issued;
      assert run.issued[1..] == later.issued;
      forall i | 1 <= i < |stmts|
        ensures stmts[i] == Ok(run.issued[i])
      {
        assert stmts[i] == rest[i - 1] && run.issued[i] == later.issued[i - 1];
      }
      if !returning {
        assert [] + later.result.value == [];
      }
    }
  }

  /**
   * The loop stops at the first statement that cannot be built: the
   * queries before it stay sent, in order, and its error is the result.
   */
  lemma {:induction false} PlanStopsAtError<R>(stmts: seq<Result<RawQuery, Error>>, returning: bool,
                                               trx: Option<Transaction>,
                                               exec: (RawQuery, Option<Transaction>) -> QueryResult<R>, j: nat)
    requires j < |stmts|
    requires forall i :: 0 <= i < j ==> stmts[i].Ok? && exec(stmts[i].value, trx).Rows?
    requires stmts[j].Err?
    ensures var run := RunPlan(stmts, returning, trx, exec);
            && run.result == Err(stmts[j].error)
            && |run.issued| == j
            && (forall i :: 0 <= i < j ==> stmts[i] == Ok(run.issued[i]))
    decreases j
  {
    if j > 0 {
      var rest := stmts[1..];
      assert rest[j - 1] == stmts[j];
      PlanStopsAtError(rest, returning, trx, exec, j - 1);
      var run := RunPlan(stmts, returning, trx, exec);
      var later := RunPlan(rest, returning, trx, exec);
      var q := stmts[0].value;
      assert run.issued == [q] + later.issued;
      forall i | 1 <= i < j
        ensures stmts[i] == Ok(run.issued[i])
      {
        assert stmts[i] == rest[i - 1] && run.issued[i] == later.issued[i - 1];
      }
    }
  }

  /**
   * A failing query stops the loop: the queries before it stay sent, it is
   * the last one sent, and the failure is the result.
   */
  lemma {:induction false} PlanStopsAtFailure<R>(stmts: seq<Result<RawQuery, Error>>, returning: bool,
                                                 trx: Option<Transaction>,
                                                 exec: (RawQuery, Option<Transaction>) -> QueryResult<R>, j: nat)
    requires j < |stmts|
    requires forall i :: 0 <= i < j ==> stmts[i].Ok? && exec(stmts[i].value, trx).Rows?
    requires stmts[j].Ok? && exec(stmts[j].value, trx).Failed?
    ensures var run := RunPlan(stmts, returning, trx, exec);
            && run.result == Err(QueryFailed(exec(stmts[j].value, trx).reason))
            && |run.issued| == j + 1
            && (forall i :: 0 <= i <= j ==> stmts[i] == Ok(run.issued[i]))
    decreases j
  {
    if j > 0 {
      var rest := stmts[1..];
      assert rest[j - 1] == stmts[j];
      PlanStopsAtFailure(rest, returning, trx, exec, j - 1);
      var run := RunPlan(stmts, returning, trx, exec);
      var later := RunPlan(rest, returning, trx, exec);
      var q := stmts[0].value;
      assert run.issued == [q] + later.issued;
      forall i | 1 <= i <= j
        ensures stmts[i] == Ok(run.issued[i])
      {
        assert stmts[i] == rest[i - 1] && run.issued[i] == later.issued[i - 1];
      }
    }
  }

  /**
   * The chunked path end to end, for a renderable conflict spec and a
   * database that accepts every query. The loop turns `ceil(n / bulkSize)`
   * times and the chunks hold all records but the last. If `n - 1` is a
   * multiple of `bulkSize`, the last chunk is empty and the call throws
   * after the other chunks were written. Otherwise every chunk is written
   * and the result is their rows in order, or null without returning.
   */
  lemma ChunkedOutcome<R>(table: string, returning: bool, trx: Option<Transaction>, data: seq<Record>,
                          c: PostgresOnConflict, autoBulk: bool, bulkSize: nat, bulk: bool,
                          exec: (RawQuery, Option<Transaction>) -> QueryResult<R>)
    requires bulkSize > 0 && |data| > 0
    requires BulkDecision(|data|, autoBulk, bulkSize, bulk)
    requires Renderable(c)
    requires forall q :: exec(q, trx).Rows?
    ensures var out := IgnoreOnConflictOutcome(table, returning, trx, data, c, autoBulk, bulkSize, bulk, exec);
            var cs := Chunks(data, bulkSize, 0);
            && |cs| == (|data| + bulkSize - 1) / bulkSize
            && Flatten(cs) == data[..|data| - 1]
            && |out.issued| <= |cs|
            && (forall i :: 0 <= i < |out.issued| ==> InsertIgnoreStatement(table, cs[i], c) == Ok(out.issued[i]))
            && ((|data| - 1) % bulkSize == 0 ==>
                  out.result == Err(KeysOfMissingFirstRecord) && |out.issued| == |cs| - 1)
            && ((|data| - 1) % bulkSize != 0 ==>
                  && out.result == Ok(if returning then Some(CollectRows(exec, trx, out.issued)) else None)
                  && |out.issued| == |cs|)
  {
    IterationCount(data, bulkSize);
    LastRecordNeverSent(data, bulkSize);
    ChunkedRun(table, returning, trx, data, c, bulkSize, exec);
  }

  /** `ChunkedOutcome` for the loop itself, before the rows are collected. */
  lemma ChunkedRun<R>(table: string, returning: bool, trx: Option<Transaction>, data: seq<Record>,
                      c: PostgresOnConflict, bulkSize: nat, exec: (RawQuery, Option<Transaction>) -> QueryResult<R>)
    requires bulkSize > 0 && |data| > 0
    requires Renderable(c)
    requires forall q :: exec(q, trx).Rows?
    ensures var run := RunFrom(table, data, c, bulkSize, returning, trx, exec, 0);
            var cs := Chunks(data, bulkSize, 0);
            && |run.issued| <= |cs|
            && (forall i :: 0 <= i < |run.issued| ==> InsertIgnoreStatement(table, cs[i], c) == Ok(run.issued[i]))
            && ((|data| - 1) % bulkSize == 0 ==>
                  run.result == Err(KeysOfMissingFirstRecord) && |run.issued| == |cs| - 1)
            && ((|data| - 1) % bulkSize != 0 ==>
                  && run.result == Ok(if returning then CollectRows(exec, trx, run.issued) else [])
                  && |run.issued| == |cs|)
  {
    var cs := Chunks(data, bulkSize, 0);
    RunFromFollowsPlan(table, data, c, bulkSize, returning, trx, exec, 0);
    ChunkedPlan(table, returning, trx, data, c, bulkSize, exec);
    IssuedAreStatements(table, cs, c, RunFrom(table, data, c, bulkSize, returning, trx, exec, 0).issued);
  }

  /** `ChunkedRun` for the plan of the chunks' statements. */
  lemma ChunkedPlan<R>(table: string, returning: bool, trx: Option<Transaction>, data: seq<Record>,
                       c: PostgresOnConflict, bulkSize: nat, exec: (RawQuery, Option<Transaction>) -> QueryResult<R>)
    requires bulkSize > 0 && |data| > 0
    requires Renderable(c)
    requires forall q :: exec(q, trx).Rows?
    ensures var cs := Chunks(data, bulkSize, 0);
            var ss := Statements(table, cs, c);
            var run := RunPlan(ss, returning, trx, exec);
            && |run.issued| <= |cs|
            && (forall i :: 0 <= i < |run.issued| ==> ss[i] == Ok(run.issued[i]))
            && ((|data| - 1) % bulkSize == 0 ==>
                  run.result == Err(KeysOfMissingFirstRecord) && |run.issued| == |cs| - 1)
            && ((|data| - 1) % bulkSize != 0 ==>
                  && run.result == Ok(if returning then CollectRows(exec, trx, run.issued) else [])
                  && |run.issued| == |cs|)
  {
    var cs := Chunks(data, bulkSize, 0);
    var ss := Statements(table, cs, c);
    ChunkStatements(table, data, c, bulkSize);
    if (|data| - 1) % bulkSize == 0 {
      EmptyLastRun(ss, cs, returning, trx, exec);
    } else {
      AllChunksRun(ss, cs, returning, trx, exec);
    }
  }

  /** The plan of `ChunkedRun` when the last statement is the error of an empty chunk. */
  lemma EmptyLastRun<R>(ss: seq<Result<RawQuery, Error>>, cs: seq<seq<Record>>, returning: bool,
                        trx: Option<Transaction>, exec: (RawQuery, Option<Transaction>) -> QueryResult<R>)
    requires |ss| == |cs| > 0
    requires forall i :: 0 <= i < |ss| - 1 ==> ss[i].Ok?
    requires ss[|ss| - 1] == Err(KeysOfMissingFirstRecord)
    requires forall q :: exec(q, trx).Rows?
    ensures var run := RunPlan(ss, returning, trx, exec);
            && |run.issued| == |cs| - 1
            && (forall i :: 0 <= i < |run.issued| ==> ss[i] == Ok(run.issued[i]))
            && run.result == Err(KeysOfMissingFirstRecord)
  {
    PlanStopsAtError(ss, returning, trx, exec, |ss| - 1);
  }

  /** The plan of `ChunkedRun` when every statement is built. */
  lemma AllChunksRun<R>(ss: seq<Result<RawQuery, Error>>, cs: seq<seq<Record>>, returning: bool,
                        trx: Option<Transaction>, exec: (RawQuery, Option<Transaction>) -> QueryResult<R>)
    requires |ss| == |cs| > 0
    requires forall i :: 0 <= i < |ss| - 1 ==> ss[i].Ok?
    requires ss[|ss| - 1].Ok?
    requires forall q :: exec(q, trx).Rows?
    ensures var run := RunPlan(ss, returning, trx, exec);
            && |run.issued| == |cs|
            && (forall i :: 0 <= i < |run.issued| ==> ss[i] == Ok(run.issued[i]))
            && run.result == Ok(if returning then CollectRows(exec, trx, run.issued) else [])
  {
    PlanAllSent(ss, returning, trx, exec);
  }

  /**
   * For a renderable conflict spec, the statement of every chunk but the
   * last is built; the last one's is too, unless `n - 1` is a multiple of
   * the bulk size, when that chunk is empty and `Object.keys` throws.
   */
  lemma ChunkStatements(table: string, data: seq<Record>, c: PostgresOnConflict, bulkSize: nat)
    requires bulkSize > 0 && |data| > 0
    requires Renderable(c)
    ensures var cs := Chunks(data, bulkSize, 0);
            var ss := Statements(table, cs, c);
            && |cs| > 0
            && (forall i :: 0 <= i < |cs| - 1 ==> ss[i].Ok?)
            && ((|data| - 1) % bulkSize == 0 ==> ss[|cs| - 1] == Err(KeysOfMissingFirstRecord))
            && ((|data| - 1) % bulkSize != 0 ==> ss[|cs| - 1].Ok?)
  {
    var cs := Chunks(data, bulkSize, 0);
    EmptyChunkExactly(data, bulkSize);
    StatementsAt(table, cs, c);
    forall i | 0 <= i < |cs| - 1
      ensures Statements(table, cs, c)[i].Ok?
    {
      assert |cs[i]| == bulkSize;
    }
  }

  /** Queries that are the statements of the first chunks, read back as the statements of those chunks. */
  lemma IssuedAreStatements(table: string, chunks: seq<seq<Record>>, c: PostgresOnConflict, issued: seq<RawQuery>)
    requires |issued| <= |chunks|
    requires forall i :: 0 <= i < |issued| ==> Statements(table, chunks, c)[i] == Ok(issued[i])
    ensures forall i :: 0 <= i < |issued| ==> InsertIgnoreStatement(table, chunks[i], c) == Ok(issued[i])
  {
    StatementsAt(table, chunks, c);
  }

  /**
   * With `n = bulkSize + 1` and autoBulk, the smallest input that shows the defect:
   * chunking is chosen, only `data[..bulkSize]` is written, and the call
   * then throws on the empty second chunk; the final record is lost.
   */
  lemma OneOverBulkSizeLosesLastRecord<R>(table: string, returning: bool, trx: Option<Transaction>,
                                          data: seq<Record>, c: PostgresOnConflict, bulkSize: nat, bulk: bool,
                                          exec: (RawQuery, Option<Transaction>) -> QueryResult<R>)
    requires bulkSize > 0 && |data| == bulkSize + 1
    requires Renderable(c)
    requires forall q :: exec(q, trx).Rows?
    ensures IgnoreOnConflictOutcome(table, returning, trx, data, c, true, bulkSize, bulk, exec) ==
            Run(Err(KeysOfMissingFirstRecord), [InsertIgnoreStatement(table, data[..bulkSize], c).value])
  {
    OneOverBulkSize(data, bulkSize);
    var cs := Chunks(data, bulkSize, 0);
    var ss := Statements(table, cs, c);
    RunFromFollowsPlan(table, data, c, bulkSize, returning, trx, exec, 0);
    StatementsAt(table, cs, c);
    PlanStopsAtError(ss, returning, trx, exec, 1);
  }

  /**
   * A bulk size of 0 does not loop forever: the first chunk is
   * `slice(0, min(0, n - 1))`, which is empty, so the call throws before any
   * query is sent.
   */
  lemma ZeroBulkSizeThrows<R>(table: string, returning: bool, trx: Option<Transaction>,
                              data: seq<Record>, c: PostgresOnConflict, bulk: bool,
                              exec: (RawQuery, Option<Transaction>) -> QueryResult<R>)
    requires |data| > 0
    ensures IgnoreOnConflictOutcome(table, returning, trx, data, c, true, 0, bulk, exec) ==
            Run(Err(KeysOfMissingFirstRecord), [])
  {
    assert Chunk(data, 0, 0) == [];
    assert RunFrom(table, data, c, 0, returning, trx, exec, 0) == TurnAt(table, data, c, 0, returning, trx, exec, 0);
  }

  /** Single-shot, the one query's rows are the result whether or not returning is set. */
  lemma SingleShotReturnsQueryRows<R>(table: string, returning: bool, trx: Option<Transaction>,
                                      data: seq<Record>, c: PostgresOnConflict,
                                      autoBulk: bool, bulkSize: nat, bulk: bool,
                                      exec: (RawQuery, Option<Transaction>) -> QueryResult<R>)
    requires !BulkDecision(|data|, autoBulk, bulkSize, bulk)
    requires data != [] && Renderable(c)
    ensures var q := InsertIgnoreStatement(table, data, c).value;
            var out := IgnoreOnConflictOutcome(table, returning, trx, data, c, autoBulk, bulkSize, bulk, exec);
            && out.issued == [q]
            && (exec(q, trx).Rows? ==> out.result == Ok(Some(exec(q, trx).rows)))
            && (exec(q, trx).Failed? ==> out.result == Err(QueryFailed(exec(q, trx).reason)))
  {
  }

  /**
   * An empty input: chunked, the loop does not run, nothing is sent and the
   * result is the empty row list (null without returning); single-shot,
   * `Object.keys(data[0])` throws before anything is sent.
   */
  lemma EmptyInputOutcome<R>(table: string, returning: bool, trx: Option<Transaction>, c: PostgresOnConflict,
                             autoBulk: bool, bulkSize: nat, bulk: bool,
                             exec: (RawQuery, Option<Transaction>) -> QueryResult<R>)
    ensures IgnoreOnConflictOutcome(table, returning, trx, [], c, autoBulk, bulkSize, bulk, exec) ==
            if BulkDecision(0, autoBulk, bulkSize, bulk) then Run(Ok(if returning then Some([]) else None), [])
            else Run(Err(KeysOfMissingFirstRecord), [])
  {
  }

  /**
   * Chunking a single record, which an explicit `bulk` or a bulk size of 0
   * asks for: its only chunk is `slice(0, min(bulkSize, 0))`, which is
   * empty, so the call throws before anything is sent.
   */
  lemma SingleRecordChunkedThrows<R>(table: string, returning: bool, trx: Option<Transaction>, data: seq<Record>,
                                     c: PostgresOnConflict, autoBulk: bool, bulkSize: nat, bulk: bool,
                                     exec: (RawQuery, Option<Transaction>) -> QueryResult<R>)
    requires |data| == 1 && BulkDecision(1, autoBulk, bulkSize, bulk)
    ensures IgnoreOnConflictOutcome(table, returning, trx, data, c, autoBulk, bulkSize, bulk, exec) ==
            Run(Err(KeysOfMissingFirstRecord), [])
  {
    assert Chunk(data, bulkSize, 0) == [];
    assert RunFrom(table, data, c, bulkSize, returning, trx, exec, 0) == TurnAt(table, data, c, bulkSize, returning, trx, exec, 0);
  }
}
