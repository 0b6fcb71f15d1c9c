/**
 * QueryBuilder: the `KnexORMQueryBuilder` class. Its fields are set by the
 * fluent setters; its raw insert methods build text with loops and a final
 * `substr` trim, each proved to give what the RawInsert functions describe;
 * the chunked insert runs its `while` loop against an executor standing for
 * the database and is proved to give what BulkInsert describes.
 */
module QueryBuilder {
  import opened Results
  import opened Text
  import opened JsSemantics
  import opened RawInsert
  import opened Chunking
  import opened BulkInsert

  /** The knex instance the builder talks to, opaque to the builder. */
  datatype Connection = Connection(id: nat)

  /** `_insertReturning`: unset (undefined), one column name, or a list of them. */
  datatype ReturningColumns = Unset | Column(name: string) | Columns(names: seq<string>)

  /** `if (this._insertReturning)`: an empty name is falsy, any array is truthy. */
  predicate ReturningSet(r: ReturningColumns)
  {
    match r
    case Unset => false
    case Column(name) => name != ""
    case Columns(_) => true
  }

  /**
   * The knex insert query `insertOrBatch` hands back, unexecuted: a
   * `batchInsert` or a plain `insert`, with the returning columns and the
   * transaction it was given, if any.
   */
  datatype KnexInsert =
    | BatchInsert(table: Option<string>, rows: seq<Record>, chunkSize: nat,
                  returning: Option<ReturningColumns>, transaction: Option<Transaction>)
    | Insert(table: Option<string>, rows: seq<Record>,
             returning: Option<ReturningColumns>, transaction: Option<Transaction>)

  class KnexORMQueryBuilder {
    var knex: Connection
    var tableName: Option<string>
    var tableIdColumn: string
    var insertReturning: ReturningColumns
    var trx: Option<Transaction>

    /** A builder on `knex` for an optional table; the id column defaults to "id". */
    constructor (knex: Connection, tableName: Option<string>)
      ensures this.knex == knex && this.tableName == tableName
      ensures tableIdColumn == "id" && insertReturning == Unset && trx == None
    {
      this.knex := knex;
      this.tableName := tableName;
      tableIdColumn := "id";
      insertReturning := Unset;
      trx := None;
    }

    /** `tableName(name)`: sets the table and returns the builder itself. */
    method TableName(name: string) returns (self: KnexORMQueryBuilder)
      modifies this
      ensures self == this
      ensures tableName == Some(name)
      ensures knex == old(knex) && tableIdColumn == old(tableIdColumn)
      ensures insertReturning == old(insertReturning) && trx == old(trx)
    {
      tableName := Some(name);
      self := this;
    }

    /** `tableIdColumn(idColumn)`: sets the id column and returns the builder itself. */
    method TableIdColumn(idColumn: string) returns (self: KnexORMQueryBuilder)
      modifies this
      ensures self == this
      ensures tableIdColumn == idColumn
      ensures knex == old(knex) && tableName == old(tableName)
      ensures insertReturning == old(insertReturning) && trx == old(trx)
    {
      tableIdColumn := idColumn;
      self := this;
    }

    /** `returning(columns)`: sets the returning columns (undefined clears them). */
    method Returning(columns: ReturningColumns) returns (self: KnexORMQueryBuilder)
      modifies this
      ensures self == this
      ensures insertReturning == columns
      ensures knex == old(knex) && tableName == old(tableName)
      ensures tableIdColumn == old(tableIdColumn) && trx == old(trx)
    {
      insertReturning := columns;
      self := this;
    }

    /** `transacting(t)`: binds later queries to the transaction `t`. */
    method Transacting(t: Transaction) returns (self: KnexORMQueryBuilder)
      modifies this
      ensures self == this
      ensures trx == Some(t)
      ensures knex == old(knex) && tableName == old(tableName)
      ensures tableIdColumn == old(tableIdColumn) && insertReturning == old(insertReturning)
    {
      trx := Some(t);
      self := this;
    }

    /** `knex(k)`: replaces the knex instance. */
    method Knex(k: Connection) returns (self: KnexORMQueryBuilder)
      modifies this
      ensures self == this
      ensures knex == k
      ensures tableName == old(tableName) && tableIdColumn == old(tableIdColumn)
      ensures insertReturning == old(insertReturning) && trx == old(trx)
    {
      knex := k;
      self := this;
    }

    /**
     * `insertOrBatch`: a `batchInsert` in chunks of `bulkSize` when the bulk
     * decision says so, a plain `insert` otherwise. Both get the returning
     * columns when they are set, but only the batch gets the transaction.
     */
    method InsertOrBatch(data: seq<Record>, autoBulk: bool, bulkSize: nat, bulk: bool) returns (query: KnexInsert)
      ensures query.BatchInsert? <==> BulkDecision(|data|, autoBulk, bulkSize, bulk)
      ensures query.table == tableName && query.rows == data
      ensures query.BatchInsert? ==> query.chunkSize == bulkSize
      ensures query.returning == (if ReturningSet(insertReturning) then Some(insertReturning) else None)
      ensures query.transaction == (if query.BatchInsert? then trx else None)
    {
      var b := bulk;
      if autoBulk {
        b := |data| > bulkSize;
      }
      var returning := if ReturningSet(insertReturning) then Some(insertReturning) else None;
      if b {
        query := BatchInsert(tableName, data, bulkSize, returning, None);
        if trx.Some? {
          query := query.(transaction := trx);
        }
      } else {
        query := Insert(tableName, data, returning, None);
      }
    }

    /**
     * `_getRawFieldsStr`: appends `"name", ` per field to "(", trims the last
     * two characters and closes the parenthesis.
     */
    method GetRawFieldsStr(fieldsNames: seq<string>) returns (result: string)
      ensures result == FieldList(fieldsNames)
    {
      result := "(";
      var i := 0;
      while i < |fieldsNames|
        invariant 0 <= i <= |fieldsNames|
        invariant result == "(" + Terminated(QuoteAll(fieldsNames[..i]), ", ")
      {
        var field := fieldsNames[i];
        FieldsStep(fieldsNames, i, result);
        result := result + "\"" + field + "\", ";
        i := i + 1;
      }
      FieldsTrim(fieldsNames, i, result);
      result := Substr(result, 0, |result| - 2) + ")";
    }

    /**
     * `_getOneDataRawFieldsValuesStr`: per field, `?, ` and the value pushed
     * when the value is truthy, `DEFAULT, ` otherwise; then the trim.
     */
    method GetOneDataRawFieldsValuesStr(data: Record, fieldsNames: seq<string>) returns (str: string, bindData: seq<Value>)
      ensures str == Tuple(data, fieldsNames)
      ensures bindData == Binds(data, fieldsNames)
    {
      var resultStr := "(";
      bindData := [];
      var i := 0;
      while i < |fieldsNames|
        invariant 0 <= i <= |fieldsNames|
        invariant resultStr == "(" + Terminated(Tokens(data, fieldsNames[..i]), ", ")
        invariant bindData == Binds(data, fieldsNames[..i])
      {
        var field := fieldsNames[i];
        var v := Get(data, field);
        TokenStep(data, fieldsNames, i, resultStr, bindData);
        if Truthy(v) {
          resultStr := resultStr + "?, ";
          bindData := bindData + [v];
        } else {
          resultStr := resultStr + "DEFAULT, ";
        }
        i := i + 1;
      }
      TokensTrim(data, fieldsNames, i, resultStr);
      str := Substr(resultStr, 0, |resultStr| - 2) + ")";
    }

    /**
     * `_getManyDataRawFieldsValuesStr`: appends each record's tuple and `, `,
     * concatenates the bind lists, then trims the last two characters.
     */
    method GetManyDataRawFieldsValuesStr(data: seq<Record>, fieldsNames: seq<string>) returns (str: string, bindData: seq<Value>)
      ensures str == ValuesList(data, fieldsNames)
      ensures bindData == AllBinds(data, fieldsNames)
    {
      var resultStr := "";
      bindData := [];
      var i := 0;
      while i < |data|
        invariant 0 <= i <= |data|
        invariant resultStr == Terminated(Tuples(data[..i], fieldsNames), ", ")
        invariant bindData == AllBinds(data[..i], fieldsNames)
      {
        var one, oneDataBindData := GetOneDataRawFieldsValuesStr(data[i], fieldsNames);
        TupleStep(data, fieldsNames, i, resultStr, bindData, one, oneDataBindData);
        resultStr := resultStr + one + ", ";
        bindData := bindData + oneDataBindData;
        i := i + 1;
      }
      TuplesTrim(data, fieldsNames, i, resultStr);
      str := Substr(resultStr, 0, |resultStr| - 2);
    }

    /**
     * `postgresInsertIgnoreOnConflict`: the columns are the keys of
     * `data[0]`; the statement text is built up piece by piece, through the
     * `switch` whose first `Fields` case falls into the second one.
     */
    method PostgresInsertIgnoreOnConflict(data: seq<Record>, onConflictStatement: PostgresOnConflict)
      returns (r: Result<RawQuery, Error>)
      ensures r == InsertIgnoreStatement(TemplateText(tableName), data, onConflictStatement)
    {
      if |data| == 0 {
        return Err(KeysOfMissingFirstRecord);
      }
      var fieldsNames := data[0].keys;
      var valuesStr, valuesBindData := GetManyDataRawFieldsValuesStr(data, fieldsNames);
      var fieldsStr := GetRawFieldsStr(fieldsNames);
      var rawQuery := "INSERT INTO \"" + TemplateText(tableName) + "\" " + fieldsStr
                      + " VALUES " + valuesStr + " ON CONFLICT ";
      ghost var head := rawQuery;
      var fellThrough := false;
      var constraint := "";
      if onConflictStatement.kind == Fields {
        constraint := "ON CONSTRAINT " + ConflictDataText(onConflictStatement.data);
        rawQuery := rawQuery + constraint;
        fellThrough := true;
      }
      if fellThrough || onConflictStatement.kind == Fields {
        match onConflictStatement.data
        case ConstraintName(_) =>
          return Err(ConflictFieldsNotArray);
        case FieldNames(names) =>
          var list := "(" + Join(QuoteAll(names), ", ") + ")";
          assert constraint + list == ConflictClause(onConflictStatement).value;
          assert head + constraint + list == head + (constraint + list);
          rawQuery := rawQuery + list;
      } else {
        assert head + "" == head;
      }
      assert rawQuery == head + ConflictClause(onConflictStatement).value;
      rawQuery := rawQuery + "DO NOTHING;";
      r := Ok(RawQuery(rawQuery, valuesBindData));
    }

    /**
     * The statement of one turn of the chunk loop:
     * `postgresInsertIgnoreOnConflict(data.slice(next, min(next + bulkSize, n - 1)))`.
     * Stated by what it means for the loop: a statement that cannot be built
     * is how the run from `next` ends; a built one means the bulk size is
     * positive, and the run from `next` is the turn that sends it followed by
     * the run from `next + bulkSize`.
     */
    method ChunkQuery<R>(data: seq<Record>, onConflictStatement: PostgresOnConflict, bulkSize: nat, next: nat,
                         ghost exec: (RawQuery, Option<Transaction>) -> QueryResult<R>)
      returns (query: Result<RawQuery, Error>)
      requires next < |data|
      ensures var returning := ReturningSet(insertReturning);
              var run := RunFrom(TemplateText(tableName), data, onConflictStatement, bulkSize, returning, trx, exec, next);
              var later := RunFrom(TemplateText(tableName), data, onConflictStatement, bulkSize, returning, trx, exec,
                                   next + bulkSize);
              && (query.Err? ==> run == Run(Err(query.error), []))
              && (query.Ok? ==> bulkSize > 0)
              && (query.Ok? && exec(query.value, trx).Failed? ==>
                    run == Run(Err(QueryFailed(exec(query.value, trx).reason)), [query.value]))
              && (query.Ok? && exec(query.value, trx).Rows? ==>
                    run == Prepend(if returning then exec(query.value, trx).rows else [], [query.value], later))
    {
      var chunk := Slice(data, next, Min(next + bulkSize, |data| - 1));
      assert chunk == Chunk(data, bulkSize, next);
      query := PostgresInsertIgnoreOnConflict(chunk, onConflictStatement);
      RunFromStep(TemplateText(tableName), data, onConflictStatement, bulkSize, ReturningSet(insertReturning), trx, exec, next);
    }

    /**
     * The `while` loop of `postgresInsertOrBatchIgnoreOnConflict`: from
     * `nextFirstEl = 0`, it sends
     * `data.slice(nextFirstEl, min(nextFirstEl + bulkSize, n - 1))` through the
     * executor and appends the returned rows to `returningList` when
     * returning is set, until `nextFirstEl` reaches `n`. `issued` is every
     * query sent, in order.
     */
    method ChunkLoop<R>(data: seq<Record>, onConflictStatement: PostgresOnConflict, bulkSize: nat,
                        exec: (RawQuery, Option<Transaction>) -> QueryResult<R>)
      returns (returningList: Result<seq<R>, Error>, issued: seq<RawQuery>)
      ensures Run(returningList, issued) ==
              RunFrom(TemplateText(tableName), data, onConflictStatement, bulkSize, ReturningSet(insertReturning),
                      trx, exec, 0)
    {
      ghost var table := TemplateText(tableName);
      ghost var returning := ReturningSet(insertReturning);
      var nextFirstEl: nat := 0;
      var rows: seq<R> := [];
      issued := [];
      ghost var whole := RunFrom(table, data, onConflictStatement, bulkSize, returning, trx, exec, 0);
      ghost var rest := whole;
      PrependNothing(whole);
      while nextFirstEl < |data|
        invariant rest == RunFrom(table, data, onConflictStatement, bulkSize, returning, trx, exec, nextFirstEl)
        invariant whole == Prepend(rows, issued, rest)
        decreases |data| - nextFirstEl
      {
        ghost var later := RunFrom(table, data, onConflictStatement, bulkSize, returning, trx, exec, nextFirstEl + bulkSize);
        var query := ChunkQuery(data, onConflictStatement, bulkSize, nextFirstEl, exec);
        if query.Err? {
          assert issued + [] == issued;
          return Err(query.error), issued;
        }
        var outcome := exec(query.value, trx);
        if outcome.Failed? {
          return Err(QueryFailed(outcome.reason)), issued + [query.value];
        }
        PrependPrepend(rows, issued, if returning then outcome.rows else [], [query.value], later);
        if ReturningSet(insertReturning) {
          rows := rows + outcome.rows;
        } else {
          assert rows + [] == rows;
        }
        issued := issued + [query.value];
        nextFirstEl := nextFirstEl + bulkSize;
        rest := later;
      }
      LoopDone(table, data, onConflictStatement, bulkSize, returning, trx, exec, nextFirstEl, whole, rows, issued);
      returningList := Ok(rows);
    }

    /**
     * `postgresInsertOrBatchIgnoreOnConflict`. Chunked, it runs the loop and
     * yields the collected rows when returning is set and null otherwise;
     * single-shot, it sends one statement for all of `data` and yields what
     * that query returns. `issued` is every query sent, in order.
     */
    method PostgresInsertOrBatchIgnoreOnConflict<R>(data: seq<Record>, onConflictStatement: PostgresOnConflict,
                                                    autoBulk: bool, bulkSize: nat, bulk: bool,
                                                    exec: (RawQuery, Option<Transaction>) -> QueryResult<R>)
      returns (result: Result<Option<seq<R>>, Error>, issued: seq<RawQuery>)
      ensures Run(result, issued) ==
              IgnoreOnConflictOutcome(TemplateText(tableName), ReturningSet(insertReturning), trx,
                                      data, onConflictStatement, autoBulk, bulkSize, bulk, exec)
    {
      var b := bulk;
      if autoBulk {
        b := |data| > bulkSize;
      }
      assert b == BulkDecision(|data|, autoBulk, bulkSize, bulk);
      if b {
        var returningList;
        returningList, issued := ChunkLoop(data, onConflictStatement, bulkSize, exec);
        match returningList
        case Err(e) => result := Err(e);
        case Ok(rows) => result := Ok(if ReturningSet(insertReturning) then Some(rows) else None);
      } else {
        var query := PostgresInsertIgnoreOnConflict(data, onConflictStatement);
        if query.Err? {
          return Err(query.error), [];
        }
        var outcome := exec(query.value, trx);
        issued := [query.value];
        match outcome
        case Failed(reason) => result := Err(QueryFailed(reason));
        case Rows(rows) => result := Ok(Some(rows));
      }
    }
  }

  /**
   * The trim `s.substr(0, s.length - 2)` after the loops: removing the
   * trailing ", " of the accumulated parts leaves the joined parts.
   */
  lemma TrimTrailingSeparator(prefix: string, parts: seq<string>)
    ensures var s := prefix + Terminated(parts, ", ");
            Substr(s, 0, |s| - 2) == if |parts| == 0 then Substr(prefix, 0, |prefix| - 2) else prefix + Join(parts, ", ")
  {
    if |parts| > 0 {
      TerminatedIsJoinPlusSep(parts, ", ");
      var s := prefix + Terminated(parts, ", ");
      assert s == (prefix + Join(parts, ", ")) + ", ";
    } else {
      assert prefix + Terminated(parts, ", ") == prefix;
    }
  }

  /** One turn of `_getRawFieldsStr`'s loop appends the next quoted name and ", ". */
  lemma FieldsStep(names: seq<string>, i: nat, acc: string)
    requires i < |names| && acc == "(" + Terminated(QuoteAll(names[..i]), ", ")
    ensures acc + "\"" + names[i] + "\", " == "(" + Terminated(QuoteAll(names[..i + 1]), ", ")
  {
    QuoteAllSnoc(names, i);
    TerminatedSnoc(QuoteAll(names[..i]), Quote(names[i]), ", ");
  }

  /** After the loop of `_getRawFieldsStr`, the trim and ")" give the column list. */
  lemma FieldsTrim(names: seq<string>, i: nat, acc: string)
    requires i == |names| && acc == "(" + Terminated(QuoteAll(names[..i]), ", ")
    ensures Substr(acc, 0, |acc| - 2) + ")" == FieldList(names)
  {
    assert names[..i] == names;
    TrimTrailingSeparator("(", QuoteAll(names));
  }

  /**
   * One turn of `_getOneDataRawFieldsValuesStr`'s loop: a truthy value adds
   * "?, " and is pushed on the bind list, any other value adds "DEFAULT, ".
   */
  lemma TokenStep(r: Record, names: seq<string>, i: nat, acc: string, binds: seq<Value>)
    requires i < |names|
    requires acc == "(" + Terminated(Tokens(r, names[..i]), ", ") && binds == Binds(r, names[..i])
    ensures Truthy(Get(r, names[i])) ==>
              acc + "?, " == "(" + Terminated(Tokens(r, names[..i + 1]), ", ")
              && binds + [Get(r, names[i])] == Binds(r, names[..i + 1])
    ensures !Truthy(Get(r, names[i])) ==>
              acc + "DEFAULT, " == "(" + Terminated(Tokens(r, names[..i + 1]), ", ")
              && binds == Binds(r, names[..i + 1])
  {
    var field := names[i];
    var t := Token(Get(r, field));
    assert names[..i + 1] == names[..i] + [field];
    TokensSnoc(r, names[..i], field);
    BindsSnoc(r, names[..i], field);
    TerminatedSnoc(Tokens(r, names[..i]), t, ", ");
    AppendAssoc("(", Terminated(Tokens(r, names[..i]), ", "), t, ", ");
    TokenText(Get(r, field));
    if !Truthy(Get(r, field)) {
      assert binds + [] == binds;
    }
  }

  /** After the loop of `_getOneDataRawFieldsValuesStr`, the trim and ")" give the tuple. */
  lemma TokensTrim(r: Record, names: seq<string>, i: nat, acc: string)
    requires i == |names| && acc == "(" + Terminated(Tokens(r, names[..i]), ", ")
    ensures Substr(acc, 0, |acc| - 2) + ")" == Tuple(r, names)
    ensures names[..i] == names
  {
    assert names[..i] == names;
    TrimTrailingSeparator("(", Tokens(r, names));
  }

  /** One turn of `_getManyDataRawFieldsValuesStr`'s loop appends one record's tuple and binds. */
  lemma TupleStep(rs: seq<Record>, names: seq<string>, i: nat, acc: string, binds: seq<Value>,
                  one: string, oneBinds: seq<Value>)
    requires i < |rs|
    requires acc == Terminated(Tuples(rs[..i], names), ", ") && binds == AllBinds(rs[..i], names)
    requires one == Tuple(rs[i], names) && oneBinds == Binds(rs[i], names)
    ensures acc + one + ", " == Terminated(Tuples(rs[..i + 1], names), ", ")
    ensures binds + oneBinds == AllBinds(rs[..i + 1], names)
  {
    assert rs[..i + 1] == rs[..i] + [rs[i]];
    TuplesSnoc(rs[..i], rs[i], names);
    AllBindsSnoc(rs[..i], rs[i], names);
    TerminatedSnoc(Tuples(rs[..i], names), one, ", ");
  }

  /** After the loop of `_getManyDataRawFieldsValuesStr`, the trim gives the VALUES list. */
  lemma TuplesTrim(rs: seq<Record>, names: seq<string>, i: nat, acc: string)
    requires i == |rs| && acc == Terminated(Tuples(rs[..i], names), ", ")
    ensures Substr(acc, 0, |acc| - 2) == ValuesList(rs, names)
    ensures rs[..i] == rs
  {
    assert rs[..i] == rs;
    TrimTrailingSeparator("", Tuples(rs, names));
    assert "" + Join(Tuples(rs, names), ", ") == Join(Tuples(rs, names), ", ");
    if |rs| == 0 {
      assert Substr("", 0, -2) == "";
    }
  }
}
