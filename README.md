# KnexSuper raw bulk insert, modelled in Dafny

This project models the raw-SQL write path of `KnexORMQueryBuilder`
(`src/QueryBuilder.ts`) and proves properties of it. `KnexORMQueryBuilder`
is a fluent builder over knex. Its setters change fields of the builder.
`insertOrBatch` decides whether to hand knex a `batchInsert` or a plain
`insert`. `postgresInsertOrBatchIgnoreOnConflict` renders PostgreSQL
`INSERT ... ON CONFLICT ... DO NOTHING` statements and sends them:

- as one statement for all records;
- or, when chunking is chosen, one statement per chunk in a `while` loop,
  collecting the returned rows when returning columns are set.

The model keeps the source's form:

- The builder is a Dafny class whose fields the setter methods update.
- The string builders are methods with the same loops and the same
  `substr` trim.
- The chunk loop is a method with the same `while` loop.

The string builders, `PostgresInsertIgnoreOnConflict`, `ChunkLoop` and
`PostgresInsertOrBatchIgnoreOnConflict` are each proved equal to a reference
function; the setters and `insertOrBatch` state their new fields and the
query they return directly. The properties are proved about the reference
functions:

- the `?` count equals the bind-list length;
- the column list reads back as the column names;
- the chunk count, the chunk sizes and the records sent;
- what the call returns or throws.

Modules, one per file:

- `Results` (`results.dfy`): `Option` and `Result`.
- `JsSemantics` (`js_semantics.dfy`): JavaScript values and truthiness,
  records as `Object.keys` order plus a map, `${}` of an unset table name,
  `Math.min`, and the clamping of `slice` and `substr`.
- `Text` (`text.dfy`):
  - `join`, and the `s += part + sep` accumulation;
  - double quoting;
  - counting `?`;
  - a reader that takes double-quoted names back out of text.
- `RawInsert` (`raw_insert.dfy`): the reference definitions of the column
  list, the tuples, the bind lists, the conflict clause and the whole
  statement.
- `Chunking` (`chunking.dfy`): the bulk decision and the chunks the loop
  forms.
- `BulkInsert` (`bulk_insert.dfy`): what the chunked and single-shot calls
  do against the database.
- `QueryBuilder` (`query_builder.dfy`): the class.

The database is a parameter `exec`. It is a function from a raw query and
its transaction to the returned rows or a failure. Each outcome records the
queries sent, in order, so what was written before an error stays visible.

### Behaviour of the code to be aware of

- A column gets `?` and a bind value when its value is JavaScript-truthy.
  So `0`, `""`, `false` and `NaN` render `DEFAULT`, like a missing value.
- The two `case` labels of the conflict `switch` are both `Fields`, and the
  first falls through:
  - `Fields` appends `ON CONSTRAINT <data>` (an array prints comma-joined)
    and then the quoted field list, with no space before `DO NOTHING;`;
  - `Constraint` and `UpdateDo` append nothing;
  - a `Fields` spec whose data is not an array throws at `.map`.
- The chunk upper bound is `min(start + bulkSize, n - 1)`, so the final
  record is never sent:
  - when `n - 1` is a multiple of `bulkSize`, the last chunk is empty and
    `Object.keys(data[0])` throws, after the earlier chunks were written;
  - with autoBulk, `n = bulkSize + 1` is the smallest such case
    (`OneOverBulkSizeLosesLastRecord`);
  - with an explicit `bulk`, a single record already gives one empty chunk
    and the throw (`SingleRecordChunkedThrows`).
- A bulk size of 0 does not loop forever. The first chunk is empty, so the
  call throws before sending anything. The model therefore does not require
  `bulkSize > 0`.
- An empty input is not rejected up front (`EmptyInputOutcome`):
  - single-shot, it throws at `Object.keys(data[0])`;
  - chunked (an explicit `bulk` without autoBulk), the loop does not run,
    nothing is sent, and the result is `[]`, or `null` without returning.
- With no fields, the column list and the tuple come out as `)`, because
  `"(".substr(0, -1)` is empty.
- Identifiers are put inside `"..."` without escaping. A name containing
  `"` ends the identifier early (`UnescapedQuoteInColumn`).
- Single-shot, the call returns the query's own result whether or not
  returning is set. Chunked, it returns `null` when returning is not set.
- In `insertOrBatch`, only the batch branch binds the transaction; its
  plain insert ignores `_trx`.

## Model

| member | source | states |
|---|---|---|
| JsSemantics.Truthy | src/QueryBuilder.ts:271 | JavaScript truthiness: undefined, null, false, 0, NaN and "" are falsy, everything else (any object included) truthy |
| JsSemantics.Get | src/QueryBuilder.ts:271 | `record[field]`: the record's own value for the field, undefined when it has none |
| JsSemantics.TemplateText | src/QueryBuilder.ts:217 | `${tableName}`: the name when set, "undefined" when not |
| QueryBuilder.ReturningSet | src/QueryBuilder.ts:166-186 | `if (this._insertReturning)`: unset and the empty column name are falsy, any other name and any list truthy |
| QueryBuilder.KnexORMQueryBuilder.constructor | src/QueryBuilder.ts:18-25 | knex and table as given, id column "id", no returning columns, no transaction |
| QueryBuilder.KnexORMQueryBuilder.TableName | src/QueryBuilder.ts:27-30 | sets the table name, returns the builder itself, every other field unchanged |
| QueryBuilder.KnexORMQueryBuilder.TableIdColumn | src/QueryBuilder.ts:32-35 | sets the id column, returns the builder itself, every other field unchanged |
| QueryBuilder.KnexORMQueryBuilder.Returning | src/QueryBuilder.ts:37-42 | sets (or with undefined clears) the returning columns, returns the builder, every other field unchanged |
| QueryBuilder.KnexORMQueryBuilder.Transacting | src/QueryBuilder.ts:44-47 | sets the transaction, returns the builder, every other field unchanged |
| QueryBuilder.KnexORMQueryBuilder.Knex | src/QueryBuilder.ts:49-52 | replaces the knex instance, returns the builder, every other field unchanged |
| QueryBuilder.KnexORMQueryBuilder.InsertOrBatch | src/QueryBuilder.ts:82-111 | a batchInsert exactly when the bulk decision holds, and a plain insert otherwise; the chunk size is the bulk size; returning columns are passed only when truthy; only the batch gets the transaction |
| Chunking.BulkDecision | src/QueryBuilder.ts:148-150 | with autoBulk the write is chunked iff n > bulkSize and the caller's flag is ignored; without autoBulk the caller's flag decides |
| Chunking.DefaultBulkDecision | src/QueryBuilder.ts:144-150 | with the default arguments (autoBulk true, bulkSize 1000, bulk false) a write is chunked iff it has more than 1000 records |
| QueryBuilder.KnexORMQueryBuilder.GetRawFieldsStr | src/QueryBuilder.ts:235-242 | the loop-and-trim result is the quoted names joined by ", " in parentheses (")" alone for no names) |
| QueryBuilder.TrimTrailingSeparator | src/QueryBuilder.ts:240 | cutting the last two characters off the accumulated `part, ` text leaves the parts joined by ", " |
| RawInsert.FieldList | src/QueryBuilder.ts:235-242 | the column list: each name double-quoted, joined by ", ", in parentheses; ")" alone for no names |
| RawInsert.FieldListNamesColumns | src/QueryBuilder.ts:235-242 | reading the quoted names back out of the column list gives exactly the columns, in order, when no name holds a double quote; no names at all for the `)` of an empty list |
| Text.Join | src/QueryBuilder.ts:224 | `parts.join(sep)`: the parts with the separator between consecutive ones, the empty string for no parts |
| Text.Terminated | src/QueryBuilder.ts:237-239 | what the `s += part + sep` loops accumulate: every part followed by the separator |
| Text.Quote | src/QueryBuilder.ts:238 | `"${field}"`: the name between double quotes, with no escaping |
| Text.QuoteAll | src/QueryBuilder.ts:224 | the `.map` of the quoting template: one quoted name per name, in order |
| Text.QuotedNamesOfList | src/QueryBuilder.ts:238 | quoted names joined by ", " read back as the names, followed by whatever follows them |
| RawInsert.UnescapedQuoteInColumn | src/QueryBuilder.ts:238 | a column named a"b is read back from the column list as a: names are not escaped |
| RawInsert.UnescapedColumnText | src/QueryBuilder.ts:238 | the column list of a"b is ("a"b"), with the inner quote as it is |
| QueryBuilder.KnexORMQueryBuilder.GetOneDataRawFieldsValuesStr | src/QueryBuilder.ts:267-284 | the tuple is one token per field in order, joined by ", " in parentheses, and the bind list is the record's truthy values in field order |
| RawInsert.Token | src/QueryBuilder.ts:271-276 | the token for one value: `?` when the value is truthy, `DEFAULT` otherwise |
| RawInsert.Tokens | src/QueryBuilder.ts:270-277 | one token per column, in column order |
| RawInsert.Tuple | src/QueryBuilder.ts:267-284 | one record's tuple: its tokens joined by ", " in parentheses; ")" alone for no columns |
| RawInsert.Binds | src/QueryBuilder.ts:269-276 | one record's bind list: its truthy values in column order, no longer than the column list |
| RawInsert.TokensAt | src/QueryBuilder.ts:270-277 | the token of the field at position i is ? when the record's value there is truthy and DEFAULT otherwise |
| RawInsert.BindsAt | src/QueryBuilder.ts:271-276 | the field at position j adds its value to the bind list exactly when it is truthy, between the values of the fields before and after it |
| RawInsert.TuplePlaceholders | src/QueryBuilder.ts:267-284 | the number of ? in one record's tuple equals the length of its bind list |
| RawInsert.MissingColumnIsDefault | src/QueryBuilder.ts:271-276 | a record lacking one of the columns renders DEFAULT there and binds nothing for it |
| RawInsert.RecordOnlyReadsColumns | src/QueryBuilder.ts:267-284 | a record's tuple and bind list depend only on its values in the given columns |
| QueryBuilder.KnexORMQueryBuilder.GetManyDataRawFieldsValuesStr | src/QueryBuilder.ts:244-265 | the values string is the records' tuples in input order joined by ", ", and the bind list is their bind lists concatenated in order |
| RawInsert.Tuples | src/QueryBuilder.ts:250-255 | the per-record tuples, one per record, in input order |
| RawInsert.ValuesList | src/QueryBuilder.ts:248-259 | the VALUES text: the records' tuples in input order joined by ", " |
| RawInsert.AllBinds | src/QueryBuilder.ts:249-256 | the whole bind list: each record's bind list, in input order |
| RawInsert.TuplesAt | src/QueryBuilder.ts:250-257 | the i-th tuple is the tuple of the i-th record |
| RawInsert.AllBindsConcat | src/QueryBuilder.ts:256 | the bind list of two runs of records is that of the first run followed by that of the second |
| RawInsert.ValuesListPlaceholders | src/QueryBuilder.ts:244-265 | the number of ? in the values string equals the length of the whole bind list |
| RawInsert.ValuesOnlyReadColumns | src/QueryBuilder.ts:244-265 | records that agree on the columns give the same values string and the same bind list |
| RawInsert.ConflictDataText | src/QueryBuilder.ts:222 | `${onConflictStatement.data}`: a constraint name as itself, an array as its elements joined by "," |
| RawInsert.Renderable | src/QueryBuilder.ts:224 | the conflict spec is one the switch renders without throwing: for Fields, data must be an array for `.map` |
| RawInsert.ConflictClause | src/QueryBuilder.ts:220-225 | Fields gives ON CONSTRAINT, the comma-joined data, then the quoted field list in parentheses; Fields with non-array data throws; Constraint and UpdateDo give no text |
| RawInsert.FieldsClauseHasBothForms | src/QueryBuilder.ts:220-225 | for Fields both forms are emitted: the clause starts with ON CONSTRAINT and its quoted names are exactly the conflict fields (none for an empty list, whose clause is `ON CONSTRAINT ()`) |
| RawInsert.EmailConflictClause | src/QueryBuilder.ts:222-224 | the clause for the field list ["email"] is ON CONSTRAINT email("email") |
| RawInsert.InsertIgnoreStatement | src/QueryBuilder.ts:206-231 | the statement fails exactly when data is empty (Object.keys throws) or the conflict spec cannot be rendered; when built, its bind values are the values' bind list over data[0]'s keys |
| QueryBuilder.KnexORMQueryBuilder.PostgresInsertIgnoreOnConflict | src/QueryBuilder.ts:206-231 | the text built up through the falling-through switch is the reference statement for the current table name |
| RawInsert.StatementText | src/QueryBuilder.ts:217-230 | a built statement comes from a non-empty input and a renderable clause, binds the values' bind list, and its ? count is the sum over table, columns, values and clause |
| RawInsert.StatementPlaceholders | src/QueryBuilder.ts:210-230 | the statement has exactly as many ? as bind values, when the table, column and conflict names hold no ? |
| RawInsert.ColumnsComeFromFirstRecord | src/QueryBuilder.ts:210-215 | only data[0] fixes the columns: later records that agree on those columns give the same statement whatever other keys they carry |
| JsSemantics.Slice | src/QueryBuilder.ts:162 | inside the bounds slice is the subsequence, and an end at or before the start gives the empty slice |
| JsSemantics.Substr | src/QueryBuilder.ts:240 | inside the bounds substr is the substring, and a non-positive length gives the empty string |
| JsSemantics.Min | src/QueryBuilder.ts:162 | `Math.min` on integers: the smaller of the two |
| Chunking.ChunkEnd | src/QueryBuilder.ts:162 | the upper bound passed to slice, `Math.min(nextFirstEl + bulkSize, data.length - 1)`: one short of the end of the input |
| Chunking.Starts | src/QueryBuilder.ts:153-181 | the values nextFirstEl takes: 0, then growing by bulkSize while below n |
| Chunking.Chunk | src/QueryBuilder.ts:162 | the chunk at start is data[start..min(start + bulkSize, n - 1)], empty when that bound is not past start |
| Chunking.Chunks | src/QueryBuilder.ts:158-182 | the chunks the loop forms: the chunk at each start, the start growing by bulkSize while below n |
| Chunking.StartsAt | src/QueryBuilder.ts:153-181 | the starts begin at 0 and grow by bulkSize, one chunk per start, each chunk the one at its start |
| Chunking.StartsCount | src/QueryBuilder.ts:158-181 | one chunk per start, and the last start is the only one within bulkSize of n |
| Chunking.IterationCount | src/QueryBuilder.ts:158-181 | the loop runs ceil(n / bulkSize) times |
| Chunking.ChunkSizes | src/QueryBuilder.ts:161-164 | every chunk but the last holds exactly bulkSize records, and the last holds those from its start to just before the final record |
| Chunking.ChunksMissLastRecord | src/QueryBuilder.ts:158-181 | the chunks from a start, one after the other, are the input from that start without its final record |
| Chunking.LastRecordNeverSent | src/QueryBuilder.ts:162 | all chunks together are the input in order without its final record |
| Chunking.EmptyChunkExactly | src/QueryBuilder.ts:162 | some chunk is empty iff n - 1 is a multiple of bulkSize, and then it is the last |
| Chunking.OneOverBulkSize | src/QueryBuilder.ts:162 | with n = bulkSize + 1 the chunks are data[..bulkSize] and the empty chunk |
| QueryBuilder.KnexORMQueryBuilder.ChunkQuery | src/QueryBuilder.ts:161-164 | the statement of one turn: an unbuilt one ends the run with its error; a built one is sent, a failure ends the run, and returned rows go in front of the later turns' |
| QueryBuilder.KnexORMQueryBuilder.ChunkLoop | src/QueryBuilder.ts:153-186 | the while loop gives the rows collected and the queries sent that the reference run from 0 gives |
| QueryBuilder.KnexORMQueryBuilder.PostgresInsertOrBatchIgnoreOnConflict | src/QueryBuilder.ts:141-204 | the result and the queries sent are those of the reference outcome for the builder's table, returning flag and transaction |
| BulkInsert.IgnoreOnConflictOutcome | src/QueryBuilder.ts:141-204 | the call's outcome: chunked, the loop's collected rows (null without returning); single-shot, the one statement's rows or failure, or its construction error with nothing sent |
| BulkInsert.RunFrom | src/QueryBuilder.ts:158-182 | the loop from nextFirstEl = next: done with no rows once next reaches n, otherwise the turn at next |
| BulkInsert.TurnAt | src/QueryBuilder.ts:161-164 | the turn at next: an empty chunk throws at Object.keys with nothing sent, otherwise the turn on that chunk |
| BulkInsert.TurnWith | src/QueryBuilder.ts:161-181 | the turn on a non-empty chunk: its statement's turn, followed by the loop from next + bulkSize |
| BulkInsert.Turn | src/QueryBuilder.ts:171-181 | one turn: an unbuilt statement ends the run with its error; a sent query's failure ends the run; its rows (when returning) and the query go in front of the later turns' |
| BulkInsert.RunFromStep | src/QueryBuilder.ts:158-181 | one turn of the loop: an unbuildable chunk statement ends the run without sending; a built one implies bulkSize > 0; a failing query ends the run after it is sent; returned rows go in front of the later turns' |
| BulkInsert.RunFromFollowsPlan | src/QueryBuilder.ts:158-182 | the loop over the input is the loop over the list of the chunks' statements |
| BulkInsert.PlanAllSent | src/QueryBuilder.ts:175-179 | when every statement is built and every query returns rows, one query per statement is sent in order and the result is their rows in order (nothing without returning) |
| BulkInsert.PlanStopsAtError | src/QueryBuilder.ts:161-164 | the first statement that cannot be built ends the loop with its error, after the queries before it |
| BulkInsert.PlanStopsAtFailure | src/QueryBuilder.ts:175 | a failing query ends the loop with its failure; it is the last query sent |
| BulkInsert.ChunkStatements | src/QueryBuilder.ts:161-164 | for a renderable spec, every chunk's statement is built except the last when n - 1 is a multiple of bulkSize, which throws at Object.keys |
| BulkInsert.ChunkedRun | src/QueryBuilder.ts:153-182 | with every query succeeding, the loop sends the statements of the chunks in order; it throws after all but the last when n - 1 is a multiple of bulkSize, and otherwise sends all and returns their rows |
| BulkInsert.Collected | src/QueryBuilder.ts:186 | after the loop the result is the collected rows when returning is set and null otherwise, errors passed on |
| BulkInsert.ChunkedOutcome | src/QueryBuilder.ts:141-186 | the chunked call end to end: ceil(n / bulkSize) chunks holding all records but the last; the throw after all other chunks, or all chunks written and their rows returned (null without returning) |
| BulkInsert.OneOverBulkSizeLosesLastRecord | src/QueryBuilder.ts:148-186 | with autoBulk and n = bulkSize + 1 only data[..bulkSize] is written, and then the call throws on the empty second chunk |
| BulkInsert.ZeroBulkSizeThrows | src/QueryBuilder.ts:158-164 | with bulkSize 0 the first chunk is empty and the call throws before any query is sent |
| BulkInsert.EmptyInputOutcome | src/QueryBuilder.ts:141-204 | an empty input sends nothing: chunked, the result is the empty row list (null without returning); single-shot, Object.keys throws |
| BulkInsert.SingleRecordChunkedThrows | src/QueryBuilder.ts:158-164 | chunking a single record gives one empty chunk, so the call throws before anything is sent |
| BulkInsert.SingleShotReturnsQueryRows | src/QueryBuilder.ts:187-203 | single-shot, exactly one query is sent and its rows are the result whether or not returning is set, or its failure is the error |

## Left out

- Executing queries is left out: `this._knex(...)`, `batchInsert`, `.insert`, `.returning`, `.transacting` and `knex.raw`.
  - `InsertOrBatch` returns a description of the knex query it would build.
  - The conflict path sends its raw statements to the executor parameter `exec`.
  - Database state, such as which rows a conflict skips, is not modelled.
- The awaited value of a raw query is modelled as a sequence of rows. `returningList.concat(returns)` on a value that is not an array is not modelled.
- `query()` and `transaction(...)` are left out. They hand the table or a transaction callback straight to knex, with no logic of their own.
- `updateOrBatch` is left out. It is `Promise.all` over concurrent updates inside a knex transaction, with commit and rollback.
- The `console.log` calls are left out. They are logging only.
- The commented-out query, select and where code is left out. It is not live code.
- The `_rawBuilder` field is left out. Only the commented-out code uses it.
- The generic `ModelInterface` record type is replaced by a record of `Object.keys` order and values.
- src/Model.ts and src/helpers/SimpleCRUD.ts are not part of this model. They are wrappers that forward to knex and to the builder.
- ChunkLoop and ChunkQuery: the `while` loop and the statement of one turn are methods of their own, which the call uses. In the source they are inline in `postgresInsertOrBatchIgnoreOnConflict`.
- Chunking.BulkDecision: `bulkSize` is a natural number. Negative, fractional and NaN bulk sizes are not modelled.
- RawInsert.StatementPlaceholders: the `?` count equals the bind count only when the table, column and conflict names contain no `?`. A `?` inside an identifier is not excluded by the source.
- JsSemantics.Get: a name that is not one of the record's own fields reads as undefined. The source reads such a name through the prototype chain, so a column named `constructor`, `toString`, `valueOf` or `hasOwnProperty` that a later record lacks binds the inherited function there, where the model renders `DEFAULT`. Inherited `Object.prototype` members are not modelled.
- QueryBuilder.KnexORMQueryBuilder.ChunkLoop and QueryBuilder.KnexORMQueryBuilder.PostgresInsertOrBatchIgnoreOnConflict: the builder's fields are read once for the whole call. The source is `async` and yields at every `await query`. It re-reads `_tableName`, `_trx` and `_insertReturning` on every turn and at the final `? returningList : null`. A setter that another holder of the builder calls during the loop would change the later chunks and the result. The arguments are re-read after each `await` in the same way: `data.length` in the loop condition, the `data.slice` of each turn, each chunk record's keys and fields, and `onConflictStatement`. A caller that pushes to `data`, or changes a record or the conflict spec while the call is suspended, changes the later chunks. The model takes `data` and the conflict spec as fixed values, and does not capture that interleaving or aliasing.
- The default arguments `autoBulk = true`, `bulkSize = 1000` and `bulk = false` are the constants `DefaultAutoBulk`, `DefaultBulkSize` and `DefaultBulk`. The methods take all three arguments explicitly.
- JsSemantics.Value: numbers are reals without NaN, plus a separate `NaN`. Objects, arrays and dates are one truthy case. How knex serialises bound values is not modelled.
