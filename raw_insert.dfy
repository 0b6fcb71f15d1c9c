/**
 * RawInsert: the text of the PostgreSQL `INSERT ... ON CONFLICT ... DO NOTHING`
 * statement that KnexORMQueryBuilder hands to `knex.raw`, and its positional
 * bind values. These functions are the reference definitions that the
 * builder's loop-and-trim methods are proved against.
 */
module RawInsert {
  import opened Results
  import opened Text
  import opened JsSemantics

  // ---------------------------------------------------------------- columns

  /**
   * The column list `_getRawFieldsStr` renders: each name double-quoted,
   * joined by ", ", in parentheses. Trimming the trailing ", " off "(" when
   * there are no names leaves only the closing parenthesis.
   */
  function FieldList(names: seq<string>): string
  {
    if |names| == 0 then ")" else "(" + Join(QuoteAll(names), ", ") + ")"
  }

  /** The column list names exactly the given columns, in order, when no name holds a double quote. */
  lemma FieldListNamesColumns(names: seq<string>)
    requires forall i :: 0 <= i < |names| ==> '"' !in names[i]
    ensures QuotedNames(FieldList(names)) == names
  {
    if |names| == 0 {
      QuotedNamesSkip(")", "");
      assert ")" + "" == ")";
    } else {
      var body := Join(QuoteAll(names), ", ") + ")";
      assert FieldList(names) == "(" + body;
      QuotedNamesSkip("(", body);
      QuotedNamesOfList(names, ")");
      QuotedNamesSkip(")", "");
      assert ")" + "" == ")";
    }
  }

  /** Names are not escaped: a column called `a"b` is written with its inner quote as it is. */
  lemma UnescapedColumnText()
    ensures FieldList(["a\"b"]) == "(\"a\"b\")"
  {
    assert QuoteAll(["a\"b"]) == [Quote("a\"b")];
  }

  /**
   * Names are not escaped: a column called `a"b` is read back from the column
   * list as `a`.
   */
  lemma UnescapedQuoteInColumn()
    ensures QuotedNames(FieldList(["a\"b"])) == ["a"]
  {
    var rest := "b" + (['"'] + ")");
    assert QuoteAll(["a\"b"]) == [Quote("a\"b")];
    assert FieldList(["a\"b"]) == "(" + (Quote("a") + rest);
    QuotedNamesSkip("(", Quote("a") + rest);
    QuotedNamesQuote("a", rest);
    QuotedNamesSkip("b", ['"'] + ")");
    QuotedNamesUnclosed(")");
    assert ["a"] + [] == ["a"];
  }

  // ----------------------------------------------------------- one record

  /** The token for one field: `?` for a truthy value, `DEFAULT` otherwise. */
  function Token(v: Value): string
  {
    if Truthy(v) then "?" else "DEFAULT"
  }

  /** A token and its separator, as the loop appends them. */
  lemma TokenText(v: Value)
    ensures Token(v) + ", " == if Truthy(v) then "?, " else "DEFAULT, "
  {
    if Truthy(v) {
      assert "?" + ", " == "?, ";
    } else {
      assert "DEFAULT" + ", " == "DEFAULT, ";
    }
  }

  /** The tokens of one record's tuple. */
  function Tokens(r: Record, names: seq<string>): (ts: seq<string>)
    ensures |ts| == |names|
    decreases |names|
  {
    if |names| == 0 then [] else [Token(Get(r, names[0]))] + Tokens(r, names[1..])
  }

  /** Each column's token is `?` for a truthy value and `DEFAULT` otherwise. */
  lemma {:induction false} TokensAt(r: Record, names: seq<string>)
    ensures forall i :: 0 <= i < |names| ==> Tokens(r, names)[i] == Token(Get(r, names[i]))
    decreases |names|
  {
    if |names| > 0 {
      TokensAt(r, names[1..]);
      assert Tokens(r, names)[1..] == Tokens(r, names[1..]);
    }
  }

  /** The tuple `_getOneDataRawFieldsValuesStr` renders for one record. */
  function Tuple(r: Record, names: seq<string>): string
  {
    if |names| == 0 then ")" else "(" + Join(Tokens(r, names), ", ") + ")"
  }

  /** The values bound for one record: its truthy field values, in column order. */
  function Binds(r: Record, names: seq<string>): (vs: seq<Value>)
    ensures |vs| <= |names|
    ensures forall i :: 0 <= i < |vs| ==> Truthy(vs[i])
    decreases |names|
  {
    if |names| == 0 then []
    else (if Truthy(Get(r, names[0])) then [Get(r, names[0])] else []) + Binds(r, names[1..])
  }

  /** The bind values over two runs of columns are those of each run in turn. */
  lemma {:induction false} BindsConcat(r: Record, a: seq<string>, b: seq<string>)
    ensures Binds(r, a + b) == Binds(r, a) + Binds(r, b)
    decreases |a|
  {
    if |a| == 0 {
      assert a + b == b;
    } else {
      assert (a + b)[0] == a[0];
      assert (a + b)[1..] == a[1..] + b;
      BindsConcat(r, a[1..], b);
    }
  }

  /** One more column adds its token at the end of the tuple's tokens. */
  lemma TokensSnoc(r: Record, names: seq<string>, field: string)
    ensures Tokens(r, names + [field]) == Tokens(r, names) + [Token(Get(r, field))]
  {
    TokensAt(r, names + [field]);
    TokensAt(r, names);
    assert (names + [field])[|names|] == field;
  }

  /** One more column adds its value at the end of the bind list exactly when the value is truthy. */
  lemma BindsSnoc(r: Record, names: seq<string>, field: string)
    ensures Binds(r, names + [field]) == Binds(r, names) + (if Truthy(Get(r, field)) then [Get(r, field)] else [])
  {
    BindsConcat(r, names, [field]);
    assert [field][1..] == [];
  }

  /**
   * The column at position j contributes its value to the bind list exactly
   * when the value is truthy, between the contributions of the columns
   * before and after it.
   */
  lemma BindsAt(r: Record, names: seq<string>, j: nat)
    requires j < |names|
    ensures Binds(r, names) ==
            Binds(r, names[..j])
            + (if Truthy(Get(r, names[j])) then [Get(r, names[j])] else [])
            + Binds(r, names[j + 1..])
  {
    assert names == names[..j] + ([names[j]] + names[j + 1..]);
    BindsConcat(r, names[..j], [names[j]] + names[j + 1..]);
    assert ([names[j]] + names[j + 1..])[1..] == names[j + 1..];
  }

  /** The tokens hold as many `?` as there are bind values. */
  lemma {:induction false} TokensPlaceholders(r: Record, names: seq<string>)
    ensures SumPlaceholders(Tokens(r, names)) == |Binds(r, names)|
    decreases |names|
  {
    if |names| > 0 {
      var ts := Tokens(r, names);
      assert ts[1..] == Tokens(r, names[1..]);
      PlaceholdersConcat("?", "");
      NoPlaceholders("");
      NoPlaceholders("DEFAULT");
      TokensPlaceholders(r, names[1..]);
    }
  }

  /** The `?` count of a record's tuple equals the length of its bind list. */
  lemma TuplePlaceholders(r: Record, names: seq<string>)
    ensures Placeholders(Tuple(r, names)) == |Binds(r, names)|
  {
    if |names| > 0 {
      JoinPlaceholders(Tokens(r, names), ", ");
      TokensPlaceholders(r, names);
      var body := Join(Tokens(r, names), ", ");
      PlaceholdersConcat("(", body);
      PlaceholdersConcat("(" + body, ")");
      NoPlaceholders("(");
      NoPlaceholders(")");
    } else {
      NoPlaceholders(")");
    }
  }

  // --------------------------------------------------------- many records

  /** The tuples of all records, one per record, in input order. */
  function Tuples(rs: seq<Record>, names: seq<string>): (ts: seq<string>)
    ensures |ts| == |rs|
    decreases |rs|
  {
    if |rs| == 0 then [] else [Tuple(rs[0], names)] + Tuples(rs[1..], names)
  }

  /** Each record renders its own tuple, in its own place. */
  lemma {:induction false} TuplesAt(rs: seq<Record>, names: seq<string>)
    ensures forall i :: 0 <= i < |rs| ==> Tuples(rs, names)[i] == Tuple(rs[i], names)
    decreases |rs|
  {
    if |rs| > 0 {
      TuplesAt(rs[1..], names);
      assert Tuples(rs, names)[1..] == Tuples(rs[1..], names);
    }
  }

  /** The VALUES list `_getManyDataRawFieldsValuesStr` renders: the tuples joined by ", ". */
  function ValuesList(rs: seq<Record>, names: seq<string>): string
  {
    Join(Tuples(rs, names), ", ")
  }

  /** The bind list of many records: each record's bind list, in input order. */
  function AllBinds(rs: seq<Record>, names: seq<string>): seq<Value>
    decreases |rs|
  {
    if |rs| == 0 then [] else Binds(rs[0], names) + AllBinds(rs[1..], names)
  }

  /** The bind list of two runs of records is that of each run in turn. */
  lemma {:induction false} AllBindsConcat(a: seq<Record>, b: seq<Record>, names: seq<string>)
    ensures AllBinds(a + b, names) == AllBinds(a, names) + AllBinds(b, names)
    decreases |a|
  {
    if |a| == 0 {
      assert a + b == b;
    } else {
      assert (a + b)[0] == a[0];
      assert (a + b)[1..] == a[1..] + b;
      AllBindsConcat(a[1..], b, names);
    }
  }

  /** One more record adds its tuple at the end. */
  lemma TuplesSnoc(rs: seq<Record>, r: Record, names: seq<string>)
    ensures Tuples(rs + [r], names) == Tuples(rs, names) + [Tuple(r, names)]
  {
    TuplesAt(rs + [r], names);
    TuplesAt(rs, names);
    assert (rs + [r])[|rs|] == r;
  }

  /** One more record adds its bind list at the end. */
  lemma AllBindsSnoc(rs: seq<Record>, r: Record, names: seq<string>)
    ensures AllBinds(rs + [r], names) == AllBinds(rs, names) + Binds(r, names)
  {
    AllBindsConcat(rs, [r], names);
    assert [r][1..] == [];
  }

  /** Summed over all tuples, the `?` count is the length of the whole bind list. */
  lemma {:induction false} TuplesPlaceholders(rs: seq<Record>, names: seq<string>)
    ensures SumPlaceholders(Tuples(rs, names)) == |AllBinds(rs, names)|
    decreases |rs|
  {
    if |rs| > 0 {
      assert Tuples(rs, names)[1..] == Tuples(rs[1..], names);
      TuplePlaceholders(rs[0], names);
      TuplesPlaceholders(rs[1..], names);
    }
  }

  /** The `?` count of the VALUES list equals the length of the bind list. */
  lemma ValuesListPlaceholders(rs: seq<Record>, names: seq<string>)
    ensures Placeholders(ValuesList(rs, names)) == |AllBinds(rs, names)|
  {
    JoinPlaceholders(Tuples(rs, names), ", ");
    TuplesPlaceholders(rs, names);
  }

  /** Records that agree on the given columns render the same tuples and bind the same values. */
  lemma {:induction false} ValuesOnlyReadColumns(rs: seq<Record>, rs': seq<Record>, names: seq<string>)
    requires |rs| == |rs'|
    requires forall i, j :: 0 <= i < |rs| && 0 <= j < |names| ==> Get(rs[i], names[j]) == Get(rs'[i], names[j])
    ensures ValuesList(rs, names) == ValuesList(rs', names)
    ensures AllBinds(rs, names) == AllBinds(rs', names)
    decreases |rs|
  {
    forall i | 0 <= i < |rs|
      ensures Tuple(rs[i], names) == Tuple(rs'[i], names) && Binds(rs[i], names) == Binds(rs'[i], names)
    {
      RecordOnlyReadsColumns(rs[i], rs'[i], names);
    }
    TuplesAt(rs, names);
    TuplesAt(rs', names);
    assert Tuples(rs, names) == Tuples(rs', names);
    if |rs| > 0 {
      ValuesOnlyReadColumns(rs[1..], rs'[1..], names);
    }
  }

  /** One record's tuple and bind list depend only on its values in the given columns. */
  lemma {:induction false} RecordOnlyReadsColumns(r: Record, r': Record, names: seq<string>)
    requires forall j :: 0 <= j < |names| ==> Get(r, names[j]) == Get(r', names[j])
    ensures Tuple(r, names) == Tuple(r', names)
    ensures Binds(r, names) == Binds(r', names)
    decreases |names|
  {
    TokensAt(r, names);
    TokensAt(r', names);
    assert Tokens(r, names) == Tokens(r', names);
    if |names| > 0 {
      RecordOnlyReadsColumns(r, r', names[1..]);
    }
  }

  // ------------------------------------------------------ conflict clause

  /** `PostgresOnConflictType`. */
  datatype PostgresOnConflictType = Constraint | Fields | UpdateDo

  /** The `data` member: a constraint name for Constraint, an array of field names for Fields. */
  datatype ConflictData = ConstraintName(name: string) | FieldNames(names: seq<string>)

  /** `PostgresOnConflict`. */
  datatype PostgresOnConflict = PostgresOnConflict(kind: PostgresOnConflictType, data: ConflictData)

  /** What the raw insert path can throw, and a failure reported by the database. */
  datatype Error =
    | KeysOfMissingFirstRecord      // `Object.keys(data[0])` on an empty array
    | ConflictFieldsNotArray        // `data.map` on a conflict `data` that is not an array
    | QueryFailed(reason: string)   // the awaited raw query rejected

  /** `${data}`: a string as itself, an array as its elements joined by ",". */
  function ConflictDataText(d: ConflictData): string
  {
    match d
    case ConstraintName(name) => name
    case FieldNames(names) => Join(names, ",")
  }

  /**
   * The text the conflict `switch` appends after `ON CONFLICT `. Both labels
   * are `Fields` and the first falls through, so `Fields` gets
   * `ON CONSTRAINT <data>` followed by the quoted field list, and any other
   * type gets nothing.
   */
  function ConflictClause(c: PostgresOnConflict): (r: Result<string, Error>)
    ensures c.kind != Fields ==> r == Ok("")
    ensures c.kind == Fields && c.data.ConstraintName? ==> r == Err(ConflictFieldsNotArray)
    ensures c.kind == Fields && c.data.FieldNames? ==>
              r == Ok("ON CONSTRAINT " + Join(c.data.names, ",") + "(" + Join(QuoteAll(c.data.names), ", ") + ")")
  {
    match c.kind
    case Fields =>
      (match c.data
       case FieldNames(names) =>
         Ok("ON CONSTRAINT " + ConflictDataText(c.data) + "(" + Join(QuoteAll(names), ", ") + ")")
       case ConstraintName(_) => Err(ConflictFieldsNotArray))
    case _ => Ok("")
  }

  /** The conflict spec is one the switch can render without throwing. */
  predicate Renderable(c: PostgresOnConflict)
  {
    c.kind == Fields ==> c.data.FieldNames?
  }

  /**
   * For `Fields`, both clause forms are emitted: the text begins with
   * `ON CONSTRAINT ` and the quoted list that follows names exactly the
   * conflict fields, when no name holds a double quote.
   */
  lemma FieldsClauseHasBothForms(names: seq<string>)
    requires forall i :: 0 <= i < |names| ==> '"' !in names[i]
    ensures var r := ConflictClause(PostgresOnConflict(Fields, FieldNames(names)));
            r.Ok? && r.value[..14] == "ON CONSTRAINT " && QuotedNames(r.value) == names
  {
    var r := ConflictClause(PostgresOnConflict(Fields, FieldNames(names)));
    if |names| == 0 {
      assert r.value == "ON CONSTRAINT ()";
      QuotedNamesSkip("ON CONSTRAINT ()", "");
      assert "ON CONSTRAINT ()" + "" == "ON CONSTRAINT ()";
    } else {
      var list := Join(QuoteAll(names), ", ") + ")";
      var head := "ON CONSTRAINT " + Join(names, ",") + "(";
      assert r.value == head + list;
      JoinAvoids(names, ",", '"');
      QuotedNamesSkip(head, list);
      QuotedNamesOfList(names, ")");
      QuotedNamesSkip(")", "");
      assert ")" + "" == ")";
    }
  }


  /** A conflict on the single field "email": the constraint text is the bare name. */
  lemma EmailConflictClause()
    ensures ConflictClause(PostgresOnConflict(Fields, FieldNames(["email"]))) ==
            Ok("ON CONSTRAINT email(\"email\")")
  {
    assert Join(["email"], ",") == "email";
    assert QuoteAll(["email"]) == [Quote("email")];
    assert Join(QuoteAll(["email"]), ", ") == "\"email\"";
    assert "ON CONSTRAINT " + "email" + "(" + "\"email\"" + ")" == "ON CONSTRAINT email(\"email\")";
  }

  // -------------------------------------------------------------- statement

  /** A statement for `knex.raw`: SQL text with `?` placeholders, and the values bound to them. */
  datatype RawQuery = RawQuery(sql: string, bindings: seq<Value>)

  /**
   * The raw query `postgresInsertIgnoreOnConflict` builds for `data` into
   * table `table`. The columns are the keys of `data[0]`, so an empty `data`
   * throws before anything is rendered.
   */
  function InsertIgnoreStatement(table: string, data: seq<Record>, c: PostgresOnConflict): (r: Result<RawQuery, Error>)
    ensures r.Err? <==> data == [] || !Renderable(c)
    ensures data == [] ==> r == Err(KeysOfMissingFirstRecord)
    ensures r.Ok? ==> r.value.bindings == AllBinds(data, data[0].keys)
  {
    if |data| == 0 then Err(KeysOfMissingFirstRecord)
    else
      var names := data[0].keys;
      match ConflictClause(c)
      case Err(e) => Err(e)
      case Ok(clause) =>
        Ok(RawQuery("INSERT INTO \"" + table + "\" " + FieldList(names) + " VALUES " + ValuesList(data, names)
                    + " ON CONFLICT " + clause + "DO NOTHING;",
                    AllBinds(data, names)))
  }

  /** Quoted names without `?` give a column list without placeholders. */
  lemma {:induction false} QuotedListNoPlaceholders(names: seq<string>)
    requires forall i :: 0 <= i < |names| ==> '?' !in names[i]
    ensures Placeholders(Join(QuoteAll(names), ", ")) == 0
  {
    var qs := QuoteAll(names);
    QuoteAllAt(names);
    JoinPlaceholders(qs, ", ");
    forall i | 0 <= i < |qs| ensures '?' !in qs[i] {
      assert qs[i] == "\"" + names[i] + "\"";
    }
    SumPlaceholdersNone(qs);
  }

  /** The column list of `?`-free names has no placeholders. */
  lemma FieldListNoPlaceholders(names: seq<string>)
    requires forall i :: 0 <= i < |names| ==> '?' !in names[i]
    ensures Placeholders(FieldList(names)) == 0
  {
    if |names| > 0 {
      var body := Join(QuoteAll(names), ", ");
      QuotedListNoPlaceholders(names);
      PlaceholdersConcat("(", body);
      PlaceholdersConcat("(" + body, ")");
      NoPlaceholders("(");
      NoPlaceholders(")");
    } else {
      NoPlaceholders(")");
    }
  }

  /** A renderable conflict clause over `?`-free field names has no placeholders. */
  lemma ClauseNoPlaceholders(c: PostgresOnConflict)
    requires Renderable(c)
    requires c.data.FieldNames? ==> forall i :: 0 <= i < |c.data.names| ==> '?' !in c.data.names[i]
    ensures Placeholders(ConflictClause(c).value) == 0
  {
    if c.kind == Fields {
      var ns := c.data.names;
      var a := "ON CONSTRAINT " + Join(ns, ",");
      var b := Join(QuoteAll(ns), ", ");
      JoinPlaceholders(ns, ",");
      SumPlaceholdersNone(ns);
      QuotedListNoPlaceholders(ns);
      NoPlaceholders("ON CONSTRAINT ");
      NoPlaceholders("(");
      NoPlaceholders(")");
      PlaceholdersConcat("ON CONSTRAINT ", Join(ns, ","));
      PlaceholdersConcat(a, "(");
      PlaceholdersConcat(a + "(", b);
      PlaceholdersConcat(a + "(" + b, ")");
    } else {
      NoPlaceholders("");
    }
  }

  // The fixed text of the statement holds no placeholder; one literal per
  // lemma keeps each proof small.
  lemma InsertIntoText() ensures Placeholders("INSERT INTO \"") == 0 { NoPlaceholders("INSERT INTO \""); }
  lemma TableCloseText() ensures Placeholders("\" ") == 0 { NoPlaceholders("\" "); }
  lemma ValuesText() ensures Placeholders(" VALUES ") == 0 { NoPlaceholders(" VALUES "); }
  lemma OnConflictText() ensures Placeholders(" ON CONFLICT ") == 0 { NoPlaceholders(" ON CONFLICT "); }
  lemma DoNothingText() ensures Placeholders("DO NOTHING;") == 0 { NoPlaceholders("DO NOTHING;"); }

  /** The placeholders of a rendered statement are those of its table name, column list, VALUES list and clause. */
  lemma StatementText(table: string, data: seq<Record>, c: PostgresOnConflict, q: RawQuery)
    requires InsertIgnoreStatement(table, data, c) == Ok(q)
    ensures |data| > 0 && ConflictClause(c).Ok?
    ensures q.bindings == AllBinds(data, data[0].keys)
    ensures Placeholders(q.sql) == Placeholders(table) + Placeholders(FieldList(data[0].keys))
                                   + Placeholders(ValuesList(data, data[0].keys)) + Placeholders(ConflictClause(c).value)
  {
    StatementTextPlaceholders(table, FieldList(data[0].keys), ValuesList(data, data[0].keys), ConflictClause(c).value);
  }

  /** The placeholders of the statement text are those of its variable pieces. */
  lemma StatementTextPlaceholders(table: string, fields: string, values: string, clause: string)
    ensures Placeholders("INSERT INTO \"" + table + "\" " + fields + " VALUES " + values + " ON CONFLICT " + clause + "DO NOTHING;")
         == Placeholders(table) + Placeholders(fields) + Placeholders(values) + Placeholders(clause)
  {
    InsertIntoText();
    TableCloseText();
    ValuesText();
    OnConflictText();
    DoNothingText();
    var s1 := "INSERT INTO \"" + table;
    PlaceholdersConcat("INSERT INTO \"", table);
    var s2 := s1 + "\" ";
    PlaceholdersConcat(s1, "\" ");
    var s3 := s2 + fields;
    PlaceholdersConcat(s2, fields);
    var s4 := s3 + " VALUES ";
    PlaceholdersConcat(s3, " VALUES ");
    var s5 := s4 + values;
    PlaceholdersConcat(s4, values);
    var s6 := s5 + " ON CONFLICT ";
    PlaceholdersConcat(s5, " ON CONFLICT ");
    var s7 := s6 + clause;
    PlaceholdersConcat(s6, clause);
    PlaceholdersConcat(s7, "DO NOTHING;");
  }

  /**
   * The statement as a whole has as many `?` placeholders as bind values,
   * provided the table name, the column names and the conflict fields hold
   * no `?` of their own.
   */
  lemma StatementPlaceholders(table: string, data: seq<Record>, c: PostgresOnConflict, q: RawQuery)
    requires InsertIgnoreStatement(table, data, c) == Ok(q)
    requires '?' !in table
    requires forall i :: 0 <= i < |data[0].keys| ==> '?' !in data[0].keys[i]
    requires c.data.FieldNames? ==> forall i :: 0 <= i < |c.data.names| ==> '?' !in c.data.names[i]
    ensures Placeholders(q.sql) == |q.bindings|
  {
    var names := data[0].keys;
    StatementText(table, data, c, q);
    ValuesListPlaceholders(data, names);
    FieldListNoPlaceholders(names);
    ClauseNoPlaceholders(c);
    NoPlaceholders(table);
  }

  /**
   * Only `data[0]` fixes the columns: records after it that agree on those
   * columns give the same statement, whatever other keys they carry.
   */
  lemma ColumnsComeFromFirstRecord(table: string, first: Record, rest: seq<Record>, rest': seq<Record>, c: PostgresOnConflict)
    requires |rest| == |rest'|
    requires forall i, j :: 0 <= i < |rest| && 0 <= j < |first.keys| ==> Get(rest[i], first.keys[j]) == Get(rest'[i], first.keys[j])
    ensures InsertIgnoreStatement(table, [first] + rest, c) == InsertIgnoreStatement(table, [first] + rest', c)
  {
    ValuesOnlyReadColumns([first] + rest, [first] + rest', first.keys);
  }

  /** A later record lacking one of `data[0]`'s keys renders `DEFAULT` there and binds nothing for it. */
  lemma MissingColumnIsDefault(data: seq<Record>, i: nat, j: nat)
    requires i < |data| && |data| > 0 && j < |data[0].keys|
    requires data[0].keys[j] !in data[i].fields
    ensures Tokens(data[i], data[0].keys)[j] == "DEFAULT"
    ensures Binds(data[i], data[0].keys) ==
            Binds(data[i], data[0].keys[..j]) + Binds(data[i], data[0].keys[j + 1..])
  {
    var r, names := data[i], data[0].keys;
    assert Get(r, names[j]) == Undefined;
    TokensAt(r, names);
    BindsAt(r, names, j);
  }
}
