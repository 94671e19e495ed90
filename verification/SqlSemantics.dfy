/** What the two databases do with an upsert, and when the rewriting preserves it. */
module SqlSemantics {
  import opened Wrappers
  import opened SqlRewrite

  type Value = int

  type Row = map<string, Value>

  /** The columns of a table and its conflict key. */
  datatype Schema = Schema(columns: set<string>, key: set<string>)

  /** A table, indexed by the key part of its rows. */
  type Table = map<Row, Row>

  function Restrict(row: Row, columns: set<string>): Row {
    map c | c in row && c in columns :: row[c]
  }

  ghost predicate ValidTable(sc: Schema, t: Table) {
    forall k :: k in t ==> t[k].Keys == sc.columns && Restrict(t[k], sc.key) == k
  }

  function Zip(columns: seq<string>, values: seq<Value>): (row: Row)
    requires |columns| == |values|
    ensures forall c :: c in row <==> c in columns
  {
    if columns == [] then map[]
    else
      var n := |columns| - 1;
      Zip(columns[..n], values[..n])[columns[n] := values[n]]
  }

  /** The values list with its parameters filled in from left to right. */
  function Bind(values: seq<Expr>, params: seq<Value>, literal: string -> Value): (bound: seq<Value>)
    requires |params| == Params(values)
    ensures |bound| == |values|
  {
    if values == [] then []
    else if values[0].Param? then [params[0]] + Bind(values[1..], params[1..], literal)
    else [literal(values[0].text)] + Bind(values[1..], params, literal)
  }

  /** One execution: the parameters, and what the engine puts into the unlisted columns
      (defaults, or the next surrogate id, which the two engines count separately). */
  datatype Execution = Execution(params: seq<Value>, fill: Row)

  ghost predicate Fits(sc: Schema, s: Insert, e: Execution) {
    && s.columns.Some? && |s.columns.value| == |s.values| && |e.params| == Params(s.values)
    && (forall i, j :: 0 <= i < j < |s.columns.value| ==> s.columns.value[i] != s.columns.value[j])
    && sc.key <= Listed(s) <= sc.columns
    && e.fill.Keys == sc.columns - Listed(s)
  }

  ghost function Listed(s: Insert): set<string>
    requires s.columns.Some?
  {
    set c | c in s.columns.value
  }

  ghost function Given(sc: Schema, s: Insert, e: Execution, literal: string -> Value): Row
    requires Fits(sc, s, e)
  {
    Zip(s.columns.value, Bind(s.values, e.params, literal))
  }

  /** The statements compared: INSERT OR REPLACE with, at most, a RETURNING clause. */
  predicate Replaces(s: Insert) {
    s.verb.OrReplace? && (s.clauses == [] || s.clauses == [Returning])
  }

  predicate Upserts(s: Insert) {
    && s.verb.Plain? && s.clauses != [] && s.clauses[0].DoUpdate?
    && (s.clauses[1..] == [] || s.clauses[1..] == [Returning])
  }

  /** SQLite: INSERT OR REPLACE deletes the row in conflict and inserts a new one. */
  ghost function ExecuteSqlite(sc: Schema, s: Insert, e: Execution, literal: string -> Value, t: Table): Table
    requires Replaces(s) && Fits(sc, s, e)
  {
    Replace(sc, e.fill + Given(sc, s, e, literal), t)
  }

  ghost function Replace(sc: Schema, row: Row, t: Table): Table {
    t[Restrict(row, sc.key) := row]
  }

  ghost function Upsert(sc: Schema, row: Row, changes: Row, t: Table): Table {
    var k := Restrict(row, sc.key);
    t[k := if k in t then t[k] + changes else row]
  }

  /** PostgreSQL: ON CONFLICT DO UPDATE overwrites the assigned columns of the row in conflict;
      an empty assignment list is a syntax error, and so is OR REPLACE. */
  ghost function ExecutePostgres(sc: Schema, s: Insert, e: Execution, literal: string -> Value, t: Table)
    : Result<Table, string>
    requires (Replaces(s) || Upserts(s)) && Fits(sc, s, e)
  {
    if Replaces(s) then Err("syntax error at OR")
    else if s.clauses[0].updates == [] then Err("syntax error after SET")
    else
      var given := Given(sc, s, e, literal);
      Ok(Upsert(sc, e.fill + given, Restrict(given, set c | c in s.clauses[0].updates), t))
  }

  /** The conflict columns the rewriter picks are the key of the table. */
  ghost predicate KeyedBy(catalog: Catalog, sc: Schema, table: string) {
    forall c :: c in sc.key <==> c in ConflictColumns(catalog, table)
  }

  /** Two tables with the same keys that agree on the given columns. */
  ghost predicate Agree(a: Table, b: Table, columns: set<string>) {
    && a.Keys == b.Keys
    && forall k, c :: k in a && c in columns ==> (c in a[k] <==> c in b[k]) && (c in a[k] ==> a[k][c] == b[k][c])
  }

  ghost predicate AllFit(sc: Schema, s: Insert, batch: seq<Execution>) {
    forall i :: 0 <= i < |batch| ==> Fits(sc, s, batch[i])
  }

  ghost function BatchSqlite(sc: Schema, s: Insert, batch: seq<Execution>, literal: string -> Value, t: Table): Table
    requires Replaces(s) && AllFit(sc, s, batch)
  {
    if batch == [] then t
    else
      var n := |batch| - 1;
      ExecuteSqlite(sc, s, batch[n], literal, BatchSqlite(sc, s, batch[..n], literal, t))
  }

  ghost function BatchPostgres(sc: Schema, s: Insert, batch: seq<Execution>, literal: string -> Value, t: Table)
    : Result<Table, string>
    requires (Replaces(s) || Upserts(s)) && AllFit(sc, s, batch)
  {
    if batch == [] then Ok(t)
    else
      var n := |batch| - 1;
      match BatchPostgres(sc, s, batch[..n], literal, t)
      case Err(e) => Err(e)
      case Ok(before) => ExecutePostgres(sc, s, batch[n], literal, before)
  }

  /** Some listed column is not part of the key, so there is something to assign. */
  ghost predicate AssignsSomething(sc: Schema, s: Insert)
    requires s.columns.Some?
  {
    exists c :: c in Listed(s) && c !in sc.key
  }

  lemma RewrittenShape(catalog: Catalog, sc: Schema, s: Insert)
    requires s.verb.OrReplace? && Matches(s) && KeyedBy(catalog, sc, s.table)
    ensures var t := RewriteStatement(catalog, s);
      && Upserts(t) && t.columns == s.columns && t.values == s.values
      && (forall c :: c in t.clauses[0].updates <==> c in Listed(s) && c !in sc.key)
      && (t.clauses[0].updates != [] <==> AssignsSomething(sc, s))
  {
    var updates := RewriteStatement(catalog, s).clauses[0].updates;
    if updates != [] {
      assert updates[0] in updates;
    }
  }

  lemma ReplaceResult(sc: Schema, given: Row, fill: Row, a: Table)
    requires sc.key <= given.Keys <= sc.columns && fill.Keys == sc.columns - given.Keys && ValidTable(sc, a)
    ensures var k, a' := Restrict(given, sc.key), Replace(sc, fill + given, a);
      && a' == a[k := fill + given] && ValidTable(sc, a')
  {
    KeyOfRow(sc, given, fill);
  }

  lemma UpsertResult(sc: Schema, given: Row, fill: Row, changes: Row, b: Table)
    requires sc.key <= given.Keys <= sc.columns && fill.Keys == sc.columns - given.Keys && ValidTable(sc, b)
    requires changes == Restrict(given, given.Keys - sc.key)
    ensures var k, b' := Restrict(given, sc.key), Upsert(sc, fill + given, changes, b);
      && k in b' && b' == b[k := b'[k]] && ValidTable(sc, b')
      && forall c :: c in given.Keys ==> c in b'[k] && b'[k][c] == given[c]
  {
    KeyOfRow(sc, given, fill);
    var k := Restrict(given, sc.key);
    if k in b {
      MergedRow(sc, given, changes, b[k]);
    }
  }

  /** Replacing and updating the same given columns keeps agreeing tables in agreement. */
  lemma UpsertsAgree(sc: Schema, given: Row, fillA: Row, fillB: Row, changes: Row, a: Table, b: Table)
    requires sc.key <= given.Keys <= sc.columns
    requires fillA.Keys == fillB.Keys == sc.columns - given.Keys
    requires changes == Restrict(given, given.Keys - sc.key)
    requires ValidTable(sc, a) && ValidTable(sc, b) && Agree(a, b, given.Keys)
    ensures Agree(Replace(sc, fillA + given, a), Upsert(sc, fillB + given, changes, b), given.Keys)
    ensures ValidTable(sc, Replace(sc, fillA + given, a))
    ensures ValidTable(sc, Upsert(sc, fillB + given, changes, b))
  {
    ReplaceResult(sc, given, fillA, a);
    UpsertResult(sc, given, fillB, changes, b);
    StillAgree(a, b, Restrict(given, sc.key), given, fillA + given,
               Upsert(sc, fillB + given, changes, b)[Restrict(given, sc.key)]);
  }

  lemma StillAgree(a: Table, b: Table, k: Row, given: Row, rowA: Row, rowB: Row)
    requires Agree(a, b, given.Keys)
    requires forall c :: c in given.Keys ==> c in rowA && c in rowB && rowA[c] == given[c] == rowB[c]
    ensures Agree(a[k := rowA], b[k := rowB], given.Keys)
  {
  }

  lemma KeyOfRow(sc: Schema, given: Row, fill: Row)
    requires sc.key <= given.Keys
    ensures Restrict(fill + given, sc.key) == Restrict(given, sc.key)
  {
  }

  /** Overwriting the non-key columns of the row with this key gives all the listed columns. */
  lemma MergedRow(sc: Schema, given: Row, changes: Row, stored: Row)
    requires sc.key <= given.Keys <= sc.columns && stored.Keys == sc.columns
    requires changes == Restrict(given, given.Keys - sc.key)
    requires Restrict(stored, sc.key) == Restrict(given, sc.key)
    ensures (stored + changes).Keys == sc.columns
    ensures Restrict(stored + changes, sc.key) == Restrict(given, sc.key)
    ensures forall c :: c in given.Keys ==> (stored + changes)[c] == given[c]
  {
    forall c | c in given.Keys ensures (stored + changes)[c] == given[c] {
      if c in sc.key {
        assert Restrict(stored, sc.key)[c] == Restrict(given, sc.key)[c];
      }
    }
  }

  lemma RewrittenExecutes(catalog: Catalog, sc: Schema, s: Insert, e: Execution, literal: string -> Value, t: Table)
    requires s.verb.OrReplace? && Matches(s) && Fits(sc, s, e) && KeyedBy(catalog, sc, s.table)
    requires AssignsSomething(sc, s)
    ensures var s', given := RewriteStatement(catalog, s), Given(sc, s, e, literal);
      && Upserts(s') && Fits(sc, s', e)
      && ExecutePostgres(sc, s', e, literal, t)
         == Ok(Upsert(sc, e.fill + given, Restrict(given, Listed(s) - sc.key), t))
  {
    RewrittenShape(catalog, sc, s);
    var s' := RewriteStatement(catalog, s);
    assert Listed(s') == Listed(s);
    assert (set c | c in s'.clauses[0].updates) == Listed(s) - sc.key;
  }

  /** One execution on agreeing tables leaves tables that agree on every listed column. */
  lemma ExecutionsAgree(catalog: Catalog, sc: Schema, s: Insert, e: Execution, f: Execution,
                        literal: string -> Value, a: Table, b: Table)
    requires s.verb.OrReplace? && Matches(s) && Fits(sc, s, e) && Fits(sc, s, f) && e.params == f.params
    requires KeyedBy(catalog, sc, s.table) && AssignsSomething(sc, s)
    requires ValidTable(sc, a) && ValidTable(sc, b) && Agree(a, b, Listed(s))
    ensures var s' := RewriteStatement(catalog, s);
      Upserts(s') && Fits(sc, s', f) &&
      var a', b' := ExecuteSqlite(sc, s, e, literal, a), ExecutePostgres(sc, s', f, literal, b);
      b'.Ok? && Agree(a', b'.value, Listed(s)) && ValidTable(sc, a') && ValidTable(sc, b'.value)
  {
    var given := Given(sc, s, e, literal);
    assert given.Keys == Listed(s) && given == Given(sc, s, f, literal);
    RewrittenExecutes(catalog, sc, s, f, literal, b);
    UpsertsAgree(sc, given, e.fill, f.fill, Restrict(given, Listed(s) - sc.key), a, b);
  }

  lemma RewrittenFits(catalog: Catalog, sc: Schema, s: Insert, batch: seq<Execution>)
    requires s.verb.OrReplace? && Matches(s) && KeyedBy(catalog, sc, s.table) && AllFit(sc, s, batch)
    ensures Upserts(RewriteStatement(catalog, s)) && AllFit(sc, RewriteStatement(catalog, s), batch)
  {
    RewrittenShape(catalog, sc, s);
    assert Listed(RewriteStatement(catalog, s)) == Listed(s);
  }

  /** INSERT OR REPLACE and its rewriting agree on all listed columns, for every initial table
      and every batch, whatever the engines put into the rest. */
  lemma {:induction false} RewriteAgreesOnListed(catalog: Catalog, sc: Schema, s: Insert,
                        batch: seq<Execution>, other: seq<Execution>, literal: string -> Value, t: Table)
    requires s.verb.OrReplace? && Matches(s) && AllFit(sc, s, batch) && AllFit(sc, s, other) && |batch| == |other|
    requires forall i :: 0 <= i < |batch| ==> batch[i].params == other[i].params
    requires KeyedBy(catalog, sc, s.table) && AssignsSomething(sc, s) && ValidTable(sc, t)
    ensures var s' := RewriteStatement(catalog, s);
      Upserts(s') && AllFit(sc, s', other) &&
      var a, b := BatchSqlite(sc, s, batch, literal, t), BatchPostgres(sc, s', other, literal, t);
      b.Ok? && Agree(a, b.value, Listed(s)) && ValidTable(sc, a) && ValidTable(sc, b.value)
  {
    RewrittenFits(catalog, sc, s, other);
    var s' := RewriteStatement(catalog, s);
    if batch != [] {
      var n := |batch| - 1;
      RewriteAgreesOnListed(catalog, sc, s, batch[..n], other[..n], literal, t);
      ExecutionsAgree(catalog, sc, s, batch[n], other[n], literal,
                      BatchSqlite(sc, s, batch[..n], literal, t),
                      BatchPostgres(sc, s', other[..n], literal, t).value);
    }
  }

  ghost predicate SameTable(catalog: Catalog, sc: Schema, s: Insert, e: Execution, literal: string -> Value, t: Table)
    requires Replaces(s) && Fits(sc, s, e) && KeyedBy(catalog, sc, s.table)
  {
    ExecutePostgres(sc, RewriteStatement(catalog, s), e, literal, t) == Ok(ExecuteSqlite(sc, s, e, literal, t))
  }

  /** The rewriting leaves exactly the same table, for every initial one, if and only if the
      statement carries no clause of its own, so that it is rewritten at all, and lists every
      column and at least one outside the key. */
  lemma SameTableIff(catalog: Catalog, sc: Schema, s: Insert, e: Execution, literal: string -> Value)
    requires Replaces(s) && Fits(sc, s, e) && KeyedBy(catalog, sc, s.table)
    ensures (forall t :: ValidTable(sc, t) ==> SameTable(catalog, sc, s, e, literal, t))
       <==> Matches(s) && Listed(s) == sc.columns && AssignsSomething(sc, s)
  {
    if Matches(s) {
      RewrittenShape(catalog, sc, s);
    }
    if Matches(s) && Listed(s) == sc.columns && AssignsSomething(sc, s) {
      forall t | ValidTable(sc, t) ensures SameTable(catalog, sc, s, e, literal, t) {
        ExecutionsAgree(catalog, sc, s, e, e, literal, t, t);
        AgreeEverywhere(sc, ExecuteSqlite(sc, s, e, literal, t),
                        ExecutePostgres(sc, RewriteStatement(catalog, s), e, literal, t).value);
      }
    } else if Matches(s) && AssignsSomething(sc, s) {
      var c :| c in sc.columns && c !in Listed(s);
      OmittedColumnDiffers(catalog, sc, s, e, literal, c);
    } else {
      assert ValidTable(sc, map[]);
      assert !SameTable(catalog, sc, s, e, literal, map[]);
    }
  }

  lemma AgreeEverywhere(sc: Schema, a: Table, b: Table)
    requires ValidTable(sc, a) && ValidTable(sc, b) && Agree(a, b, sc.columns)
    ensures a == b
  {
    forall k | k in a ensures a[k] == b[k] {
      assert a[k].Keys == b[k].Keys;
    }
  }

  /** With a column left out there is a table on which the two differ: SQLite resets it, the
      rewriting keeps it. */
  lemma OmittedColumnDiffers(catalog: Catalog, sc: Schema, s: Insert, e: Execution, literal: string -> Value, c: string)
    requires s.verb.OrReplace? && Matches(s) && Fits(sc, s, e) && KeyedBy(catalog, sc, s.table)
    requires AssignsSomething(sc, s) && c in sc.columns - Listed(s)
    ensures exists t :: ValidTable(sc, t) && !SameTable(catalog, sc, s, e, literal, t)
  {
    var given := Given(sc, s, e, literal);
    var t := ResetVersusKept(sc, e.fill + given, Restrict(given, Listed(s) - sc.key), c);
    RewrittenExecutes(catalog, sc, s, e, literal, t);
    assert !SameTable(catalog, sc, s, e, literal, t);
  }

  lemma ResetVersusKept(sc: Schema, row: Row, changes: Row, c: string) returns (t: Table)
    requires row.Keys == sc.columns && c in sc.columns && c !in sc.key && c !in changes
    ensures ValidTable(sc, t) && Replace(sc, row, t) != Upsert(sc, row, changes, t)
  {
    var k, stored := Restrict(row, sc.key), row[c := row[c] + 1];
    assert Restrict(stored, sc.key) == k;
    t := map[k := stored];
    assert Replace(sc, row, t)[k][c] == row[c];
    assert Upsert(sc, row, changes, t)[k][c] == row[c] + 1;
  }

  /** Then so does every batch: the tables are the same for any sequence of executions, later
      duplicates of a key included. */
  lemma {:induction false} SameTableForBatches(catalog: Catalog, sc: Schema, s: Insert, batch: seq<Execution>,
                                               literal: string -> Value, t: Table)
    requires s.verb.OrReplace? && Matches(s) && AllFit(sc, s, batch) && KeyedBy(catalog, sc, s.table)
    requires Listed(s) == sc.columns && AssignsSomething(sc, s) && ValidTable(sc, t)
    ensures var s' := RewriteStatement(catalog, s);
      Upserts(s') && AllFit(sc, s', batch) &&
      BatchPostgres(sc, s', batch, literal, t) == Ok(BatchSqlite(sc, s, batch, literal, t))
  {
    RewriteAgreesOnListed(catalog, sc, s, batch, batch, literal, t);
    AgreeEverywhere(sc, BatchSqlite(sc, s, batch, literal, t),
                    BatchPostgres(sc, RewriteStatement(catalog, s), batch, literal, t).value);
  }

  // ---- INSERT OR IGNORE ----

  /** The statements compared: INSERT OR IGNORE with, at most, a RETURNING clause. */
  predicate Ignores(s: Insert) {
    s.verb.OrIgnore? && (s.clauses == [] || s.clauses == [Returning])
  }

  /** A plain INSERT for PostgreSQL, without DO UPDATE. */
  predicate Inserts(s: Insert) {
    s.verb.Plain? && forall i :: 0 <= i < |s.clauses| ==> !s.clauses[i].DoUpdate?
  }

  ghost function RowOf(sc: Schema, s: Insert, e: Execution, literal: string -> Value): Row
    requires Fits(sc, s, e)
  {
    e.fill + Given(sc, s, e, literal)
  }

  /** SQLite: a row in conflict stays and the new one is dropped. */
  ghost function IgnoreSqlite(sc: Schema, s: Insert, e: Execution, literal: string -> Value, t: Table): Table
    requires Ignores(s) && Fits(sc, s, e)
  {
    var row := RowOf(sc, s, e, literal);
    if Restrict(row, sc.key) in t then t else t[Restrict(row, sc.key) := row]
  }

  /** PostgreSQL: without ON CONFLICT a second row with a key is an error; with DO NOTHING it is
      dropped. ON CONFLICT has to come before RETURNING, and once. */
  ghost function InsertPostgres(sc: Schema, s: Insert, e: Execution, literal: string -> Value, t: Table)
    : Result<Table, string>
    requires Inserts(s) && Fits(sc, s, e)
  {
    var row := RowOf(sc, s, e, literal);
    var k := Restrict(row, sc.key);
    if s.clauses == [] || s.clauses == [Returning] then
      if k in t then Err("duplicate key") else Ok(t[k := row])
    else if s.clauses == [DoNothing] || s.clauses == [DoNothing, Returning] then
      Ok(if k in t then t else t[k := row])
    else Err("syntax error")
  }

  ghost function IgnoreBatchSqlite(sc: Schema, s: Insert, batch: seq<Execution>, literal: string -> Value, t: Table)
    : Table
    requires Ignores(s) && AllFit(sc, s, batch)
  {
    if batch == [] then t
    else
      var n := |batch| - 1;
      IgnoreSqlite(sc, s, batch[n], literal, IgnoreBatchSqlite(sc, s, batch[..n], literal, t))
  }

  ghost function InsertBatchPostgres(sc: Schema, s: Insert, batch: seq<Execution>, literal: string -> Value, t: Table)
    : Result<Table, string>
    requires Inserts(s) && AllFit(sc, s, batch)
  {
    if batch == [] then Ok(t)
    else
      var n := |batch| - 1;
      match InsertBatchPostgres(sc, s, batch[..n], literal, t)
      case Err(e) => Err(e)
      case Ok(before) => InsertPostgres(sc, s, batch[n], literal, before)
  }

  lemma IgnoreShape(catalog: Catalog, sc: Schema, s: Insert)
    requires Ignores(s)
    ensures var s' := RewriteStatement(catalog, s);
      && Inserts(s')
      && (s.columns.Some? ==> s'.columns == s.columns && s'.values == s.values)
      && (s.clauses == [] ==> s'.clauses == [DoNothing] || s'.clauses == [DoNothing, Returning])
      && (s.clauses == [Returning] ==> s'.clauses == [Returning, DoNothing])
  {
    RewrittenClauses(catalog, s);
  }

  lemma IgnoreFits(catalog: Catalog, sc: Schema, s: Insert, e: Execution, literal: string -> Value)
    requires Ignores(s) && Fits(sc, s, e)
    ensures Inserts(RewriteStatement(catalog, s)) && Fits(sc, RewriteStatement(catalog, s), e)
    ensures RowOf(sc, RewriteStatement(catalog, s), e, literal) == RowOf(sc, s, e, literal)
  {
    IgnoreShape(catalog, sc, s);
    assert Listed(RewriteStatement(catalog, s)) == Listed(s);
  }

  ghost predicate SameIgnore(catalog: Catalog, sc: Schema, s: Insert, e: Execution, literal: string -> Value, t: Table)
    requires Ignores(s) && Fits(sc, s, e)
  {
    IgnoreFits(catalog, sc, s, e, literal);
    InsertPostgres(sc, RewriteStatement(catalog, s), e, literal, t) == Ok(IgnoreSqlite(sc, s, e, literal, t))
  }

  /** The rewritten INSERT OR IGNORE leaves the same table and raises no error, for every initial
      table, if and only if the statement had no RETURNING of its own. */
  lemma SameIgnoreIff(catalog: Catalog, sc: Schema, s: Insert, e: Execution, literal: string -> Value)
    requires Ignores(s) && Fits(sc, s, e)
    ensures (forall t :: SameIgnore(catalog, sc, s, e, literal, t)) <==> s.clauses == []
  {
    IgnoreShape(catalog, sc, s);
    IgnoreFits(catalog, sc, s, e, literal);
    if s.clauses != [] {
      assert !SameIgnore(catalog, sc, s, e, literal, map[]);
    }
  }

  /** And so for every batch, rows already there and repeated keys included. */
  lemma {:induction false} SameIgnoreForBatches(catalog: Catalog, sc: Schema, s: Insert, batch: seq<Execution>,
                                                literal: string -> Value, t: Table)
    requires Ignores(s) && s.clauses == [] && AllFit(sc, s, batch)
    ensures var s' := RewriteStatement(catalog, s);
      Inserts(s') && AllFit(sc, s', batch) &&
      InsertBatchPostgres(sc, s', batch, literal, t) == Ok(IgnoreBatchSqlite(sc, s, batch, literal, t))
  {
    IgnoreShape(catalog, sc, s);
    forall i | 0 <= i < |batch| ensures Fits(sc, RewriteStatement(catalog, s), batch[i]) {
      IgnoreFits(catalog, sc, s, batch[i], literal);
    }
    if batch != [] {
      var n := |batch| - 1;
      SameIgnoreForBatches(catalog, sc, s, batch[..n], literal, t);
      SameIgnoreIff(catalog, sc, s, batch[n], literal);
      assert SameIgnore(catalog, sc, s, batch[n], literal, IgnoreBatchSqlite(sc, s, batch[..n], literal, t));
    }
  }

  /** What is listed agrees whatever the engines put into the rest. */
  lemma {:induction false} IgnoreAgreesOnListed(catalog: Catalog, sc: Schema, s: Insert,
                        batch: seq<Execution>, other: seq<Execution>, literal: string -> Value, t: Table)
    requires Ignores(s) && s.clauses == [] && s.columns.Some?
    requires AllFit(sc, s, batch) && AllFit(sc, s, other) && |batch| == |other|
    requires forall i :: 0 <= i < |batch| ==> batch[i].params == other[i].params
    ensures Inserts(RewriteStatement(catalog, s)) && AllFit(sc, RewriteStatement(catalog, s), other)
    ensures var b := InsertBatchPostgres(sc, RewriteStatement(catalog, s), other, literal, t);
      b.Ok? && Agree(IgnoreBatchSqlite(sc, s, batch, literal, t), b.value, Listed(s))
  {
    SameIgnoreForBatches(catalog, sc, s, other, literal, t);
    IgnoresAgree(sc, s, batch, other, literal, t);
  }

  lemma {:induction false} IgnoresAgree(sc: Schema, s: Insert, batch: seq<Execution>, other: seq<Execution>,
                                        literal: string -> Value, t: Table)
    requires Ignores(s) && s.columns.Some?
    requires AllFit(sc, s, batch) && AllFit(sc, s, other) && |batch| == |other|
    requires forall i :: 0 <= i < |batch| ==> batch[i].params == other[i].params
    ensures Agree(IgnoreBatchSqlite(sc, s, batch, literal, t), IgnoreBatchSqlite(sc, s, other, literal, t), Listed(s))
  {
    if batch != [] {
      var n := |batch| - 1;
      IgnoresAgree(sc, s, batch[..n], other[..n], literal, t);
      IgnoreOneAgrees(sc, s, batch[n], other[n], literal,
                      IgnoreBatchSqlite(sc, s, batch[..n], literal, t),
                      IgnoreBatchSqlite(sc, s, other[..n], literal, t));
    }
  }

  lemma IgnoreOneAgrees(sc: Schema, s: Insert, e: Execution, f: Execution, literal: string -> Value, a: Table, b: Table)
    requires Ignores(s) && Fits(sc, s, e) && Fits(sc, s, f) && e.params == f.params && Agree(a, b, Listed(s))
    ensures Agree(IgnoreSqlite(sc, s, e, literal, a), IgnoreSqlite(sc, s, f, literal, b), Listed(s))
  {
    var given := Given(sc, s, e, literal);
    assert given.Keys == Listed(s) && given == Given(sc, s, f, literal);
    KeyOfRow(sc, given, e.fill);
    KeyOfRow(sc, given, f.fill);
    StillAgree(a, b, Restrict(given, sc.key), given, RowOf(sc, s, e, literal), RowOf(sc, s, f, literal));
  }

  /** A row that is there stays as it is: ignoring twice, or over an old row, changes nothing. */
  lemma IgnoredRowStays(sc: Schema, s: Insert, e: Execution, literal: string -> Value, t: Table)
    requires Ignores(s) && Fits(sc, s, e)
    ensures forall k :: k in t ==> k in IgnoreSqlite(sc, s, e, literal, t)
    ensures forall k :: k in t ==> IgnoreSqlite(sc, s, e, literal, t)[k] == t[k]
    ensures IgnoreSqlite(sc, s, e, literal, IgnoreSqlite(sc, s, e, literal, t)) == IgnoreSqlite(sc, s, e, literal, t)
  {
  }

  // ---- The three statements the bot issues ----

  const KEYS: Catalog := map[
    "active_symbols" := ["symbol", "market_key", "session_date"],
    "position_snapshots" := ["trade_id"],
    "account_snapshots" := ["id"]]

  const ACTIVE_SYMBOLS := Insert(OrReplace, "active_symbols",
    Some(["symbol", "market_key", "score", "selected_at", "session_date"]),
    [Param, Param, Param, Param, Param], [])

  const POSITION_SNAPSHOT := Insert(OrReplace, "position_snapshots",
    Some(["trade_id", "symbol", "current_price", "pnl_usd", "pnl_pct", "updated_at"]),
    [Param, Param, Param, Param, Param, Param], [])

  const ACCOUNT_SNAPSHOT := Insert(OrReplace, "account_snapshots",
    Some(["date", "net_liquidation", "buying_power", "daily_pnl_usd", "daily_pnl_pct", "created_at"]),
    [Param, Param, Param, Param, Param, Param], [])

  const ACTIVE_SYMBOLS_SCHEMA := Schema(
    {"symbol", "market_key", "session_date", "score", "selected_at"}, {"symbol", "market_key", "session_date"})

  const POSITION_SNAPSHOTS_SCHEMA := Schema(
    {"trade_id", "symbol", "current_price", "pnl_usd", "pnl_pct", "updated_at"}, {"trade_id"})

  const ACCOUNT_SNAPSHOTS_SCHEMA := Schema(
    {"id", "date", "net_liquidation", "buying_power", "daily_pnl_usd", "daily_pnl_pct", "created_at"}, {"date"})

  lemma ActiveSymbolsShape()
    ensures KeyedBy(KEYS, ACTIVE_SYMBOLS_SCHEMA, ACTIVE_SYMBOLS.table)
    ensures Listed(ACTIVE_SYMBOLS) == ACTIVE_SYMBOLS_SCHEMA.columns
    ensures AssignsSomething(ACTIVE_SYMBOLS_SCHEMA, ACTIVE_SYMBOLS)
  {
    assert "score" in Listed(ACTIVE_SYMBOLS);
  }

  /** The first leaves exactly the same table on either engine, for every batch. */
  lemma {:induction false} ActiveSymbolsSame(literal: string -> Value, batch: seq<Execution>, t: Table)
    requires AllFit(ACTIVE_SYMBOLS_SCHEMA, ACTIVE_SYMBOLS, batch) && ValidTable(ACTIVE_SYMBOLS_SCHEMA, t)
    ensures var s' := RewriteStatement(KEYS, ACTIVE_SYMBOLS);
      Upserts(s') && AllFit(ACTIVE_SYMBOLS_SCHEMA, s', batch) &&
      BatchPostgres(ACTIVE_SYMBOLS_SCHEMA, s', batch, literal, t)
        == Ok(BatchSqlite(ACTIVE_SYMBOLS_SCHEMA, ACTIVE_SYMBOLS, batch, literal, t))
  {
    ActiveSymbolsShape();
    SameTableForBatches(KEYS, ACTIVE_SYMBOLS_SCHEMA, ACTIVE_SYMBOLS, batch, literal, t);
  }

  /** So does the second, which is executed one row at a time. */
  lemma PositionSnapshotSame(literal: string -> Value, e: Execution, t: Table)
    requires Fits(POSITION_SNAPSHOTS_SCHEMA, POSITION_SNAPSHOT, e) && ValidTable(POSITION_SNAPSHOTS_SCHEMA, t)
    ensures KeyedBy(KEYS, POSITION_SNAPSHOTS_SCHEMA, POSITION_SNAPSHOT.table)
    ensures SameTable(KEYS, POSITION_SNAPSHOTS_SCHEMA, POSITION_SNAPSHOT, e, literal, t)
  {
    assert "symbol" in Listed(POSITION_SNAPSHOT);
    assert Listed(POSITION_SNAPSHOT) == POSITION_SNAPSHOTS_SCHEMA.columns;
    SameTableIff(KEYS, POSITION_SNAPSHOTS_SCHEMA, POSITION_SNAPSHOT, e, literal);
  }

  const PROPOSE_SYMBOL := Insert(OrIgnore, "symbol_config",
    Some(["symbol", "approved", "proposed_by", "created_at"]),
    [Param, Literal("0"), Literal("'llm'"), Param], [])

  /** Proposing symbols: no error for those already configured, whose rows stay, and the same
      listed columns on either engine. */
  lemma {:induction false} ProposalsAgree(sc: Schema, batch: seq<Execution>, other: seq<Execution>,
                                          literal: string -> Value, t: Table)
    requires AllFit(sc, PROPOSE_SYMBOL, batch) && AllFit(sc, PROPOSE_SYMBOL, other) && |batch| == |other|
    requires forall i :: 0 <= i < |batch| ==> batch[i].params == other[i].params
    ensures var s' := RewriteStatement(map["symbol_config" := ["symbol"]], PROPOSE_SYMBOL);
      Inserts(s') && AllFit(sc, s', other) && s'.clauses == [DoNothing] &&
      var b := InsertBatchPostgres(sc, s', other, literal, t);
      b.Ok? && Agree(IgnoreBatchSqlite(sc, PROPOSE_SYMBOL, batch, literal, t), b.value, Listed(PROPOSE_SYMBOL))
  {
    var catalog: Catalog := map["symbol_config" := ["symbol"]];
    IgnoreAgreesOnListed(catalog, sc, PROPOSE_SYMBOL, batch, other, literal, t);
    RewrittenClauses(catalog, PROPOSE_SYMBOL);
    assert "symbol"[0] != "id"[0];
  }

  lemma AccountSnapshotShape()
    ensures KeyedBy(KEYS, ACCOUNT_SNAPSHOTS_SCHEMA, ACCOUNT_SNAPSHOT.table)
    ensures Listed(ACCOUNT_SNAPSHOT) == ACCOUNT_SNAPSHOTS_SCHEMA.columns - {"id"}
    ensures AssignsSomething(ACCOUNT_SNAPSHOTS_SCHEMA, ACCOUNT_SNAPSHOT)
  {
    assert "buying_power" in Listed(ACCOUNT_SNAPSHOT);
  }

  /** The third leaves the surrogate id to the engine: the two tables agree on every other
      column. */
  lemma AccountSnapshotSameUpToId(literal: string -> Value, e: Execution, f: Execution, t: Table)
    requires Fits(ACCOUNT_SNAPSHOTS_SCHEMA, ACCOUNT_SNAPSHOT, e) && Fits(ACCOUNT_SNAPSHOTS_SCHEMA, ACCOUNT_SNAPSHOT, f)
    requires e.params == f.params && ValidTable(ACCOUNT_SNAPSHOTS_SCHEMA, t)
    ensures var s' := RewriteStatement(KEYS, ACCOUNT_SNAPSHOT);
      Upserts(s') && Fits(ACCOUNT_SNAPSHOTS_SCHEMA, s', f) &&
      var b := ExecutePostgres(ACCOUNT_SNAPSHOTS_SCHEMA, s', f, literal, t);
      b.Ok? && Agree(ExecuteSqlite(ACCOUNT_SNAPSHOTS_SCHEMA, ACCOUNT_SNAPSHOT, e, literal, t), b.value,
                     ACCOUNT_SNAPSHOTS_SCHEMA.columns - {"id"})
  {
    AccountSnapshotShape();
    ExecutionsAgree(KEYS, ACCOUNT_SNAPSHOTS_SCHEMA, ACCOUNT_SNAPSHOT, e, f, literal, t, t);
  }

  /** And on some table they do differ in the id: SQLite gives the replaced row a new one. */
  lemma AccountSnapshotIdDiffers(literal: string -> Value, e: Execution)
    requires Fits(ACCOUNT_SNAPSHOTS_SCHEMA, ACCOUNT_SNAPSHOT, e)
    ensures KeyedBy(KEYS, ACCOUNT_SNAPSHOTS_SCHEMA, ACCOUNT_SNAPSHOT.table)
    ensures exists t :: ValidTable(ACCOUNT_SNAPSHOTS_SCHEMA, t)
                     && !SameTable(KEYS, ACCOUNT_SNAPSHOTS_SCHEMA, ACCOUNT_SNAPSHOT, e, literal, t)
  {
    AccountSnapshotShape();
    OmittedColumnDiffers(KEYS, ACCOUNT_SNAPSHOTS_SCHEMA, ACCOUNT_SNAPSHOT, e, literal, "id");
  }
}
