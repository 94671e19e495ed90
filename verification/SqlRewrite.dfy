/** The SQLite to PostgreSQL rewriting of INSERT statements, as data with a printer. */
module SqlRewrite {
  import opened Wrappers
  import opened SqlText

  datatype Verb = Plain | OrIgnore | OrReplace

  datatype Expr = Param | Literal(text: string)

  /** What may follow the values list. */
  datatype Clause = DoNothing | DoUpdate(target: seq<string>, updates: seq<string>) | Returning

  datatype Insert = Insert(
    verb: Verb, table: string, columns: Option<seq<string>>, values: seq<Expr>, clauses: seq<Clause>)

  /** The primary key columns of the mapped tables. */
  type Catalog = map<string, seq<string>>

  const ACCOUNT_SNAPSHOTS := "account_snapshots"

  /** `_get_conflict_columns`. */
  function ConflictColumns(catalog: Catalog, table: string): seq<string> {
    if table == ACCOUNT_SNAPSHOTS then ["date"]
    else if table in catalog then catalog[table]
    else ["id"]
  }

  function Without(columns: seq<string>, dropped: seq<string>): (kept: seq<string>)
    ensures forall c :: c in kept <==> c in columns && c !in dropped
  {
    if columns == [] then []
    else (if columns[0] in dropped then [] else [columns[0]]) + Without(columns[1..], dropped)
  }

  /** `_append_returning_id`: only for tables keyed by `id` alone, and only once. */
  function AppendReturning(catalog: Catalog, s: Insert): Insert {
    if s.verb.Plain? && Returning !in s.clauses && s.table in catalog && catalog[s.table] == ["id"] then
      s.(clauses := s.clauses + [Returning])
    else s
  }

  /** What the pattern of the rewriter matches: a column list, and nothing after the values. */
  predicate Matches(s: Insert) {
    s.columns.Some? && s.clauses == []
  }

  /** `_rewrite_insert_or_replace`: a statement that does not match stays as it is. */
  function RewriteReplace(catalog: Catalog, s: Insert): Insert {
    if !Matches(s) then s
    else
      var target := ConflictColumns(catalog, s.table);
      s.(verb := Plain, clauses := [DoUpdate(target, Without(s.columns.value, target))])
  }

  function RewriteStatement(catalog: Catalog, s: Insert): Insert {
    AppendReturning(catalog,
                    match s.verb
                    case OrIgnore => s.(verb := Plain, clauses := s.clauses + [DoNothing])
                    case OrReplace => RewriteReplace(catalog, s)
                    case Plain => s)
  }

  // ---- Printing ----

  function CommaSeparated(items: seq<string>): string {
    if items == [] then ""
    else if |items| == 1 then items[0]
    else items[0] + ", " + CommaSeparated(items[1..])
  }

  function PrintExpr(e: Expr): string {
    match e
    case Param => "?"
    case Literal(text) => text
  }

  function PrintValues(values: seq<Expr>): string {
    if values == [] then ""
    else if |values| == 1 then PrintExpr(values[0])
    else PrintExpr(values[0]) + ", " + PrintValues(values[1..])
  }

  function Assignments(columns: seq<string>): string {
    if columns == [] then ""
    else if |columns| == 1 then columns[0] + "=EXCLUDED." + columns[0]
    else columns[0] + "=EXCLUDED." + columns[0] + ", " + Assignments(columns[1..])
  }

  function PrintClause(c: Clause): string {
    match c
    case DoNothing => " ON CONFLICT DO NOTHING"
    case DoUpdate(target, updates) =>
      " ON CONFLICT (" + CommaSeparated(target) + ") DO UPDATE SET " + Assignments(updates)
    case Returning => " RETURNING id"
  }

  function PrintClauses(clauses: seq<Clause>): string {
    if clauses == [] then "" else PrintClause(clauses[0]) + PrintClauses(clauses[1..])
  }

  function PrintVerb(v: Verb): string {
    match v
    case Plain => "INSERT INTO "
    case OrIgnore => "INSERT OR IGNORE INTO "
    case OrReplace => "INSERT OR REPLACE INTO "
  }

  function PrintColumns(columns: Option<seq<string>>): string {
    if columns.None? then "" else " (" + (CommaSeparated(columns.value) + ")")
  }

  function PrintHead(s: Insert): string {
    PrintVerb(s.verb) + (s.table + (PrintColumns(s.columns) + " VALUES ("))
  }

  function PrintTail(s: Insert): string {
    ")" + PrintClauses(s.clauses)
  }

  function Print(s: Insert): string {
    PrintHead(s) + PrintValues(s.values) + PrintTail(s)
  }

  /** `_rewrite_sql_for_postgres` on an INSERT: rewrite the statement, then the placeholders. */
  function RewriteText(catalog: Catalog, s: Insert): string {
    ReplaceQmark(Print(RewriteStatement(catalog, s)))
  }

  // ---- Placeholders stay aligned ----

  function Params(values: seq<Expr>): nat {
    if values == [] then 0 else (if values[0].Param? then 1 else 0) + Params(values[1..])
  }

  /** Names and literals are free of `?`. */
  ghost predicate Clean(catalog: Catalog, s: Insert) {
    && '?' !in s.table
    && (s.columns.Some? ==> CleanNames(s.columns.value))
    && (forall i :: 0 <= i < |s.values| && s.values[i].Literal? ==> '?' !in s.values[i].text)
    && CleanClauses(s.clauses)
    && (s.table in catalog ==> CleanNames(catalog[s.table]))
  }

  ghost predicate CleanClauses(clauses: seq<Clause>) {
    forall i :: 0 <= i < |clauses| && clauses[i].DoUpdate? ==>
      CleanNames(clauses[i].target) && CleanNames(clauses[i].updates)
  }

  ghost predicate CleanNames(names: seq<string>) {
    forall i :: 0 <= i < |names| ==> '?' !in names[i]
  }

  lemma {:induction false} SplitConcat(a: string, b: string)
    ensures Qmarks(a + b) == Qmarks(a) + Qmarks(b)
  {
    if a == "" {
      assert a + b == b;
    } else {
      assert (a + b)[1..] == a[1..] + b;
      SplitConcat(a[1..], b);
    }
  }

  lemma {:induction false} CleanText(s: string)
    requires '?' !in s
    ensures Qmarks(s) == 0
  {
    NoQmarkSplits(s, '?');
  }

  lemma {:induction false} CleanList(names: seq<string>)
    requires CleanNames(names)
    ensures '?' !in CommaSeparated(names) && '?' !in Assignments(names)
  {
    if |names| > 1 {
      CleanList(names[1..]);
    }
  }

  lemma {:induction false} ValueMarks(values: seq<Expr>)
    requires forall i :: 0 <= i < |values| && values[i].Literal? ==> '?' !in values[i].text
    ensures Qmarks(PrintValues(values)) == Params(values)
  {
    if values != [] {
      var first := PrintExpr(values[0]);
      assert Qmarks(first) == if values[0].Param? then 1 else 0 by {
        if values[0].Literal? {
          CleanText(first);
        } else {
          assert "?"[1..] == "" && Split("", '?') == [""];
        }
      }
      ValueMarks(values[1..]);
      if |values| > 1 {
        CleanText(", ");
        SplitConcat(first, ", ");
        SplitConcat(first + ", ", PrintValues(values[1..]));
      }
    }
  }

  /** The text of a statement has one `?` per parameter. */
  lemma PrintedMarks(catalog: Catalog, s: Insert)
    requires Clean(catalog, s)
    ensures Qmarks(Print(s)) == Params(s.values)
  {
    CleanHead(catalog, s);
    CleanTail(s.clauses);
    CleanConcat(")", PrintClauses(s.clauses));
    CleanText(PrintHead(s));
    CleanText(PrintTail(s));
    ValueMarks(s.values);
    SplitConcat(PrintHead(s), PrintValues(s.values));
    SplitConcat(PrintHead(s) + PrintValues(s.values), PrintTail(s));
  }

  lemma CleanConcat(a: string, b: string)
    requires '?' !in a && '?' !in b
    ensures '?' !in a + b
  {
  }

  lemma CleanHead(catalog: Catalog, s: Insert)
    requires Clean(catalog, s)
    ensures '?' !in PrintHead(s)
  {
    if s.columns.Some? {
      var names := CommaSeparated(s.columns.value);
      CleanList(s.columns.value);
      CleanConcat(names, ")");
      CleanConcat(" (", names + ")");
    }
    CleanConcat(PrintColumns(s.columns), " VALUES (");
    CleanConcat(s.table, PrintColumns(s.columns) + " VALUES (");
    CleanConcat(PrintVerb(s.verb), s.table + (PrintColumns(s.columns) + " VALUES ("));
  }

  lemma CleanClause(c: Clause)
    requires c.DoUpdate? ==> CleanNames(c.target) && CleanNames(c.updates)
    ensures '?' !in PrintClause(c)
  {
    if c.DoUpdate? {
      CleanList(c.target);
      CleanList(c.updates);
      var a := " ON CONFLICT (" + CommaSeparated(c.target);
      CleanConcat(" ON CONFLICT (", CommaSeparated(c.target));
      CleanConcat(a, ") DO UPDATE SET ");
      CleanConcat(a + ") DO UPDATE SET ", Assignments(c.updates));
    }
  }

  lemma {:induction false} CleanTail(clauses: seq<Clause>)
    requires CleanClauses(clauses)
    ensures '?' !in PrintClauses(clauses)
  {
    if clauses != [] {
      CleanClause(clauses[0]);
      CleanTail(clauses[1..]);
      CleanConcat(PrintClause(clauses[0]), PrintClauses(clauses[1..]));
    }
  }

  lemma RewritingKeepsClean(catalog: Catalog, s: Insert)
    requires Clean(catalog, s)
    ensures Clean(catalog, RewriteStatement(catalog, s))
  {
    if s.verb.OrReplace? && Matches(s) {
      var target := ConflictColumns(catalog, s.table);
      var updates := Without(s.columns.value, target);
      assert forall i :: 0 <= i < |updates| ==> updates[i] in updates;
      assert CleanNames(target);
    }
  }

  /** Through the whole rewrite of any INSERT the parameters stay what they were: the same
      values list, as many of them, and no `?` left. The driver reads the k-th parameter at the
      k-th `?` exactly when no literal or name holds a percent sign. */
  lemma RewriteAlignsParameters(catalog: Catalog, s: Insert)
    requires Clean(catalog, s)
    ensures RewriteStatement(catalog, s).values == s.values
    ensures Qmarks(Print(RewriteStatement(catalog, s))) == Qmarks(Print(s)) == Params(s.values)
    ensures '?' !in RewriteText(catalog, s)
    ensures Driver(RewriteText(catalog, s)) == Some(Split(Print(RewriteStatement(catalog, s)), '?'))
       <==> '%' !in Print(RewriteStatement(catalog, s))
    ensures '%' !in Print(RewriteStatement(catalog, s)) ==>
      |Driver(RewriteText(catalog, s)).value| - 1 == Params(s.values)
  {
    var t := RewriteStatement(catalog, s);
    RewritingKeepsClean(catalog, s);
    PrintedMarks(catalog, s);
    PrintedMarks(catalog, t);
    NoQmarkRemains(Print(t));
    AlignedIff(Print(t));
  }

  // ---- What the rewrite does to each statement ----

  /** A RETURNING clause goes to tables keyed by their id alone, unless there is one. */
  ghost predicate GainsReturning(catalog: Catalog, s: Insert) {
    Returning !in s.clauses && s.table in catalog && catalog[s.table] == ["id"]
  }

  function Tail(gains: bool): seq<Clause> {
    if gains then [Returning] else []
  }

  /** The clauses each verb ends up with, in order; a REPLACE the pattern does not match stays. */
  lemma RewrittenClauses(catalog: Catalog, s: Insert)
    ensures var t := RewriteStatement(catalog, s);
      var tail := Tail(GainsReturning(catalog, s));
      && t.table == s.table && t.columns == s.columns && t.values == s.values
      && (s.verb.Plain? ==> t.verb.Plain? && t.clauses == s.clauses + tail)
      && (s.verb.OrIgnore? ==> t.verb.Plain? && t.clauses == s.clauses + [DoNothing] + tail)
      && (s.verb.OrReplace? && (s.columns.None? || s.clauses != []) ==> t == s)
      && (s.verb.OrReplace? && s.columns.Some? && s.clauses == [] ==>
            && t.verb.Plain? && |t.clauses| >= 1 && t.clauses[0].DoUpdate? && t.clauses[1..] == tail
            && (forall c :: c in t.clauses[0].updates <==> c in s.columns.value && c !in t.clauses[0].target)
            && t.clauses[0].target == if s.table == "account_snapshots" then ["date"]
                                      else if s.table in catalog then catalog[s.table] else ["id"])
  {
    assert s.clauses + [] == s.clauses && s.clauses + [DoNothing] + [] == s.clauses + [DoNothing];
  }

  /** The text between the verb and the clauses. */
  function Middle(s: Insert): string {
    s.table + (PrintColumns(s.columns) + " VALUES (") + (PrintValues(s.values) + ")")
  }

  lemma Regroup(a: string, b: string, c: string, d: string, e: string)
    ensures a + b + c + (d + e) == a + (b + (c + d)) + e
  {
  }

  lemma PrintedAs(s: Insert)
    ensures Print(s) == PrintVerb(s.verb) + Middle(s) + PrintClauses(s.clauses)
  {
    Regroup(PrintVerb(s.verb), s.table + (PrintColumns(s.columns) + " VALUES ("), PrintValues(s.values), ")",
            PrintClauses(s.clauses));
  }

  lemma {:induction false} ClausesConcat(a: seq<Clause>, b: seq<Clause>)
    ensures PrintClauses(a + b) == PrintClauses(a) + PrintClauses(b)
  {
    if a == [] {
      assert a + b == b;
    } else {
      assert (a + b)[1..] == a[1..] + b;
      ClausesConcat(a[1..], b);
    }
  }

  lemma OneClause(c: Clause)
    ensures PrintClauses([c]) == PrintClause(c)
  {
    assert [c][1..] == [] && PrintClause(c) + "" == PrintClause(c);
  }

  /** The added clauses of a rewritten INSERT OR IGNORE as text. */
  function IgnoreSuffix(gains: bool): string {
    " ON CONFLICT DO NOTHING" + if gains then " RETURNING id" else ""
  }

  lemma SuffixPrints(clauses: seq<Clause>, gains: bool)
    ensures PrintClauses(clauses + [DoNothing] + Tail(gains)) == PrintClauses(clauses) + IgnoreSuffix(gains)
  {
    assert clauses + [DoNothing] + Tail(gains) == clauses + ([DoNothing] + Tail(gains));
    ClausesConcat(clauses, [DoNothing] + Tail(gains));
    ClausesConcat([DoNothing], Tail(gains));
    OneClause(DoNothing);
    OneClause(Returning);
  }

  /** INSERT OR IGNORE in text: the verb loses OR IGNORE, and the text gains ON CONFLICT DO
      NOTHING after everything it had, and RETURNING after that where the table calls for it. */
  lemma IgnoreInText(catalog: Catalog, s: Insert) returns (rest: string)
    requires s.verb.OrIgnore?
    ensures Print(s) == "INSERT OR IGNORE INTO " + rest
    ensures Print(RewriteStatement(catalog, s)) == "INSERT INTO " + (rest + IgnoreSuffix(GainsReturning(catalog, s)))
  {
    var t, gains := RewriteStatement(catalog, s), GainsReturning(catalog, s);
    rest := Middle(s) + PrintClauses(s.clauses);
    RewrittenClauses(catalog, s);
    PrintedAs(s);
    PrintedAs(t);
    SuffixPrints(s.clauses, gains);
    Nest("INSERT OR IGNORE INTO ", Middle(s), PrintClauses(s.clauses), "");
    Nest("INSERT INTO ", Middle(s), PrintClauses(s.clauses), IgnoreSuffix(gains));
  }

  lemma Nest(a: string, b: string, c: string, d: string)
    ensures a + b + c == a + (b + c)
    ensures a + b + (c + d) == a + (b + c + d)
  {
  }

  /** The added clauses of a rewritten INSERT OR REPLACE as text. */
  function ReplaceSuffix(target: seq<string>, updates: seq<string>, gains: bool): string {
    " ON CONFLICT (" + CommaSeparated(target) + ") DO UPDATE SET " + Assignments(updates)
    + if gains then " RETURNING id" else ""
  }

  /** INSERT OR REPLACE in text, for a statement with a column list and no clause of its own: it
      assigns the listed columns outside the conflict target, in their order. */
  lemma ReplaceInText(catalog: Catalog, s: Insert) returns (rest: string)
    requires s.verb.OrReplace? && s.columns.Some? && s.clauses == []
    ensures Print(s) == "INSERT OR REPLACE INTO " + rest
    ensures var target := if s.table == "account_snapshots" then ["date"]
                          else if s.table in catalog then catalog[s.table] else ["id"];
      Print(RewriteStatement(catalog, s))
        == "INSERT INTO " + (rest + ReplaceSuffix(target, Without(s.columns.value, target), GainsReturning(catalog, s)))
  {
    var t, gains := RewriteStatement(catalog, s), GainsReturning(catalog, s);
    rest := Middle(s) + "";
    PrintedAs(s);
    PrintedAs(t);
    ClausesConcat([t.clauses[0]], Tail(gains));
    OneClause(t.clauses[0]);
    OneClause(Returning);
    assert t.clauses == [t.clauses[0]] + Tail(gains);
    Nest("INSERT OR REPLACE INTO ", Middle(s), "", "");
    Nest("INSERT INTO ", Middle(s), "", PrintClauses(t.clauses));
    assert "" + PrintClauses(t.clauses) == PrintClauses(t.clauses);
  }

  // ---- Rewriting the rewritten ----

  /** The values list as it stands after the placeholders have been replaced. */
  function Filled(values: seq<Expr>): (filled: seq<Expr>)
    ensures |filled| == |values|
  {
    seq(|values|, i requires 0 <= i < |values| => if values[i].Param? then Literal(MARK) else values[i])
  }

  lemma {:induction false} ReplaceConcat(a: string, b: string)
    ensures ReplaceQmark(a + b) == ReplaceQmark(a) + ReplaceQmark(b)
  {
    if a == "" {
      assert a + b == b && ReplaceQmark("") == "";
    } else {
      assert (a + b)[1..] == a[1..] + b;
      ReplaceStep(a + b);
      ReplaceStep(a);
      ReplaceConcat(a[1..], b);
    }
  }

  lemma ReplaceClean(s: string)
    requires '?' !in s
    ensures ReplaceQmark(s) == s
  {
    NoQmarkSplits(s, '?');
  }

  lemma ReplaceExpr(e: Expr)
    requires e.Literal? ==> '?' !in e.text
    ensures ReplaceQmark(PrintExpr(e)) == if e.Param? then MARK else e.text
  {
    if e.Literal? {
      ReplaceClean(e.text);
    } else {
      ReplaceStep("?");
      assert "?"[1..] == "" && ReplaceQmark("") == "";
    }
  }

  lemma {:induction false} ReplaceValues(values: seq<Expr>)
    requires forall i :: 0 <= i < |values| && values[i].Literal? ==> '?' !in values[i].text
    ensures ReplaceQmark(PrintValues(values)) == PrintValues(Filled(values))
  {
    if values == [] {
      assert ReplaceQmark("") == "";
    } else {
      var first, rest := PrintExpr(values[0]), values[1..];
      ReplaceExpr(values[0]);
      ReplaceValues(rest);
      assert Filled(values)[1..] == Filled(rest);
      if |values| > 1 {
        ReplaceClean(", ");
        ReplaceConcat(first, ", ");
        ReplaceConcat(first + ", ", PrintValues(rest));
      }
    }
  }

  /** The rewritten text is itself the text of a statement: the rewritten one, with each of its
      parameters a `%s`. */
  lemma RewrittenTextPrints(catalog: Catalog, s: Insert)
    requires Clean(catalog, s)
    ensures var t := RewriteStatement(catalog, s);
      RewriteText(catalog, s) == Print(t.(values := Filled(t.values)))
  {
    var t := RewriteStatement(catalog, s);
    RewritingKeepsClean(catalog, s);
    CleanHead(catalog, t);
    CleanTail(t.clauses);
    CleanConcat(")", PrintClauses(t.clauses));
    ReplaceClean(PrintHead(t));
    ReplaceClean(PrintTail(t));
    ReplaceValues(t.values);
    ReplaceConcat(PrintHead(t), PrintValues(t.values));
    ReplaceConcat(PrintHead(t) + PrintValues(t.values), PrintTail(t));
  }

  /** Rewriting is idempotent: on statements, and on text, where the whole rewrite leaves its
      own output as it is. */
  lemma RewritingTwiceIsRewritingOnce(catalog: Catalog, s: Insert)
    ensures RewriteStatement(catalog, RewriteStatement(catalog, s)) == RewriteStatement(catalog, s)
    ensures ReplaceQmark(RewriteText(catalog, s)) == RewriteText(catalog, s)
    ensures var t := RewriteStatement(catalog, s);
      var written := t.(values := Filled(t.values));
      Clean(catalog, s) ==>
        RewriteText(catalog, s) == Print(written) && RewriteText(catalog, written) == RewriteText(catalog, s)
  {
    var t := RewriteStatement(catalog, s);
    ReplacingTwiceIsReplacingOnce(Print(t));
    StatementTwice(catalog, s);
    if Clean(catalog, s) {
      RewrittenTextPrints(catalog, s);
    }
  }

  /** A rewritten statement is rewritten to itself, whatever its values. */
  lemma StatementTwice(catalog: Catalog, s: Insert)
    ensures var t := RewriteStatement(catalog, s);
      && RewriteStatement(catalog, t) == t
      && RewriteStatement(catalog, t.(values := Filled(t.values))) == t.(values := Filled(t.values))
  {
  }
}
