/** Placeholder rewriting on the statement text: every `?` becomes `%s`. */
module SqlText {
  import opened Wrappers

  const MARK := "%s"

  function Split(s: string, c: char): (parts: seq<string>)
    ensures |parts| >= 1
  {
    if s == "" then [""]
    else
      var rest := Split(s[1..], c);
      if s[0] == c then [""] + rest else [[s[0]] + rest[0]] + rest[1..]
  }

  function Join(parts: seq<string>, sep: string): string
    requires |parts| >= 1
  {
    if |parts| == 1 then parts[0] else parts[0] + sep + Join(parts[1..], sep)
  }

  /** `"%s".join(sql.split("?"))`. */
  function ReplaceQmark(sql: string): string {
    Join(Split(sql, '?'), MARK)
  }

  /** Text in front of the first of some pieces. */
  function Prefix(text: string, parts: Option<seq<string>>): Option<seq<string>>
    requires parts.Some? ==> |parts.value| >= 1
  {
    if parts.None? then None else Some([text + parts.value[0]] + parts.value[1..])
  }

  /** How the driver reads a text it is to fill parameters into: the pieces between the `%s`
      placeholders. A doubled percent sign stands for one; any other is an error. */
  function Driver(s: string): (parts: Option<seq<string>>)
    ensures parts.Some? ==> |parts.value| >= 1
  {
    if s == "" then Some([""])
    else if s[0] != '%' then Prefix([s[0]], Driver(s[1..]))
    else if |s| == 1 then None
    else if s[1] == 's' then
      var rest := Driver(s[2..]);
      if rest.None? then None else Some([""] + rest.value)
    else if s[1] == '%' then Prefix("%", Driver(s[2..]))
    else None
  }

  function Qmarks(s: string): nat { |Split(s, '?')| - 1 }

  /** Character by character the join is a plain substitution. */
  lemma {:induction false} ReplaceStep(s: string)
    requires s != ""
    ensures ReplaceQmark(s) == (if s[0] == '?' then MARK else [s[0]]) + ReplaceQmark(s[1..])
  {
    var rest := Split(s[1..], '?');
    if s[0] == '?' {
      assert ([""] + rest)[1..] == rest;
    } else {
      var parts := [[s[0]] + rest[0]] + rest[1..];
      assert parts[1..] == rest[1..];
      if |rest| > 1 {
        assert [s[0]] + rest[0] + MARK + Join(rest[1..], MARK) == [s[0]] + (rest[0] + MARK + Join(rest[1..], MARK));
      }
    }
  }

  lemma {:induction false} NoQmarkSplits(s: string, c: char)
    requires c !in s
    ensures Split(s, c) == [s]
  {
    if s != "" {
      NoQmarkSplits(s[1..], c);
      assert [s[0]] + s[1..] == s;
    }
  }

  lemma {:induction false} NoQmarkRemains(sql: string)
    ensures '?' !in ReplaceQmark(sql)
  {
    if sql != "" {
      NoQmarkRemains(sql[1..]);
      ReplaceStep(sql);
    }
  }

  lemma ReplacingTwiceIsReplacingOnce(sql: string)
    ensures ReplaceQmark(ReplaceQmark(sql)) == ReplaceQmark(sql)
  {
    NoQmarkRemains(sql);
    NoQmarkSplits(ReplaceQmark(sql), '?');
  }

  // ---- Alignment ----

  function Length(parts: seq<string>): nat {
    if parts == [] then 0 else |parts[0]| + Length(parts[1..])
  }

  function Percents(s: string): nat {
    if s == "" then 0 else (if s[0] == '%' then 1 else 0) + Percents(s[1..])
  }

  lemma {:induction false} NoPercents(s: string)
    ensures Percents(s) == 0 <==> '%' !in s
  {
    if s != "" {
      NoPercents(s[1..]);
      assert s == [s[0]] + s[1..];
    }
  }

  lemma {:induction false} PercentsConcat(a: string, b: string)
    ensures Percents(a + b) == Percents(a) + Percents(b)
  {
    if a == "" {
      assert a + b == b;
    } else {
      assert (a + b)[1..] == a[1..] + b;
      PercentsConcat(a[1..], b);
    }
  }

  /** Every placeholder takes one percent sign and two characters of the text, every escape two
      percent signs and one character more than it leaves in the pieces. */
  lemma {:induction false} DriverCounts(s: string)
    ensures var parts := Driver(s);
      parts.Some? ==>
        var marks := |parts.value| - 1;
        Percents(s) == marks + 2 * (|s| - Length(parts.value) - 2 * marks)
    decreases |s|
  {
    if s != "" {
      if s[0] != '%' {
        DriverCounts(s[1..]);
      } else if |s| > 1 {
        DriverCounts(s[2..]);
        assert s[1..][1..] == s[2..];
        assert s[1] == 's' && Driver(s).Some? ==> Driver(s).value[1..] == Driver(s[2..]).value;
      }
    }
  }

  lemma {:induction false} ReplaceCounts(sql: string)
    ensures |ReplaceQmark(sql)| == Length(Split(sql, '?')) + 2 * Qmarks(sql)
    ensures Percents(ReplaceQmark(sql)) == Percents(sql) + Qmarks(sql)
  {
    if sql == "" {
      assert ReplaceQmark("") == "";
    } else {
      ReplaceCounts(sql[1..]);
      ReplaceStep(sql);
      var first := if sql[0] == '?' then MARK else [sql[0]];
      PercentsConcat(first, ReplaceQmark(sql[1..]));
      assert Percents(first) == if sql[0] == '?' || sql[0] == '%' then 1 else 0 by {
        assert MARK[1..] == "s" && "s"[1..] == "" && [sql[0]][1..] == "";
      }
      SplitHead(sql);
    }
  }

  /** One more character: a new empty piece for the separator, else a longer first piece. */
  lemma SplitHead(sql: string)
    requires sql != ""
    ensures Qmarks(sql) == Qmarks(sql[1..]) + (if sql[0] == '?' then 1 else 0)
    ensures Length(Split(sql, '?')) == Length(Split(sql[1..], '?')) + (if sql[0] == '?' then 0 else 1)
  {
    var rest := Split(sql[1..], '?');
    if sql[0] == '?' {
      assert ([""] + rest)[1..] == rest;
    } else {
      assert ([[sql[0]] + rest[0]] + rest[1..])[1..] == rest[1..];
    }
  }

  lemma {:induction false} PiecesKept(sql: string)
    requires '%' !in sql
    ensures Driver(ReplaceQmark(sql)) == Some(Split(sql, '?'))
  {
    if sql == "" {
      assert ReplaceQmark("") == "";
    } else {
      var out, rest := ReplaceQmark(sql), ReplaceQmark(sql[1..]);
      PiecesKept(sql[1..]);
      ReplaceStep(sql);
      if sql[0] == '?' {
        assert out[2..] == rest;
      } else {
        assert sql[0] in sql && out[1..] == rest;
      }
    }
  }

  /** The k-th `?` becomes the k-th placeholder, with the text between them unchanged, exactly
      when the text has no percent sign of its own: a `%s`, an escape, a modulo operator and a
      wildcard all break it. */
  lemma AlignedIff(sql: string)
    ensures Driver(ReplaceQmark(sql)) == Some(Split(sql, '?')) <==> '%' !in sql
  {
    if Driver(ReplaceQmark(sql)) == Some(Split(sql, '?')) {
      DriverCounts(ReplaceQmark(sql));
      ReplaceCounts(sql);
      NoPercents(sql);
    } else if '%' !in sql {
      PiecesKept(sql);
    }
  }

  /** A text the driver could read before keeps its own placeholders and gains one per `?`. */
  lemma {:induction false} PlaceholdersCount(sql: string)
    requires Driver(sql).Some?
    ensures Driver(ReplaceQmark(sql)).Some?
    ensures |Driver(ReplaceQmark(sql)).value| - 1 == Qmarks(sql) + |Driver(sql).value| - 1
    decreases |sql|
  {
    if sql == "" {
      assert ReplaceQmark("") == "";
    } else {
      var out := ReplaceQmark(sql);
      ReplaceStep(sql);
      if sql[0] != '%' {
        PlaceholdersCount(sql[1..]);
        SplitHead(sql);
        assert sql[0] == '?' ==> out[2..] == ReplaceQmark(sql[1..]);
        assert sql[0] != '?' ==> out[1..] == ReplaceQmark(sql[1..]);
      } else {
        PlaceholdersCount(sql[2..]);
        ReplaceStep(sql[1..]);
        SplitHead(sql);
        SplitHead(sql[1..]);
        assert sql[1..][1..] == sql[2..] && sql[1..][0] == sql[1];
        assert out == [sql[0], sql[1]] + ReplaceQmark(sql[2..]);
        assert out[2..] == ReplaceQmark(sql[2..]);
      }
    }
  }

  /** The modulo operator in front of a parameter is read as an escape: no placeholder is left. */
  lemma ModuloSwallowsTheParameter()
    ensures ReplaceQmark("%?") == "%%s" && Driver("%%s") == Some(["%s"]) && Qmarks("%?") == 1
  {
    assert "%?"[1..] == "?" && "?"[1..] == "" && ReplaceQmark("") == "";
    ReplaceStep("%?");
    ReplaceStep("?");
    var left := "s";
    assert "%%s"[2..] == left && left[1..] == "" && Driver("") == Some([""]);
    assert Driver(left) == Some([[left[0]] + ""] + []) && [left[0]] + "" == left;
    var parts := Driver("%%s");
    assert parts == Prefix("%", Driver(left)) && "%" + left == "%s";
    assert parts.value == ["%s"];
    SplitHead("%?");
    SplitHead("?");
  }
}
