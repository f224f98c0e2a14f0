/** The SQL text that the query builder of `Database` compiles its state into.

    A read query is `SELECT * FROM <table>`, followed, when there are
    conditions, by ` WHERE ` and the conditions in insertion order, each
    rendered as `<column> <operator> '<value>'` and joined by ` AND `.
    Values are inlined between single quotes WITHOUT any escaping; the lemma
    `UnescapedValueMergesConditions` shows what that allows.
 */
module QuerySql {

  datatype Option<+T> = None | Some(value: T)

  /** One `{column, operator, value}` record pushed by `where`. Neither the
      operator nor the value is checked or sanitised. */
  datatype Condition = Condition(column: string, operator: string, value: string)

  const SelectPrefix: string := "SELECT * FROM "
  const WhereKeyword: string := " WHERE "
  const AndSeparator: string := " AND "

  /** What the template literal `${table}` produces: JS writes a null table as `null`. */
  function TableText(table: Option<string>): string
  {
    match table
    case None => "null"
    case Some(t) => t
  }

  /** A condition as the builder inlines it: `<column> <operator> '<value>'`. */
  function RenderCondition(c: Condition): string
  {
    c.column + " " + c.operator + " '" + c.value + "'"
  }

  /** Every condition rendered, in insertion order. */
  function RenderAll(conds: seq<Condition>): (r: seq<string>)
    ensures |r| == |conds|
    ensures forall i :: 0 <= i < |conds| ==> r[i] == RenderCondition(conds[i])
  {
    if conds == [] then [] else [RenderCondition(conds[0])] + RenderAll(conds[1..])
  }

  /** `parts` separated by `sep`, with no separator before the first part
      or after the last one. */
  function Join(sep: string, parts: seq<string>): (r: string)
  {
    if |parts| == 0 then ""
    else if |parts| == 1 then parts[0]
    else parts[0] + sep + Join(sep, parts[1..])
  }

  /** The query text for `table` and `conds`: the specification that
      `Database.BuildQuery` meets. */
  function Render(table: string, conds: seq<Condition>): (r: string)
    ensures SelectPrefix + table <= r
    ensures conds == [] <==> r == SelectPrefix + table
  {
    SelectPrefix + table +
      (if conds == [] then "" else WhereKeyword + Join(AndSeparator, RenderAll(conds)))
  }

  /** JS `s.slice(0, -n)` for n > 0: everything but the last n characters,
      and the empty string when `s` is shorter than that. */
  function JsSliceDropTail(s: string, n: nat): (r: string)
    requires n > 0
    ensures |s| >= n ==> s == r + s[|s| - n..]
    ensures |s| < n ==> r == ""
  {
    if |s| >= n then s[..|s| - n] else ""
  }

  /** Appending one more part to a join adds one separator and that part:
      the left-to-right view that a loop builds on. */
  lemma {:induction false} JoinSnoc(sep: string, parts: seq<string>, p: string)
    requires parts != []
    ensures Join(sep, parts + [p]) == Join(sep, parts) + sep + p
  {
    if |parts| == 1 {
      assert parts + [p] == [parts[0], p];
      assert [parts[0], p][1..] == [p];
    } else {
      assert (parts + [p])[1..] == parts[1..] + [p];
      JoinSnoc(sep, parts[1..], p);
    }
  }

  /** Rendering a prefix of the conditions and then one more condition. */
  lemma RenderAllSnoc(conds: seq<Condition>, c: Condition)
    ensures RenderAll(conds + [c]) == RenderAll(conds) + [RenderCondition(c)]
  {
  }

  /** The rendered conditions, each followed by ` AND `: what the
      builder's loop has accumulated after visiting `conds`. */
  function Terminated(conds: seq<Condition>): string
  {
    if conds == [] then "" else Join(AndSeparator, RenderAll(conds)) + AndSeparator
  }

  /** One turn of the builder's loop appends the next condition and a
      separator to what precedes it (`head`: the select and ` WHERE `). */
  lemma TerminatedStep(head: string, conds: seq<Condition>, i: nat)
    requires i < |conds|
    ensures head + Terminated(conds[..i + 1]) == head + Terminated(conds[..i]) + (RenderCondition(conds[i]) + AndSeparator)
  {
    var c, prev := conds[i], conds[..i];
    assert conds[..i + 1] == prev + [c];
    RenderAllSnoc(prev, c);
    var t := Terminated(prev + [c]);
    if i > 0 {
      JoinSnoc(AndSeparator, RenderAll(prev), RenderCondition(c));
      assert t == Join(AndSeparator, RenderAll(prev)) + AndSeparator + RenderCondition(c) + AndSeparator;
    } else {
      assert RenderAll([c]) == [RenderCondition(c)];
      assert t == RenderCondition(c) + AndSeparator;
    }
    assert t == Terminated(prev) + (RenderCondition(c) + AndSeparator);
  }

  /** Removing the trailing separator that the builder's loop leaves behind. */
  lemma DropTrailingSeparator(body: string)
    ensures JsSliceDropTail(body + AndSeparator, |AndSeparator|) == body
  {
    assert (body + AndSeparator)[..|body|] == body;
  }

  /** The builder's loop followed by `slice(0, -5)` yields exactly the
      query `Render` specifies: the select, ` WHERE ` and the conditions
      joined by ` AND `. */
  lemma SliceOffTrailingSeparator(table: string, conds: seq<Condition>)
    requires conds != []
    ensures JsSliceDropTail(SelectPrefix + table + WhereKeyword + Terminated(conds), |AndSeparator|)
      == Render(table, conds)
  {
    var body := Join(AndSeparator, RenderAll(conds));
    assert SelectPrefix + table + WhereKeyword + Terminated(conds)
      == (SelectPrefix + table + (WhereKeyword + body)) + AndSeparator;
    DropTrailingSeparator(SelectPrefix + table + (WhereKeyword + body));
  }

  /** `where` on a builder extends the SQL it compiles to by exactly one
      clause: ` WHERE <cond>` for the first condition, ` AND <cond>` after. */
  lemma WhereExtendsQuery(table: string, conds: seq<Condition>, c: Condition)
    ensures Render(table, conds + [c]) ==
      Render(table, conds) + (if conds == [] then WhereKeyword else AndSeparator) + RenderCondition(c)
  {
    RenderAllSnoc(conds, c);
    if conds == [] {
      assert [] + [c] == [c];
    } else {
      JoinSnoc(AndSeparator, RenderAll(conds), RenderCondition(c));
    }
  }

  /** Values are inlined without escaping: a value holding a quote and
      ` AND ` yields the same SQL as two separate conditions, so distinct
      builder states compile to one and the same query. */
  lemma UnescapedValueMergesConditions(table: string, c1: Condition, c2: Condition)
    ensures [Condition(c1.column, c1.operator, c1.value + "' AND " + RenderCondition(c2)[..|RenderCondition(c2)| - 1])]
      != [c1, c2]
    ensures Render(table, [Condition(c1.column, c1.operator, c1.value + "' AND " + RenderCondition(c2)[..|RenderCondition(c2)| - 1])])
      == Render(table, [c1, c2])
  {
    var r2 := RenderCondition(c2);
    var merged := Condition(c1.column, c1.operator, c1.value + "' AND " + r2[..|r2| - 1]);
    assert r2 == r2[..|r2| - 1] + "'";
    assert RenderCondition(merged) == RenderCondition(c1) + AndSeparator + r2;
    assert RenderAll([c1, c2]) == [RenderCondition(c1), r2];
    assert Join(AndSeparator, [RenderCondition(c1), r2]) == RenderCondition(c1) + AndSeparator + r2;
  }
}
