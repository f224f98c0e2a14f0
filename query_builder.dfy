/** The fluent query builder `Database`: a mutable `{table, conditions}`
    record that `from`, `where` and `find` update in place, and `buildQuery`,
    which compiles it into SQL text. The worker round trip behind `find` is
    not modelled: the reply that the execution service sends back is a
    parameter of `Find`.
 */
module QueryBuilder {
  import opened QuerySql

  /** A result row: column name to value. */
  type Row = map<string, string>

  /** The `{success, data}` body of a `response` message. `rows` is `None`
      when the service left `data` undefined (its query failed). */
  datatype Reply = Reply(success: bool, rows: Option<seq<Row>>)

  /** What `find` resolves to: `{result, data}`, with `data` absent when no row came back. */
  datatype FindResult = FindResult(result: bool, data: Option<Row>)

  datatype FindError =
    | TableNotSpecified  // thrown before anything is sent
    | RowsUndefined      // TypeError from reading `data[0]` of an undefined `data`

  datatype Outcome = Ok(found: FindResult) | Err(error: FindError)

  /** JS truthiness of the table name: null and the empty string are falsy. */
  predicate TableSet(table: Option<string>)
  {
    table.Some? && table.value != ""
  }

  /** The condition that `find(id)` installs. */
  function IdEquals(id: string): Condition
  {
    Condition("id", "=", id)
  }

  /** Shapes the service's reply into `{result: success, data: data[0]}`. */
  function ShapeFindResult(reply: Reply): Outcome
  {
    match reply.rows
    case None => Err(RowsUndefined)
    case Some(rows) => Ok(FindResult(reply.success, if rows == [] then None else Some(rows[0])))
  }

  class Database {
    var table: Option<string>
    var conditions: seq<Condition>

    /** A fresh builder: no table, no conditions. */
    constructor ()
      ensures table == None && conditions == []
    {
      table := None;
      conditions := [];
    }

    /** Starts a new read query on `tableName`, discarding earlier conditions. */
    method From(tableName: string) returns (self: Database)
      modifies this
      ensures self == this
      ensures table == Some(tableName)
      ensures conditions == []
    {
      conditions := [];
      table := Some(tableName);
      self := this;
    }

    /** Appends one condition after the existing ones. */
    method Where(column: string, operator: string, value: string) returns (self: Database)
      modifies this
      ensures self == this
      ensures table == old(table)
      ensures conditions == old(conditions) + [Condition(column, operator, value)]
    {
      conditions := conditions + [Condition(column, operator, value)];
      self := this;
    }

    /** Looks up the row whose `id` is `id`. Fails with `TableNotSpecified`,
        sending nothing and changing nothing, when no table is set; otherwise
        replaces the conditions by `id = <id>`, sends the compiled query
        (`sent`) and shapes `reply`, the service's answer to it. */
    method Find(id: string, reply: Reply) returns (r: Outcome, sent: Option<string>)
      modifies this
      ensures table == old(table)
      ensures !TableSet(old(table)) ==>
        r == Err(TableNotSpecified) && sent == None && conditions == old(conditions)
      ensures TableSet(old(table)) ==>
        conditions == [IdEquals(id)] &&
        sent == Some(Render(table.value, conditions))
      ensures TableSet(old(table)) ==>
        (r.Err? <==> reply.rows.None?) &&
        (r.Err? ==> r.error == RowsUndefined)
      ensures TableSet(old(table)) && r.Ok? ==>
        r.found.result == reply.success &&
        (r.found.data.Some? <==> reply.rows.value != []) &&
        (r.found.data.Some? ==> r.found.data.value == reply.rows.value[0])
    {
      if !TableSet(table) {
        return Err(TableNotSpecified), None;
      }
      conditions := [IdEquals(id)];
      var sql := BuildQuery();
      sent := Some(sql);
      r := ShapeFindResult(reply);
    }

    /** Compiles the state into SQL: each condition followed by ` AND `,
        then the trailing ` AND ` sliced off. Reads the state only. */
    method BuildQuery() returns (sql: string)
      ensures sql == Render(TableText(table), conditions)
    {
      var conds := conditions;
      var t := TableText(table);
      sql := SelectPrefix + t;
      if |conds| > 0 {
        sql := sql + WhereKeyword;
        ghost var head := sql;
        var i := 0;
        while i < |conds|
          invariant 0 <= i <= |conds|
          invariant sql == head + Terminated(conds[..i])
        {
          var clause := RenderCondition(conds[i]) + AndSeparator;
          TerminatedStep(head, conds, i);
          sql := sql + clause;
          i := i + 1;
        }
        assert conds[..i] == conds;
        SliceOffTrailingSeparator(t, conds);
        sql := JsSliceDropTail(sql, 5);
      }
    }
  }

  /** A fresh builder (no `from`, no `where`) compiles its `null` table
      into the query text as `null`. */
  method NullTableQuery() returns (sql: string)
    ensures sql == "SELECT * FROM null"
  {
    var db := new Database();
    sql := db.BuildQuery();
  }

  /** The query that `find(id)` sends once the conditions are overwritten. */
  lemma FindQueryText(table: string, id: string)
    ensures Render(table, [IdEquals(id)]) == SelectPrefix + table + " WHERE id = '" + id + "'"
  {
  }
}
