# Query builder of the SQLite OPFS sample, in Dafny

This project models the fluent query builder of the `Database` class in
`main.js`: a mutable record `{table, conditions}` that `from`, `where` and
`find` update in place, and `buildQuery`, which compiles that record into
the SQL text sent to the SQLite worker.

- `query_sql.dfy`, module `QuerySql`: the SQL text as a specification.
  `Render(table, conds)` is `SELECT * FROM <table>`, followed, when there are
  conditions, by ` WHERE ` and the conditions joined by ` AND `, each written
  `<column> <operator> '<value>'` with the value inlined verbatim (no
  escaping). Lemmas prove that the builder's loop, which appends
  `<condition> AND ` per condition and then removes the last five characters
  with `slice(0, -5)`, yields exactly this join; that `where` extends the
  compiled query by one clause; and that, because values are not escaped,
  two different condition lists can compile to the same query.
- `query_builder.dfy`, module `QueryBuilder`: class `Database` with fields
  `table: Option<string>` (`None` is JS `null`) and `conditions:
  seq<Condition>`; methods `From`, `Where`, `Find` change the fields,
  `BuildQuery` only reads them and is proved against `Render`. The reply of
  the SQLite worker to `find`'s query is a parameter of `Find`; `Find` also
  returns the SQL it sends.

## Model

| member | source | states |
|---|---|---|
| `QueryBuilder.Database.constructor` | main.js:2-6 | a new builder has no table (`null`) and no conditions |
| `QueryBuilder.Database.From` | main.js:42-46 | sets the table, empties the conditions whatever they held, and returns the same builder |
| `QueryBuilder.Database.Where` | main.js:48-51 | appends exactly one `{column, operator, value}` after the existing conditions, keeps the table, returns the same builder |
| `QueryBuilder.Database.Find` | main.js:59-71 | with a falsy table (null or empty) fails with "table not specified", sends nothing and changes nothing; otherwise the conditions become exactly `[id = <id>]`, the query sent is `Render` of the table and that one condition, and the result is `{result, data}` with `result` the reply's `success` and `data` its first row, absent when no row came back; a reply whose `data` is undefined fails as reading row 0 of it does |
| `QueryBuilder.Database.BuildQuery` | main.js:73-86 | the text the loop and `slice(0, -5)` build equals `Render` of the current table text and conditions; the method changes no field |
| `QueryBuilder.NullTableQuery` | main.js:74 | a fresh builder (no `from`, no `where`) compiles to `SELECT * FROM null` |
| `QuerySql.Render` | main.js:73-86 | the query always starts with `SELECT * FROM <table>`, and is exactly that when there are no conditions |
| `QuerySql.RenderAll` | main.js:78-80 | one rendered text per condition, in insertion order |
| `QuerySql.RenderAllSnoc` | main.js:78-80 | rendering one more condition appends its text at the end |
| `QuerySql.JsSliceDropTail` | main.js:82 | `slice(0, -n)` keeps all but the last `n` characters, and gives the empty string for a shorter text |
| `QuerySql.JoinSnoc` | main.js:77-82 | joining one more part adds one separator and that part at the end |
| `QuerySql.TerminatedStep` | main.js:78-80 | one loop turn appends `<condition> AND ` to the accumulated text |
| `QuerySql.DropTrailingSeparator` | main.js:81-82 | `slice(0, -5)` removes exactly a trailing ` AND ` |
| `QuerySql.SliceOffTrailingSeparator` | main.js:76-82 | for one or more conditions, select, ` WHERE `, the loop's text and `slice(0, -5)` together equal `Render`: the select, ` WHERE ` and the ` AND `-join of the conditions |
| `QuerySql.WhereExtendsQuery` | main.js:76-82 | after one more `where`, the compiled query is the old one followed by ` WHERE <cond>` (first condition) or ` AND <cond>` |
| `QueryBuilder.FindQueryText` | main.js:64-66 | `find(id)` on table `t` compiles to `SELECT * FROM t WHERE id = '<id>'` |
| `QuerySql.UnescapedValueMergesConditions` | main.js:79 | because values are inlined unescaped, a single condition whose value carries `' AND <col> <op> '<v>` compiles to the same query as two separate conditions |

## Left out

- The Web Worker bridge (`sendToWorker`, `initialize`, `execute`, `get`): asynchronous message passing and event listeners; `find`'s reply from the worker is an input of `Find` instead.
- The constructor's worker creation and browser feature check, and the top-level demo script: host bootstrapping.
- `sqlite-worker.js`: the SQLite engine adapter, storage backend selection, seed data and message dispatch; it is not part of this model.
- Values of any JS type and their template-literal stringification: columns, operators, values, ids, table names and the values in result rows are strings here (SQLite also returns numbers and nulls, which `find` passes through unread). A table name that is some other falsy JS value (`undefined`, `0`, `false`) is covered only through `null` and the empty string.
- Concurrency between overlapping builder chains on one instance: each method runs to completion here.
- Exactly one `WHERE` in the compiled query is not claimed: unescaped values may themselves contain ` WHERE `, so the text alone cannot promise it.
