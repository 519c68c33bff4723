/**
 * The database as the query code sees it: SQL text with bound parameters
 * goes in; a single row or nothing, a list of rows, or the id of an inserted
 * row comes out, or a driver error. What the engine answers is not modelled:
 * a connection is given its answers as functions of the query, and it keeps
 * a log of every call made, so that what was asked, in what order, and what
 * was not asked can be stated.
 */
module Db {
  import opened Js

  /** A value as the SQLite driver hands it back. */
  datatype SqlValue = SqlNull | SqlInteger(i: int) | SqlText(t: string) | SqlBlob(handle: nat)

  function ToJs(v: SqlValue): JsValue
  {
    match v
    case SqlNull => Null
    case SqlInteger(i) => Num(i)
    case SqlText(t) => Str(t)
    case SqlBlob(h) => Blob(h)
  }

  /** A result row: only the selected columns are keys. */
  type Row = map<string, SqlValue>

  /** `row.name` in JavaScript: a column that was not selected reads as undefined. */
  function Property(row: Row, name: string): (v: JsValue)
    ensures v == Undefined <==> name !in row
  {
    if name in row then ToJs(row[name]) else Undefined
  }

  datatype Query = Query(sql: string, params: seq<JsValue>)

  /** One call on the connection: a single-row read, a many-row read, or a write. */
  datatype Call = Get(q: Query) | All(q: Query) | Run(q: Query)

  class Connection {
    /** The engine's answer to a single-row read; "no row" is `Success(None)`. */
    const onGet: Query -> Result<Option<Row>>
    /** The engine's answer to a many-row read, in the order the engine returns the rows. */
    const onAll: Query -> Result<seq<Row>>
    /** The engine's answer to a write: the id of the last inserted row. */
    const onRun: Query -> Result<int>
    /** Every call made on this connection, oldest first. */
    var calls: seq<Call>

    constructor (onGet: Query -> Result<Option<Row>>, onAll: Query -> Result<seq<Row>>, onRun: Query -> Result<int>)
      ensures this.onGet == onGet && this.onAll == onAll && this.onRun == onRun
      ensures calls == []
    {
      this.onGet := onGet;
      this.onAll := onAll;
      this.onRun := onRun;
      calls := [];
    }

    /** Resolves with the single matching row, with `None` when no row matched, or fails with the driver's error. */
    method WrapGetQuery(q: Query) returns (r: Result<Option<Row>>)
      modifies this
      ensures calls == old(calls) + [Get(q)]
      ensures r == onGet(q)
    {
      calls := calls + [Get(q)];
      r := onGet(q);
    }

    /** Resolves with the matching rows, possibly none, or fails with the driver's error. */
    method WrapAllQuery(q: Query) returns (r: Result<seq<Row>>)
      modifies this
      ensures calls == old(calls) + [All(q)]
      ensures r == onAll(q)
    {
      calls := calls + [All(q)];
      r := onAll(q);
    }

    /** Runs a write and resolves with the id of the last inserted row, or fails with the driver's error. */
    method WrapRunQuery(q: Query) returns (r: Result<int>)
      modifies this
      ensures calls == old(calls) + [Run(q)]
      ensures r == onRun(q)
    {
      calls := calls + [Run(q)];
      r := onRun(q);
    }
  }
}
