/**
 * `MySQLDatabaseManager`: one connection, and the statements it sends
 * through it. The driver is not modelled; what the manager asks of it is
 * recorded in `log`, and whether a driver call raises is an input.
 */
module Database {
  import opened Wrappers
  import opened Sql

  /** A loaded table: the header columns and the rows, each value as its text. */
  datatype Frame = Frame(columns: seq<string>, rows: seq<seq<string>>)

  /** A call the manager makes on the driver. */
  datatype Op =
    | Execute(sql: string, params: seq<string>)
    | Commit
    | CloseConnection

  /**
   * The `connection` field: `None` after a failed connect (NoConnection), a
   * live connection (Open), or a connection that `close` has closed (Closed).
   */
  datatype ConnectionState = NoConnection | Open | Closed

  /** The failures the manager logs and swallows. */
  datatype DbError = ConnectFailed | CreateFailed(table: string) | InsertFailed(table: string)

  /** One `execute(insert_query, tuple(row))` per row, in row order. */
  function RowInserts(query: string, rows: seq<seq<string>>): (ops: seq<Op>)
  {
    seq(|rows|, i requires 0 <= i < |rows| => Execute(query, rows[i]))
  }

  /**
   * Whether a driver call of `insert_data` raises. `fault` is the position of
   * the failing call among the row inserts followed by the commit: `k < |rows|`
   * is the insert of row `k`, `k == |rows|` the commit; None or a larger
   * position means that every call succeeds.
   */
  predicate InsertRaises(data: Frame, fault: Option<nat>)
  {
    fault.Some? && fault.value <= |data.rows|
  }

  /** What `insert_data` sends over a live connection. */
  function InsertOps(table: string, data: Frame, fault: Option<nat>): (ops: seq<Op>)
  {
    var query := InsertQuery(table, |data.columns|);
    if fault.Some? && fault.value < |data.rows| then RowInserts(query, data.rows[..fault.value + 1])
    else RowInserts(query, data.rows) + [Commit]
  }

  /** What `create_table` sends over a live connection. */
  function CreateOps(table: string, columns: string): (ops: seq<Op>)
  {
    [Execute(CreateTableQuery(table, columns), [])]
  }

  /** `close` acts only on a live connection. */
  function AfterClose(state: ConnectionState): (next: ConnectionState)
  {
    if state == Open then Closed else state
  }

  function CloseOps(state: ConnectionState): (ops: seq<Op>)
  {
    if state == Open then [CloseConnection] else []
  }

  /**
   * When no row insert raises, `insert_data` executes the insert query once
   * per row, in row order with that row's values, and then sends the commit
   * once. This holds also when the commit itself raises (`fault` is
   * `|rows|`): every row has been sent by then.
   */
  lemma InsertAllRows(table: string, data: Frame, fault: Option<nat>)
    requires fault.None? || fault.value >= |data.rows|
    ensures var ops := InsertOps(table, data, fault);
      && |ops| == |data.rows| + 1
      && ops[|data.rows|] == Commit
      && forall i :: 0 <= i < |data.rows| ==> ops[i] == Execute(InsertQuery(table, |data.columns|), data.rows[i])
  {
  }

  /**
   * When the insert of row `k` raises, rows `0..k` have been sent (the
   * failing one included), later rows are not, and `insert_data` issues no
   * commit.
   */
  lemma InsertStopsAtFailingRow(table: string, data: Frame, k: nat)
    requires k < |data.rows|
    ensures var ops := InsertOps(table, data, Some(k));
      && |ops| == k + 1
      && Commit !in ops
      && forall i :: 0 <= i <= k ==> ops[i] == Execute(InsertQuery(table, |data.columns|), data.rows[i])
  {
  }

  /**
   * Every statement `insert_data` executes is the insert query of its table,
   * with one marker per column; a commit, if any, is the last call and is
   * sent only after every row has been sent without error.
   */
  lemma InsertOpsTargetTable(table: string, data: Frame, fault: Option<nat>)
    ensures var ops := InsertOps(table, data, fault);
      && |ops| > 0
      && (forall i :: 0 <= i < |ops| && ops[i].Execute? ==> ops[i].sql == InsertQuery(table, |data.columns|))
      && (forall i :: 0 <= i < |ops| && ops[i] == Commit ==> i == |ops| - 1 && (fault.None? || fault.value >= |data.rows|))
  {
  }

  /**
   * Those statements read back: each parses as an insert into `table` with
   * one `%s` per column.
   */
  lemma InsertOpsReadBack(table: string, data: Frame, fault: Option<nat>)
    requires '(' !in table
    ensures var ops := InsertOps(table, data, fault);
      forall i :: 0 <= i < |ops| && ops[i].Execute? ==> ParseInsertQuery(ops[i].sql) == Some((table, |data.columns|))
  {
    InsertOpsTargetTable(table, data, fault);
    InsertQueryNamesTable(table, |data.columns|);
  }

  /** Closing twice is closing once: the second call changes nothing and sends nothing. */
  lemma CloseIdempotent(state: ConnectionState)
    ensures AfterClose(AfterClose(state)) == AfterClose(state)
    ensures CloseOps(AfterClose(state)) == []
    ensures AfterClose(state) != Open
  {
  }

  class DatabaseManager {
    /** Which of the three states `self.connection` is in. */
    var state: ConnectionState
    /** The calls made on the driver, oldest first. */
    var log: seq<Op>
    /** What the manager has logged as an error, oldest first. */
    ghost var errors: seq<DbError>

    /**
     * `__init__`: `connects` is whether `mysql.connector.connect` succeeds;
     * on failure the manager keeps no connection instead of raising.
     */
    constructor (connects: bool)
      ensures state == (if connects then Open else NoConnection)
      ensures log == []
      ensures errors == (if connects then [] else [ConnectFailed])
    {
      state := if connects then Open else NoConnection;
      log := [];
      errors := if connects then [] else [ConnectFailed];
    }

    /**
     * `create_table`: executes `CREATE TABLE IF NOT EXISTS`. A driver error
     * (`fails`, or a closed connection, whose `cursor()` raises) is logged
     * and swallowed. Without any connection the source raises outside its
     * handler, so callers must check first.
     */
    method CreateTable(table: string, columns: string, fails: bool)
      requires state != NoConnection
      modifies this
      ensures state == old(state)
      ensures log == old(log) + (if old(state) == Open then CreateOps(table, columns) else [])
      ensures errors == old(errors) + (if old(state) == Closed || fails then [CreateFailed(table)] else [])
    {
      if state == Closed {
        errors := errors + [CreateFailed(table)];
        return;
      }
      var query := CreateTableQuery(table, columns);
      log := log + [Execute(query, [])];
      if fails {
        errors := errors + [CreateFailed(table)];
      }
    }

    /**
     * `insert_data`: executes the insert query once per row, in row order,
     * then commits once. The first driver call that raises ends the insert;
     * the error is logged and swallowed.
     */
    method InsertData(table: string, data: Frame, fault: Option<nat>)
      requires state != NoConnection
      modifies this
      ensures state == old(state)
      ensures log == old(log) + (if old(state) == Open then InsertOps(table, data, fault) else [])
      ensures errors == old(errors) + (if old(state) == Closed || InsertRaises(data, fault) then [InsertFailed(table)] else [])
    {
      if state == Closed {
        errors := errors + [InsertFailed(table)];
        return;
      }
      var query := InsertQuery(table, |data.columns|);
      var i := 0;
      var raised := false;
      while i < |data.rows| && !raised
        invariant 0 <= i <= |data.rows|
        invariant raised ==> 1 <= i && fault == Some(i - 1)
        invariant !raised ==> fault.None? || fault.value >= i
        invariant log == old(log) + RowInserts(query, data.rows[..i])
        invariant state == old(state) && errors == old(errors)
      {
        assert RowInserts(query, data.rows[..i + 1]) == RowInserts(query, data.rows[..i]) + [Execute(query, data.rows[i])];
        log := log + [Execute(query, data.rows[i])];
        raised := fault == Some(i);
        i := i + 1;
      }
      if !raised {
        assert data.rows[..i] == data.rows;
        log := log + [Commit];
        raised := fault == Some(|data.rows|);
      }
      if raised {
        errors := errors + [InsertFailed(table)];
      }
    }

    /** `close`: closes a live connection; otherwise does nothing. */
    method Close()
      modifies this
      ensures state == AfterClose(old(state))
      ensures log == old(log) + CloseOps(old(state))
      ensures errors == old(errors)
    {
      if state == Open {
        log := log + [CloseConnection];
        state := Closed;
      }
    }
  }
}
