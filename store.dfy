/**
 * The store capability that replaces `DatabaseUtils` and the psycopg2
 * connection: a connection to a `Server` that records, in order, every event of
 * the session and raises on the statement the server was told to refuse.
 */
module Store {
  import opened Wrappers
  import opened Catalog
  import opened Plan

  class Connection {
    const server: Server
    /** Everything the session did, in order. */
    var trace: seq<Event>
    /** The number of statements sent so far. */
    var executed: nat
    /** The number of primary-key catalog queries asked so far. */
    var pkQueries: nat

    /** `DatabaseUtils.get_connection`, when the server accepts the connection. */
    constructor Open(server: Server)
      requires server.accepts
      ensures this.server == server
      ensures trace == [Opened] && executed == 0 && pkQueries == 0
    {
      this.server := server;
      trace := [Opened];
      executed := 0;
      pkQueries := 0;
    }

    /** `_get_primary_keys`: the first answer, then the later one on every re-query. */
    method SelectPrimaryKeys() returns (rows: Option<seq<PkRow>>)
      modifies this
      ensures rows == if old(pkQueries) == 0 then server.primaryKeys else server.primaryKeysLater
      ensures trace == old(trace) + [QueriedPrimaryKeys]
      ensures pkQueries == old(pkQueries) + 1 && executed == old(executed)
    {
      rows := if pkQueries == 0 then server.primaryKeys else server.primaryKeysLater;
      trace := trace + [QueriedPrimaryKeys];
      pkQueries := pkQueries + 1;
    }

    /** `_get_foreign_keys`. */
    method SelectForeignKeys() returns (rows: Option<seq<FkRow>>)
      modifies this
      ensures rows == server.foreignKeys
      ensures trace == old(trace) + [QueriedForeignKeys]
      ensures pkQueries == old(pkQueries) && executed == old(executed)
    {
      rows := server.foreignKeys;
      trace := trace + [QueriedForeignKeys];
    }

    /** `DatabaseUtils.execute`: sends one statement; false when the store raised on it. */
    method Execute(sql: string) returns (ok: bool)
      modifies this
      ensures ok == (server.failingStatement != Some(old(executed)))
      ensures trace == old(trace) + [Executed(sql)]
      ensures executed == old(executed) + 1 && pkQueries == old(pkQueries)
    {
      ok := server.failingStatement != Some(executed);
      trace := trace + [Executed(sql)];
      executed := executed + 1;
    }

    /** Records a session event that sends nothing to the server (hooks, commit, rollback, close). */
    method Record(e: Event)
      requires !e.Executed?
      modifies this
      ensures trace == old(trace) + [e]
      ensures executed == old(executed) && pkQueries == old(pkQueries)
    {
      trace := trace + [e];
    }
  }

  /** Since `trace0`, the connection has done what report `r` says, and ended with `outcome`. */
  ghost predicate Did(conn: Connection, trace0: seq<Event>, r: Report, outcome: Outcome<Error>)
    reads conn
  {
    conn.trace == trace0 + r.events && conn.executed == r.executed && outcome == r.outcome
  }
}
