/** The exit paths of the query functions: what each leaves of the pool and of its statement. */
module DbManagers {
  import opened Bytes
  import opened ConnectionPool

  /** What mysql_stmt_fetch reports; a truncated row counts as a row. */
  datatype Fetch<T> = Fetched(row: T) | Truncated(row: T) | NoData | FetchError

  predicate HasRow<T>(f: Fetch<T>) {
    f.Fetched? || f.Truncated?
  }

  /** The rows up to the first fetch that has none. */
  function RowsOf<T>(fetches: seq<Fetch<T>>): seq<T> {
    if fetches == [] || !HasRow(fetches[0]) then [] else [fetches[0].row] + RowsOf(fetches[1..])
  }

  /** The rows of the fetches before the first that is at the end or fails, or of all of them. */
  predicate FetchedUpToTheFirstWithout<T(==)>(fetches: seq<Fetch<T>>, rows: seq<T>) {
    && |rows| <= |fetches|
    && (forall i | 0 <= i < |rows| :: fetches[i] == Fetched(rows[i]) || fetches[i] == Truncated(rows[i]))
    && (|rows| < |fetches| ==> fetches[|rows|].NoData? || fetches[|rows|].FetchError?)
  }

  lemma {:induction false} RowsAreThose<T>(fetches: seq<Fetch<T>>)
    ensures FetchedUpToTheFirstWithout(fetches, RowsOf(fetches))
  {
    if fetches != [] && HasRow(fetches[0]) {
      RowsAreThose(fetches[1..]);
      var rows := RowsOf(fetches);
      forall i | 0 <= i < |rows|
        ensures fetches[i] == Fetched(rows[i]) || fetches[i] == Truncated(rows[i])
      {
        if i > 0 {
          assert rows[i] == RowsOf(fetches[1..])[i - 1] && fetches[i] == fetches[1..][i - 1];
        }
      }
    }
  }

  /** The single caller of a run. */
  const ME: CallerId := 0

  lemma CallStep(s: State)
    requires s.callers == map[]
    ensures Next(s, Call(ME)) == Some(s.(callers := map[ME := Wanting]))
  {
  }

  lemma TakeStep(s: State)
    requires s.callers == map[ME := Wanting] && s.pool != []
    ensures Next(s, Take(ME))
         == Some(s.(callers := map[ME := Has(s.pool[|s.pool| - 1])], pool := s.pool[..|s.pool| - 1]))
  {
    assert s.callers[ME := Has(s.pool[|s.pool| - 1])] == map[ME := Has(s.pool[|s.pool| - 1])];
  }

  lemma TimeOutStep(s: State)
    requires s.callers == map[ME := Wanting]
    ensures Next(s, TimeOut(ME)) == Some(s.(callers := map[]))
  {
  }

  class DbManager {
    var pool: seq<Connection>
    var open: set<Statement>
    ghost const all: seq<Connection>   // what Init made
    ghost var steps: seq<Step>         // the run of the pool that has led here

    /** Pool and open statements are those of a run of the pool machine in which `callers` are under way. */
    ghost predicate Shows(callers: map<CallerId, Pc>)
      reads this
    {
      && Exec(all, steps).Some?
      && Exec(all, steps).value.pool == pool
      && Exec(all, steps).value.open.Keys == open
      && Exec(all, steps).value.callers == callers
    }

    /** No query is under way. */
    ghost predicate Valid()
      reads this
    {
      Shows(map[])
    }

    constructor (pool: seq<Connection>)
      ensures Valid() && this.pool == all == pool && open == {}
    {
      this.pool, all := pool, pool;
      open, steps := {}, [];
    }

    /** The run goes on by one step. */
    ghost method Go(e: Step)
      requires Exec(all, steps).Some? && Next(Exec(all, steps).value, e).Some?
      modifies this`steps
      ensures Exec(all, steps) == Next(old(Exec(all, steps)).value, e) && old(steps) <= steps
    {
      ExecLast(all, steps, e);
      steps := steps + [e];
    }

    /** None is the five-second time-out of an empty pool. */
    method GetConnection() returns (conn: Option<Connection>)
      requires Valid()
      modifies this`pool, this`steps
      ensures old(steps) <= steps && Shows(if conn.Some? then map[ME := Has(conn.value)] else map[])
      ensures conn.None? <==> old(pool) == []
      ensures if conn.Some? then old(pool) == pool + [conn.value] else pool == old(pool)
    {
      CallStep(Exec(all, steps).value);
      Go(Call(ME));
      if pool == [] {
        TimeOutStep(Exec(all, steps).value);
        Go(TimeOut(ME));
        return None;
      }
      var last := TakeLast();
      return Some(last);
    }

    method TakeLast() returns (conn: Connection)
      requires Shows(map[ME := Wanting]) && pool != []
      modifies this`pool, this`steps
      ensures old(steps) <= steps && Shows(map[ME := Has(conn)]) && old(pool) == pool + [conn]
    {
      TakeStep(Exec(all, steps).value);
      Go(Take(ME));
      conn := pool[|pool| - 1];
      pool := pool[..|pool| - 1];
    }

    method ReturnConnection(conn: Connection)
      requires Shows(map[ME := Returning(conn)])
      modifies this`pool, this`steps
      ensures Valid() && pool == old(pool) + [conn] && old(steps) <= steps
    {
      Go(Return(ME));
      pool := pool + [conn];
    }

    /** `handle` is what mysql_stmt_init returns: a statement that is not open yet, or none. */
    method OpenStatement(conn: Connection, handle: Option<Statement>)
      requires Shows(map[ME := Has(conn)]) && (handle.Some? ==> handle.value !in open)
      modifies this`open, this`steps
      ensures Shows(map[ME := if handle.Some? then Prepared(conn, handle.value) else Returning(conn)])
      ensures old(steps) <= steps
      ensures open == if handle.Some? then old(open) + {handle.value} else old(open)
    {
      if handle.Some? {
        Go(ConnectionPool.OpenStatement(ME, true, handle.value));
        open := open + {handle.value};
      } else {
        Go(ConnectionPool.OpenStatement(ME, false, 0));
      }
    }

    method CloseStatement(conn: Connection, stmt: Statement)
      requires Shows(map[ME := Prepared(conn, stmt)])
      modifies this`open, this`steps
      ensures Shows(map[ME := Returning(conn)]) && open == old(open) - {stmt} && old(steps) <= steps
    {
      Go(ConnectionPool.CloseStatement(ME));
      open := open - {stmt};
    }

    /** InsertCharacter, UpdateCharacterStat, InsertInventory, InsertAuction and UpdateAuctionStatus. */
    method Execute(handle: Option<Statement>, prepareOk: bool, bindOk: bool, executeOk: bool) returns (ok: bool)
      requires Valid() && (handle.Some? ==> handle.value !in open)
      modifies this
      ensures Valid() && pool == old(pool) && open == old(open) && old(steps) <= steps
      ensures ok == (pool != [] && handle.Some? && prepareOk && bindOk && executeOk)
    {
      var conn := GetConnection();
      if conn.None? {
        return false;
      }
      OpenStatement(conn.value, handle);
      if handle.None? || !prepareOk {
        if handle.Some? {
          CloseStatement(conn.value, handle.value);
        }
        ReturnConnection(conn.value);
        return false;
      }
      ok := bindOk && executeOk;
      CloseStatement(conn.value, handle.value);
      ReturnConnection(conn.value);
    }

    /** SelectCharacter and SelectAuction. */
    method SelectOne<T>(handle: Option<Statement>, prepareOk: bool, executeOk: bool, storeOk: bool, fetch: Fetch<T>)
      returns (row: Option<T>)
      requires Valid() && (handle.Some? ==> handle.value !in open)
      modifies this
      ensures Valid() && pool == old(pool) && open == old(open) && old(steps) <= steps
      ensures row == if pool != [] && handle.Some? && prepareOk && executeOk && storeOk
                        && (fetch.Fetched? || fetch.Truncated?)
                     then Some(fetch.row) else None
    {
      var conn := GetConnection();
      if conn.None? {
        return None;
      }
      OpenStatement(conn.value, handle);
      if handle.None? || !prepareOk {
        if handle.Some? {
          CloseStatement(conn.value, handle.value);
        }
        ReturnConnection(conn.value);
        return None;
      }
      if !executeOk || !storeOk {
        CloseStatement(conn.value, handle.value);
        ReturnConnection(conn.value);
        return None;
      }
      if !HasRow(fetch) {
        CloseStatement(conn.value, handle.value);
        ReturnConnection(conn.value);
        return None;
      }
      row := Some(fetch.row);
      CloseStatement(conn.value, handle.value);
      ReturnConnection(conn.value);
    }

    /** SelectInventory; the fetch loop ends at the first fetch without a row, and the call still succeeds. */
    method SelectMany<T>(
      handle: Option<Statement>, prepareOk: bool, executeOk: bool, storeOk: bool,
      fetches: seq<Fetch<T>>, list: seq<T>)
      returns (ok: bool, outList: seq<T>)
      requires Valid() && (handle.Some? ==> handle.value !in open)
      modifies this
      ensures Valid() && pool == old(pool) && open == old(open) && old(steps) <= steps
      ensures ok == (pool != [] && handle.Some? && prepareOk && executeOk && storeOk)
      ensures outList == if ok then list + RowsOf(fetches) else list
      ensures ok ==> FetchedUpToTheFirstWithout(fetches, outList[|list|..])
    {
      outList := list;
      var conn := GetConnection();
      if conn.None? {
        return false, outList;
      }
      OpenStatement(conn.value, handle);
      if handle.None? || !prepareOk {
        if handle.Some? {
          CloseStatement(conn.value, handle.value);
        }
        ReturnConnection(conn.value);
        return false, outList;
      }
      if !executeOk || !storeOk {
        CloseStatement(conn.value, handle.value);
        ReturnConnection(conn.value);
        return false, outList;
      }
      var i := 0;
      while i < |fetches| && HasRow(fetches[i])
        invariant old(steps) <= steps && Shows(map[ME := Prepared(conn.value, handle.value)])
        invariant pool + [conn.value] == old(pool) && open == old(open) + {handle.value}
        invariant 0 <= i <= |fetches|
        invariant outList + RowsOf(fetches[i..]) == list + RowsOf(fetches)
      {
        assert fetches[i..][1..] == fetches[i + 1..];
        Reassociate(outList, [fetches[i].row], RowsOf(fetches[i + 1..]));
        outList := outList + [fetches[i].row];
        i := i + 1;
      }
      RowsAreThose(fetches);
      assert RowsOf(fetches[i..]) == [];
      assert outList == list + RowsOf(fetches);
      CloseStatement(conn.value, handle.value);
      ReturnConnection(conn.value);
      return true, outList;
    }
  }
}
