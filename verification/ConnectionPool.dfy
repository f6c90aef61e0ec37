/**
 The database connection pool: any number of callers, each inside one of the query functions, taking
 the last pooled connection, opening and closing a statement on it, and giving it back.
 */
module ConnectionPool {
  import opened Bytes

  type CallerId = nat
  type Connection = nat
  type Statement = nat

  /** Where a caller stands in a query function. */
  datatype Pc =
    | Wanting                                      // in GetConnection
    | Has(conn: Connection)                        // got a connection, about to open a statement
    | Prepared(conn: Connection, stmt: Statement)  // has an open statement: preparing, executing or fetching
    | Returning(conn: Connection)                  // closed what it opened, in ReturnConnection

  datatype State = State(
    pool: seq<Connection>,
    callers: map<CallerId, Pc>,
    open: map<Statement, Connection>)

  datatype Step =
    | Call(t: CallerId)
    | Take(t: CallerId)
    | TimeOut(t: CallerId)
    | OpenStatement(t: CallerId, ok: bool, stmt: Statement)
    | CloseStatement(t: CallerId)
    | Return(t: CallerId)

  function Move(s: State, t: CallerId, pc: Pc): State {
    s.(callers := s.callers[t := pc])
  }

  predicate Stands(s: State, t: CallerId) {
    t in s.callers
  }

  function DoTake(s: State, t: CallerId): Option<State> {
    if !Stands(s, t) || !s.callers[t].Wanting? || s.pool == [] then None
    else Some(Move(s, t, Has(s.pool[|s.pool| - 1])).(pool := s.pool[..|s.pool| - 1]))
  }

  /** mysql_stmt_init; without a statement the connection goes straight back. */
  function DoOpen(s: State, t: CallerId, ok: bool, stmt: Statement): Option<State> {
    if !Stands(s, t) || !s.callers[t].Has? || (ok && stmt in s.open) then None
    else
      var conn := s.callers[t].conn;
      if ok then Some(Move(s, t, Prepared(conn, stmt)).(open := s.open[stmt := conn]))
      else Some(Move(s, t, Returning(conn)))
  }

  /** The one way out of every later failure and of success. */
  function DoClose(s: State, t: CallerId): Option<State> {
    if !Stands(s, t) || !s.callers[t].Prepared? then None
    else Some(Move(s, t, Returning(s.callers[t].conn)).(open := s.open - {s.callers[t].stmt}))
  }

  function DoReturn(s: State, t: CallerId): Option<State> {
    if !Stands(s, t) || !s.callers[t].Returning? then None
    else Some(s.(pool := s.pool + [s.callers[t].conn], callers := s.callers - {t}))
  }

  function Next(s: State, e: Step): Option<State> {
    match e
    case Call(t) => if Stands(s, t) then None else Some(Move(s, t, Wanting))
    case Take(t) => DoTake(s, t)
    case TimeOut(t) => if !Stands(s, t) || !s.callers[t].Wanting? then None else Some(s.(callers := s.callers - {t}))
    case OpenStatement(t, ok, stmt) => DoOpen(s, t, ok, stmt)
    case CloseStatement(t) => DoClose(s, t)
    case Return(t) => DoReturn(s, t)
  }

  /** A run from the pool that Init filled. */
  function Exec(all: seq<Connection>, steps: seq<Step>): Option<State> {
    if steps == [] then Some(State(all, map[], map[]))
    else
      var before := Exec(all, steps[..|steps| - 1]);
      if before.None? then None else Next(before.value, steps[|steps| - 1])
  }

  lemma ExecLast(all: seq<Connection>, steps: seq<Step>, e: Step)
    requires Exec(all, steps).Some?
    ensures Exec(all, steps + [e]) == Next(Exec(all, steps).value, e)
  {
    assert (steps + [e])[..|steps + [e]| - 1] == steps;
  }

  // ------------------------------------------------------------------
  // Invariant
  // ------------------------------------------------------------------

  datatype Place = Pooled(i: nat) | Held(t: CallerId)

  type Places = map<Connection, Place>

  predicate Holds(pc: Pc) {
    !pc.Wanting?
  }

  predicate PlaceOk(s: State, c: Connection, place: Place) {
    match place
    case Pooled(i) => i < |s.pool| && s.pool[i] == c
    case Held(t) => t in s.callers && Holds(s.callers[t]) && s.callers[t].conn == c
  }

  /** Every connection is in one place: pooled at one position or held by one caller. */
  ghost predicate Placed(s: State, places: Places) {
    && (forall c | c in places :: PlaceOk(s, c, places[c]))
    && (forall i | 0 <= i < |s.pool| :: s.pool[i] in places && places[s.pool[i]] == Pooled(i))
    && (forall t | t in s.callers && Holds(s.callers[t]) ::
          s.callers[t].conn in places && places[s.callers[t].conn] == Held(t))
  }

  /** The open statements are those of the callers that have one. */
  ghost predicate StatementsOk(s: State) {
    && (forall t | t in s.callers && s.callers[t].Prepared? ::
          s.callers[t].stmt in s.open && s.open[s.callers[t].stmt] == s.callers[t].conn)
    && (forall t, u | t in s.callers && u in s.callers && s.callers[t].Prepared? && s.callers[u].Prepared?
          && s.callers[t].stmt == s.callers[u].stmt :: t == u)
    && (forall stmt | stmt in s.open :: UserOf(s, stmt))
  }

  ghost predicate UserOf(s: State, stmt: Statement) {
    exists t :: Uses(s, t, stmt)
  }

  predicate Uses(s: State, t: CallerId, stmt: Statement) {
    t in s.callers && s.callers[t].Prepared? && s.callers[t].stmt == stmt
  }

  function NextPlaces(s: State, e: Step, places: Places): Places {
    match e
    case Take(t) => if s.pool == [] then places else places[s.pool[|s.pool| - 1] := Held(t)]
    case Return(t) =>
      if !Stands(s, t) || s.callers[t].Wanting? then places else places[s.callers[t].conn := Pooled(|s.pool|)]
    case _ => places
  }

  lemma TakeKept(s: State, places: Places, t: CallerId)
    requires Placed(s, places) && DoTake(s, t).Some?
    ensures Placed(DoTake(s, t).value, NextPlaces(s, Take(t), places))
  {
  }

  lemma ReturnKept(s: State, places: Places, t: CallerId)
    requires Placed(s, places) && DoReturn(s, t).Some?
    ensures Placed(DoReturn(s, t).value, NextPlaces(s, Return(t), places))
  {
  }

  lemma PlacesKept(s: State, places: Places, e: Step)
    requires Placed(s, places) && Next(s, e).Some?
    ensures Placed(Next(s, e).value, NextPlaces(s, e, places))
    ensures NextPlaces(s, e, places).Keys == places.Keys
  {
    if e.Take? {
      TakeKept(s, places, e.t);
    } else if e.Return? {
      ReturnKept(s, places, e.t);
    }
  }

  lemma StatementsKept(s: State, e: Step)
    requires StatementsOk(s) && Next(s, e).Some?
    ensures StatementsOk(Next(s, e).value)
  {
    var r := Next(s, e).value;
    forall stmt | stmt in r.open
      ensures UserOf(r, stmt)
    {
      if stmt in s.open {
        assert UserOf(s, stmt);
        var t :| Uses(s, t, stmt);
        assert Uses(r, t, stmt);
      } else {
        assert Uses(r, e.t, stmt);
      }
    }
  }

  predicate Distinct(all: seq<Connection>) {
    forall i, j | 0 <= i < j < |all| :: all[i] != all[j]
  }

  lemma {:induction false} RunKeeps(all: seq<Connection>, steps: seq<Step>) returns (places: Places)
    requires Distinct(all) && Exec(all, steps).Some?
    ensures Placed(Exec(all, steps).value, places) && StatementsOk(Exec(all, steps).value)
    ensures places.Keys == set c | c in all
  {
    if steps == [] {
      places := map c | c in all :: Pooled(Position(all, c));
      forall i | 0 <= i < |all|
        ensures all[i] in all && Position(all, all[i]) == i
      {
      }
    } else {
      var before, e := steps[..|steps| - 1], steps[|steps| - 1];
      var earlier := RunKeeps(all, before);
      PlacesKept(Exec(all, before).value, earlier, e);
      StatementsKept(Exec(all, before).value, e);
      places := NextPlaces(Exec(all, before).value, e, earlier);
    }
  }

  ghost function Position(all: seq<Connection>, c: Connection): (i: nat)
    requires c in all
    ensures i < |all| && all[i] == c
  {
    var i :| 0 <= i < |all| && all[i] == c;
    i
  }

  /**
   Conservation: over every interleaving the connections that Init made are partitioned into the
   pooled ones and those in the hands of exactly one caller, and the open statements are exactly those of
   the callers between opening and closing. At rest the pool is whole and no statement is open.
   */
  lemma ConnectionsAreConserved(all: seq<Connection>, steps: seq<Step>)
    requires Distinct(all) && Exec(all, steps).Some?
    ensures var s := Exec(all, steps).value;
            && Distinct(s.pool)
            && (forall t, u | t in s.callers && u in s.callers && Holds(s.callers[t]) && Holds(s.callers[u])
                  && s.callers[t].conn == s.callers[u].conn :: t == u)
            && (forall t | t in s.callers && Holds(s.callers[t]) :: s.callers[t].conn !in s.pool)
            && (forall c :: c in all <==>
                  c in s.pool || exists t :: t in s.callers && Holds(s.callers[t]) && s.callers[t].conn == c)
            && (forall stmt :: stmt in s.open <==> UserOf(s, stmt))
            && (s.callers == map[] ==> s.open == map[] && (forall c :: c in all <==> c in s.pool))
  {
    var places := RunKeeps(all, steps);
    var s := Exec(all, steps).value;
    forall c | c in all
      ensures c in s.pool || exists t :: t in s.callers && Holds(s.callers[t]) && s.callers[t].conn == c
    {
      assert PlaceOk(s, c, places[c]);
    }
    forall stmt | stmt in s.open
      ensures UserOf(s, stmt)
    {
    }
    assert s.callers == map[] ==> forall stmt :: !UserOf(s, stmt);
  }
}
