/**
 The write-behind cache as a timed transition system: packet handlers write stats to the cache at
 any moment, entries are deleted and expire, and the one synchronisation thread waits, scans, and
 copies stat by stat into the table, with writes falling between its get and its update.
 Time is counted in ticks of any length.
 */
module WriteBehind {
  import opened Bytes
  import opened StatPackets
  import opened RedisManagers

  type Id = u64

  /** `interval`: the wait between flushes; `ttl`: the life of a cache entry; `maxFlush`: the longest flush. */
  datatype Config = Config(interval: nat, ttl: nat, maxFlush: nat)

  /** The columns that a stat update sets. */
  datatype Row = Row(level: u32, hpMax: u32, hp: u32, mpMax: u32, mp: u32, isAlive: u8, lastMapId: u32)

  function Project(p: StatPacket): Row {
    Row(p.level, p.hpMax, p.hp, p.mpMax, p.mp, p.isAlive, p.lastMapId)
  }

  /** A cache entry; `version` counts the stats cached for its id, `stamp` all writes before it. */
  datatype Cell = Cell(stat: StatPacket, version: nat, stamp: nat, expiry: nat)

  /**
   A table row and the version last copied into it; version 0 is the row found at the start. `garbled`:
   the text of an error reply has been copied over it since.
   */
  datatype Stored = Stored(row: Row, version: nat, garbled: bool)

  /** What the server finds: the table, and what an earlier process left in the cache under its own keys. */
  datatype Found = Found(clock: nat, rows: map<Id, Row>, cache: map<Id, Left>)

  datatype Left = Left(stat: StatPacket, expiry: nat)

  type Start = f: Found | forall id | id in f.cache :: f.cache[id].stat.characterId == id
    witness Found(0, map[], map[])

  datatype Phase =
    | AtLoop                              // about to test the running flag
    | Waiting(wake: nat)                  // in the timed wait
    | Scanning(final: bool)               // in FlushAll, scanning
    | Copying(final: bool, ids: seq<Id>)  // in FlushAll, these ids to go
    // between get and update; no version: the stat is the text of an error reply
    | Got(final: bool, stat: StatPacket, version: Option<nat>, ids: seq<Id>)
    | Stopped(flushed: bool)              // left the loop, after a last flush or not

  datatype State = State(
    clock: nat,
    cache: map<Id, Cell>,
    rows: map<Id, Stored>,
    phase: Phase,
    running: bool,
    flushStart: nat,            // when the last flush began
    flushStamp: nat,            // how many writes there were then
    stable: set<Id>,            // ids cached ever since
    // history
    log: map<Id, seq<StatPacket>>,
    writes: nat,
    stopStamp: Option<nat>,     // how many writes there were when the flag dropped
    failed: bool)               // a scan, a get or an update of the last flush has failed

  datatype Step =
    | Write(stat: StatPacket)
    | Delete(id: Id)
    | Expire(id: Id)
    | Tick(d: nat)
    | Stop
    | TestLoop
    | Wake
    | ScanEnds(ids: seq<Id>, ok: bool)
    | GetNext(reply: GetReply)
    | Update(ok: bool, applied: bool)
    | FlushEnds

  function Init(start: Start): State {
    State(start.clock,
          map id | id in start.cache :: Cell(start.cache[id].stat, 1, 0, start.cache[id].expiry),
          map id | id in start.rows :: Stored(start.rows[id], 0, false),
          AtLoop, true, start.clock, 0, {},
          map id | id in start.cache :: [start.cache[id].stat], 1, None, false)
  }

  /** Every stat cached for a character, the one found at the start first. */
  function Log(s: State, id: Id): seq<StatPacket> {
    if id in s.log then s.log[id] else []
  }

  predicate Live(s: State, id: Id) {
    id in s.cache && s.clock < s.cache[id].expiry
  }

  /** OnCharacterStat: caches the packet under its own character id, with a fresh expiry. */
  function DoWrite(cfg: Config, s: State, stat: StatPacket): State {
    var id := stat.characterId;
    var log := Log(s, id) + [stat];
    s.(cache := s.cache[id := Cell(stat, |log|, s.writes, s.clock + cfg.ttl)],
       log := s.log[id := log], writes := s.writes + 1)
  }

  function DoRemove(s: State, id: Id): State {
    s.(cache := s.cache - {id}, stable := s.stable - {id})
  }

  /** The latest moment up to which the worker may stay in its phase. */
  function Deadline(cfg: Config, s: State): Option<nat> {
    match s.phase
    case AtLoop => Some(s.clock)
    case Waiting(wake) => Some(wake)
    case Stopped(_) => None
    case _ => Some(s.flushStart + cfg.maxFlush)
  }

  function DoTick(cfg: Config, s: State, d: nat): Option<State> {
    var latest := Deadline(cfg, s);
    if latest.Some? && s.clock + d > latest.value then None else Some(s.(clock := s.clock + d))
  }

  function DoTestLoop(cfg: Config, s: State): Option<State> {
    if !s.phase.AtLoop? then None
    else Some(s.(phase := if s.running then Waiting(s.clock + cfg.interval) else Stopped(false)))
  }

  /** The wait ends by time-out or by the flag; either way a flush follows, the last one if the flag is down. */
  function DoWake(cfg: Config, s: State): Option<State> {
    if !s.phase.Waiting? || (s.clock < s.phase.wake && s.running) then None
    else Some(s.(phase := Scanning(!s.running), flushStart := s.clock, flushStamp := s.writes, failed := false,
                 stable := set id | id in s.cache && Live(s, id)))
  }

  /** A successful scan returns every key that was there throughout; what else it returns is arbitrary. */
  function DoScanEnds(s: State, ids: seq<Id>, ok: bool): Option<State> {
    if !s.phase.Scanning? || (ok && exists id | id in s.stable :: Live(s, id) && id !in ids) then None
    else Some(s.(phase := Copying(s.phase.final, ids), failed := s.failed || !ok))
  }

  /** GetCharacterStat; an error reply is copied like a stat. */
  function DoGetNext(s: State, reply: GetReply): Option<State> {
    if !s.phase.Copying? || s.phase.ids == [] then None
    else
      var final, id, rest := s.phase.final, s.phase.ids[0], s.phase.ids[1..];
      match reply
      case Answer =>
        if Live(s, id) then Some(s.(phase := Got(final, s.cache[id].stat, Some(s.cache[id].version), rest)))
        else Some(s.(phase := Copying(final, rest)))
      case NoReply => Some(s.(phase := Copying(final, rest), failed := true))
      case ErrorReply(bytes) => Some(s.(phase := Got(final, Decode(bytes), None, rest), failed := true))
  }

  /** The row that an update leaves, given the version of the stat if it has one. */
  function Updated(before: Stored, stat: StatPacket, version: Option<nat>): Stored {
    if version.Some? then Stored(Project(stat), version.value, false)
    else Stored(Project(stat), before.version, true)
  }

  /**
   UPDATE ... WHERE character_id: changes the row of the id inside the packet, if there is one. An update
   that reports failure may have been applied.
   */
  function DoUpdate(s: State, ok: bool, applied: bool): Option<State> {
    if !s.phase.Got? || (ok && !applied) then None
    else
      var id := s.phase.stat.characterId;
      var next := s.(phase := Copying(s.phase.final, s.phase.ids), failed := s.failed || !ok);
      if applied && id in s.rows then
        Some(next.(rows := s.rows[id := Updated(s.rows[id], s.phase.stat, s.phase.version)]))
      else Some(next)
  }

  function DoFlushEnds(s: State): Option<State> {
    if !s.phase.Copying? || s.phase.ids != [] then None
    else Some(s.(phase := if s.phase.final then Stopped(true) else AtLoop))
  }

  function Next(cfg: Config, s: State, e: Step): Option<State> {
    match e
    case Write(stat) => Some(DoWrite(cfg, s, stat))
    case Delete(id) => Some(DoRemove(s, id))
    case Expire(id) => if id !in s.cache || Live(s, id) then None else Some(DoRemove(s, id))
    case Tick(d) => DoTick(cfg, s, d)
    case Stop => Some(if s.running then s.(running := false, stopStamp := Some(s.writes)) else s)
    case TestLoop => DoTestLoop(cfg, s)
    case Wake => DoWake(cfg, s)
    case ScanEnds(ids, ok) => DoScanEnds(s, ids, ok)
    case GetNext(reply) => DoGetNext(s, reply)
    case Update(ok, applied) => DoUpdate(s, ok, applied)
    case FlushEnds => DoFlushEnds(s)
  }

  function Exec(cfg: Config, start: Start, steps: seq<Step>): Option<State> {
    if steps == [] then Some(Init(start))
    else
      var before := Exec(cfg, start, steps[..|steps| - 1]);
      if before.None? then None else Next(cfg, before.value, steps[|steps| - 1])
  }

  // ------------------------------------------------------------------
  // Where rows come from
  // ------------------------------------------------------------------

  /** The row that version `version` of a log stands for. */
  function Version(start: Start, log: seq<StatPacket>, id: Id, version: nat): Row
    requires id in start.rows && version <= |log|
  {
    if version == 0 then start.rows[id] else Project(log[version - 1])
  }

  predicate RowOk(s: State, start: Start, id: Id)
    requires id in s.rows && id in start.rows
  {
    var r := s.rows[id];
    && r.version <= |Log(s, id)|
    && (!r.garbled ==> r.row == Version(start, Log(s, id), id, r.version))
  }

  predicate CellOk(s: State, id: Id)
    requires id in s.cache
  {
    var c := s.cache[id];
    && c.version == |Log(s, id)| > 0 && c.stat == Log(s, id)[c.version - 1]
    && c.stat.characterId == id && c.stamp < s.writes
  }

  predicate GotOk(s: State) {
    s.phase.Got? ==>
      if s.phase.version.None? then s.failed
      else
        var id, version := s.phase.stat.characterId, s.phase.version.value;
        && 0 < version <= |Log(s, id)| && Log(s, id)[version - 1] == s.phase.stat
        && (id in s.rows ==> s.rows[id].version <= version)
  }

  ghost predicate Provenance(s: State, start: Start) {
    && s.rows.Keys == start.rows.Keys
    && (forall id | id in s.rows :: RowOk(s, start, id))
    && (forall id | id in s.cache :: CellOk(s, id))
    && GotOk(s)
  }

  // ------------------------------------------------------------------
  // When rows catch up
  // ------------------------------------------------------------------

  /** The table has the row, but not with the cached stat. */
  predicate Unsaved(s: State, id: Id) {
    id in s.cache && id in s.rows && (s.rows[id].version < s.cache[id].version || s.rows[id].garbled)
  }

  /** The running flush is going to copy the cached version. */
  predicate Covered(s: State, id: Id)
    requires id in s.cache
  {
    match s.phase
    case Scanning(_) => id in s.stable
    case Copying(_, ids) => id in ids
    case Got(_, stat, version, ids) => id in ids || (stat.characterId == id && version == Some(s.cache[id].version))
    case _ => false
  }

  /** It was written after the last flush began, or that flush is going to copy it. */
  predicate Due(s: State, id: Id)
    requires id in s.cache
  {
    s.cache[id].stamp >= s.flushStamp || Covered(s, id)
  }

  predicate InFlush(s: State) {
    s.phase.Scanning? || s.phase.Copying? || s.phase.Got?
  }

  predicate Timing(cfg: Config, s: State) {
    && s.flushStart <= s.clock
    && s.flushStamp <= s.writes
    && (s.phase.Waiting? ==> s.clock <= s.phase.wake <= s.clock + cfg.interval)
    && (InFlush(s) ==> s.clock <= s.flushStart + cfg.maxFlush)
    && (s.stopStamp.Some? <==> !s.running)
    && (s.stopStamp.Some? ==> s.stopStamp.value <= s.writes)
    && (InFlush(s) && s.phase.final ==> s.stopStamp.Some? && s.stopStamp.value <= s.flushStamp)
    && (s.phase.Stopped? ==> !s.running)
    && (s.phase.Stopped? && s.phase.flushed ==> s.stopStamp.Some? && s.stopStamp.value <= s.flushStamp)
  }

  /** As long as nothing fails in it, a flush leaves nothing behind that was alive and cached before it. */
  ghost predicate Settled(s: State) {
    !s.failed ==> forall id | Unsaved(s, id) && Live(s, id) :: Due(s, id)
  }

  /** A step by which a scan, a get or an update fails. */
  predicate Fails(e: Step) {
    (e.ScanEnds? && !e.ok) || (e.GetNext? && !e.reply.Answer?) || (e.Update? && !e.ok)
  }
}
