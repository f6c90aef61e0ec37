/** When a cached stat is in its row: before it expires, exactly if flushes are short enough and few enough fail. */
module WriteBehindExpiry {
  import opened Bytes
  import opened StatPackets
  import opened RedisManagers
  import opened WriteBehind
  import opened WriteBehindInvariant
  import opened WriteBehindTheorems
  import opened WriteBehindTime

  /** The row holds exactly the cached stat. */
  predicate Saved(s: State, id: Id, c: Cell) {
    id in s.rows && s.rows[id] == Stored(Project(c.stat), c.version, false)
  }

  lemma EntryOk(cfg: Config, start: Start, steps: seq<Step>, id: Id)
    requires Exec(cfg, start, steps).Some? && id in start.rows
    ensures var s := Exec(cfg, start, steps).value;
            && (id in s.cache ==> CellOk(s, id))
            && id in s.rows && RowOk(s, start, id)
  {
    RunKeeps(cfg, start, steps);
  }

  lemma SavedOrUnsaved(start: Start, s: State, id: Id)
    requires id in s.cache && CellOk(s, id) && id in s.rows && id in start.rows && RowOk(s, start, id)
    ensures Unsaved(s, id) <==> !Saved(s, id, s.cache[id])
  {
    assert Version(start, Log(s, id), id, |Log(s, id)|) == Project(s.cache[id].stat);
  }

  // ------------------------------------------------------------------
  // A flush without failures
  // ------------------------------------------------------------------

  /** No scan, get or update has failed since the last flush began. */
  predicate LastFlushClean(steps: seq<Step>) {
    steps == [] || steps[|steps| - 1].Wake?
    || (!Fails(steps[|steps| - 1]) && LastFlushClean(steps[..|steps| - 1]))
  }

  lemma {:induction false} FailedInLastFlush(cfg: Config, start: Start, steps: seq<Step>)
    requires Exec(cfg, start, steps).Some?
    ensures Exec(cfg, start, steps).value.failed <==> !LastFlushClean(steps)
  {
    if steps != [] {
      var before := steps[..|steps| - 1];
      FailedInLastFlush(cfg, start, before);
      RowStep(cfg, Exec(cfg, start, before).value, steps[|steps| - 1]);
    }
  }

  /**
   A flush in which nothing failed has brought every live stat that was cached when it began into its
   row, whatever failed before it and however long it took.
   */
  lemma CleanFlushSaves(cfg: Config, start: Start, steps: seq<Step>, id: Id)
    requires Exec(cfg, start, steps).Some? && LastFlushClean(steps) && id in start.rows
    requires !InFlush(Exec(cfg, start, steps).value) && Live(Exec(cfg, start, steps).value, id)
    requires UnwrittenSinceWake(steps, id)
    ensures Saved(Exec(cfg, start, steps).value, id, Exec(cfg, start, steps).value.cache[id])
  {
    var s := Exec(cfg, start, steps).value;
    StampsAreMeant(cfg, start, steps, id);
    RunKeeps(cfg, start, steps);
    FailedInLastFlush(cfg, start, steps);
    EntryOk(cfg, start, steps, id);
    SavedOrUnsaved(start, s, id);
    if Unsaved(s, id) {
      assert false;
    }
  }

  // ------------------------------------------------------------------
  // Failing flushes in a row
  // ------------------------------------------------------------------

  /** Of the flushes that begin in some steps: is there one, has the last one failed, how many have in a row. */
  datatype Flushes = Flushes(begun: bool, failing: bool, inRow: nat)

  function After(f: Flushes, e: Step): Flushes {
    if e.Wake? then Flushes(true, false, if f.failing then f.inRow else 0)
    else if Fails(e) && f.begun && !f.failing then Flushes(true, true, f.inRow + 1)
    else f
  }

  function FlushesOf(steps: seq<Step>): Flushes {
    if steps == [] then Flushes(false, false, 0) else After(FlushesOf(steps[..|steps| - 1]), steps[|steps| - 1])
  }

  /** Never more than `k` of the flushes that begin in these steps fail in a row. */
  predicate AtMostInRow(steps: seq<Step>, k: nat) {
    steps == [] || (FlushesOf(steps).inRow <= k && AtMostInRow(steps[..|steps| - 1], k))
  }

  /** `n` failing flushes and their waits, behind a flush that is under way at `t`. */
  function Latest(cfg: Config, t: nat, n: nat): nat {
    if n == 0 then t + cfg.maxFlush else Latest(cfg, t, n - 1) + cfg.interval + cfg.maxFlush
  }

  lemma {:induction false} LatestIs(cfg: Config, t: nat, n: nat)
    ensures Latest(cfg, t, n) == t + cfg.maxFlush + n * (cfg.interval + cfg.maxFlush)
  {
    if n > 0 {
      LatestIs(cfg, t, n - 1);
    }
  }

  lemma {:induction false} LatestGrows(cfg: Config, t: nat, n: nat, k: nat)
    requires n <= k
    ensures t + cfg.maxFlush <= Latest(cfg, t, n) <= Latest(cfg, t, k)
  {
    if n < k {
      LatestGrows(cfg, t, n, k - 1);
    } else if n > 0 {
      LatestGrows(cfg, t, n - 1, n - 1);
    }
  }

  /** No step writes or deletes the entry of this character. */
  predicate LeavesAlone(e: Step, id: Id) {
    (e.Write? ==> e.stat.characterId != id) && (e.Delete? ==> e.id != id)
  }

  predicate Untouched(steps: seq<Step>, id: Id) {
    forall e | e in steps :: LeavesAlone(e, id)
  }

  /**
   How an entry that is cached at `t` gets on towards its row, phase by phase, given the flushes that
   have begun since.
   */
  predicate OnTrack(cfg: Config, s: State, id: Id, t: nat, f: Flushes)
    requires id in s.cache
  {
    && (f.failing ==> f.begun && f.inRow > 0)
    && (!f.begun ==> f.inRow == 0)
    && match s.phase
       case AtLoop => (f.begun ==> f.failing) && s.clock <= Latest(cfg, t, f.inRow)
       case Waiting(wake) => (f.begun ==> f.failing) && wake <= Latest(cfg, t, f.inRow) + cfg.interval
       case Stopped(_) => true
       case _ =>
         if !f.begun then s.flushStart <= t
         else if f.failing then s.flushStart + cfg.maxFlush <= Latest(cfg, t, f.inRow)
         else Covered(s, id) && s.flushStart <= Latest(cfg, t, f.inRow) + cfg.interval
  }

  lemma TrackStarts(cfg: Config, s: State, id: Id)
    requires Timing(cfg, s) && id in s.cache
    ensures OnTrack(cfg, s, id, s.clock, Flushes(false, false, 0))
  {
  }

  lemma TrackIsShort(cfg: Config, s: State, id: Id, t: nat, f: Flushes, k: nat)
    requires Timing(cfg, s) && id in s.cache && OnTrack(cfg, s, id, t, f) && f.inRow <= k && !s.phase.Stopped?
    ensures s.clock <= Latest(cfg, t, k + 1)
    ensures !InFlush(s) ==> s.clock <= Latest(cfg, t, f.inRow) + cfg.interval
  {
    LatestGrows(cfg, t, f.inRow, k);
  }

  lemma TrackWakes(cfg: Config, s: State, id: Id, t: nat, f: Flushes)
    requires DoWake(cfg, s).Some? && id in s.cache && OnTrack(cfg, s, id, t, f) && Live(s, id) && Timing(cfg, s)
    ensures OnTrack(cfg, DoWake(cfg, s).value, id, t, After(f, Wake))
  {
  }

  predicate OfFlush(e: Step) {
    e.ScanEnds? || e.GetNext? || e.Update? || e.FlushEnds?
  }

  lemma TrackCopies(cfg: Config, s: State, reply: GetReply, id: Id, t: nat, f: Flushes)
    requires DoGetNext(s, reply).Some? && Timing(cfg, s)
    requires id in s.cache && CellOk(s, id) && Live(s, id) && OnTrack(cfg, s, id, t, f)
    ensures OnTrack(cfg, DoGetNext(s, reply).value, id, t, After(f, GetNext(reply)))
  {
    if id in s.phase.ids {
      assert id == s.phase.ids[0] || id in s.phase.ids[1..];
    }
  }

  lemma TrackFlushes(cfg: Config, s: State, e: Step, id: Id, t: nat, f: Flushes)
    requires OfFlush(e) && Next(cfg, s, e).Some? && Timing(cfg, s)
    requires Unsaved(s, id) && CellOk(s, id) && Live(s, id) && OnTrack(cfg, s, id, t, f)
    requires Unsaved(Next(cfg, s, e).value, id)
    ensures OnTrack(cfg, Next(cfg, s, e).value, id, t, After(f, e))
  {
    LatestGrows(cfg, t, 0, f.inRow);
    if e.GetNext? {
      TrackCopies(cfg, s, e.reply, id, t, f);
    }
  }

  lemma TrackElsewhere(cfg: Config, s: State, e: Step, id: Id, t: nat, f: Flushes)
    requires !OfFlush(e) && !e.Wake? && LeavesAlone(e, id) && Next(cfg, s, e).Some? && Timing(cfg, s)
    requires id in s.cache && Live(s, id) && OnTrack(cfg, s, id, t, f)
    ensures id in Next(cfg, s, e).value.cache && OnTrack(cfg, Next(cfg, s, e).value, id, t, After(f, e))
  {
  }

  lemma CellStays(cfg: Config, s: State, e: Step, id: Id)
    requires Next(cfg, s, e).Some? && LeavesAlone(e, id) && Live(s, id)
    ensures id in Next(cfg, s, e).value.cache && Next(cfg, s, e).value.cache[id] == s.cache[id]
  {
  }

  lemma TrackStep(cfg: Config, s: State, e: Step, id: Id, t: nat, f: Flushes)
    requires Timing(cfg, s) && Next(cfg, s, e).Some? && LeavesAlone(e, id)
    requires Unsaved(s, id) && CellOk(s, id) && Live(s, id) && OnTrack(cfg, s, id, t, f)
    ensures var r := Next(cfg, s, e).value;
            && id in r.cache && r.cache[id] == s.cache[id]
            && (Unsaved(r, id) ==> OnTrack(cfg, r, id, t, After(f, e)))
  {
    CellStays(cfg, s, e, id);
    if e.Wake? {
      TrackWakes(cfg, s, id, t, f);
    } else if !OfFlush(e) {
      TrackElsewhere(cfg, s, e, id, t, f);
    } else if Unsaved(Next(cfg, s, e).value, id) {
      TrackFlushes(cfg, s, e, id, t, f);
    }
  }

  /** The entry is as it was, not in its row, and on its way. */
  predicate OnItsWay(cfg: Config, s: State, id: Id, c: Cell, t: nat, f: Flushes) {
    Unsaved(s, id) && s.cache[id] == c && OnTrack(cfg, s, id, t, f)
  }

  /** At some moment of `more` the row holds exactly the cached stat. */
  ghost predicate SavedWithin(cfg: Config, start: Start, steps: seq<Step>, more: seq<Step>, id: Id, c: Cell) {
    exists j: nat :: j <= |more| && SavedAt(cfg, start, steps + more[..j], id, c)
  }

  predicate SavedAt(cfg: Config, start: Start, steps: seq<Step>, id: Id, c: Cell) {
    Exec(cfg, start, steps).Some? && Saved(Exec(cfg, start, steps).value, id, c)
  }

  lemma SavedNow(cfg: Config, start: Start, steps: seq<Step>, more: seq<Step>, id: Id, c: Cell)
    requires SavedAt(cfg, start, steps + more, id, c)
    ensures SavedWithin(cfg, start, steps, more, id, c)
  {
    assert more[..|more|] == more;
  }

  lemma SavedEarlier(cfg: Config, start: Start, steps: seq<Step>, more: seq<Step>, id: Id, c: Cell)
    requires more != [] && SavedWithin(cfg, start, steps, more[..|more| - 1], id, c)
    ensures SavedWithin(cfg, start, steps, more, id, c)
  {
    var early := more[..|more| - 1];
    var j: nat :| j <= |early| && SavedAt(cfg, start, steps + early[..j], id, c);
    assert early[..j] == more[..j];
  }

  lemma {:induction false} SavedOrOnItsWay(
    cfg: Config, start: Start, steps: seq<Step>, more: seq<Step>, id: Id, k: nat)
    requires Exec(cfg, start, steps).Some? && Exec(cfg, start, steps + more).Some?
    requires Untouched(more, id) && AtMostInRow(more, k)
    requires var s := Exec(cfg, start, steps).value;
             id in s.cache && id in start.rows && Latest(cfg, s.clock, k + 1) < s.cache[id].expiry
    requires !Exec(cfg, start, steps + more).value.phase.Stopped?
    ensures var s := Exec(cfg, start, steps).value; var c := s.cache[id];
            SavedWithin(cfg, start, steps, more, id, c)
            || OnItsWay(cfg, Exec(cfg, start, steps + more).value, id, c, s.clock, FlushesOf(more))
  {
    var s := Exec(cfg, start, steps).value;
    var c := s.cache[id];
    if more == [] {
      assert steps + more == steps;
      RunKeeps(cfg, start, steps);
      TrackStarts(cfg, s, id);
    } else {
      var early, e := more[..|more| - 1], more[|more| - 1];
      assert (steps + more)[..|steps + more| - 1] == steps + early;
      var before := Exec(cfg, start, steps + early).value;
      if before.phase.Stopped? {
        StoppedStays(cfg, before, e);
      }
      SavedOrOnItsWay(cfg, start, steps, early, id, k);
      if SavedWithin(cfg, start, steps, early, id, c) {
        SavedEarlier(cfg, start, steps, more, id, c);
      } else {
        RunKeeps(cfg, start, steps + early);
        EntryOk(cfg, start, steps + early, id);
        TrackIsShort(cfg, before, id, s.clock, FlushesOf(early), k);
        TrackStep(cfg, before, e, id, s.clock, FlushesOf(early));
      }
    }
    if !SavedWithin(cfg, start, steps, more, id, c) {
      NotYetSaved(cfg, start, steps, more, id, c);
    }
  }

  lemma NotYetSaved(cfg: Config, start: Start, steps: seq<Step>, more: seq<Step>, id: Id, c: Cell)
    requires Exec(cfg, start, steps + more).Some? && id in start.rows
    requires id in Exec(cfg, start, steps + more).value.cache && Exec(cfg, start, steps + more).value.cache[id] == c
    requires !SavedWithin(cfg, start, steps, more, id, c)
    ensures Unsaved(Exec(cfg, start, steps + more).value, id)
  {
    EntryOk(cfg, start, steps + more, id);
    SavedOrUnsaved(start, Exec(cfg, start, steps + more).value, id);
    if Saved(Exec(cfg, start, steps + more).value, id, c) {
      SavedNow(cfg, start, steps, more, id, c);
    }
  }

  lemma SavedOrYoung(cfg: Config, start: Start, steps: seq<Step>, more: seq<Step>, id: Id, k: nat)
    requires Exec(cfg, start, steps).Some? && Exec(cfg, start, steps + more).Some?
    requires Untouched(more, id) && AtMostInRow(more, k)
    requires var s := Exec(cfg, start, steps).value;
             id in s.cache && id in start.rows && Latest(cfg, s.clock, k + 1) < s.cache[id].expiry
    requires !Exec(cfg, start, steps + more).value.phase.Stopped?
    ensures var s, r := Exec(cfg, start, steps).value, Exec(cfg, start, steps + more).value;
            || SavedWithin(cfg, start, steps, more, id, s.cache[id])
            || (Live(r, id) && r.cache[id] == s.cache[id] && r.clock <= Latest(cfg, s.clock, k + 1))
  {
    var s := Exec(cfg, start, steps).value;
    SavedOrOnItsWay(cfg, start, steps, more, id, k);
    if !SavedWithin(cfg, start, steps, more, id, s.cache[id]) {
      RunKeeps(cfg, start, steps + more);
      TrackIsShort(cfg, Exec(cfg, start, steps + more).value, id, s.clock, FlushesOf(more), k);
    }
  }

  /**
   From any moment on, whatever failed before it: a cached stat that is not overwritten or deleted has been
   in its row, exactly as cached, or is still alive in the cache, and no more time has passed than a flush
   and then k + 1 waits and flushes take, if never more than k flushes in a row fail. This includes what
   misses the scan of a flush and what an earlier process left in the cache.
   */
  lemma ReachesItsRow(cfg: Config, start: Start, steps: seq<Step>, more: seq<Step>, id: Id, k: nat)
    requires Exec(cfg, start, steps).Some? && Exec(cfg, start, steps + more).Some?
    requires Untouched(more, id) && AtMostInRow(more, k)
    requires var s := Exec(cfg, start, steps).value;
             && id in s.cache && id in start.rows
             && s.clock + cfg.maxFlush + (k + 1) * (cfg.interval + cfg.maxFlush) < s.cache[id].expiry
    requires !Exec(cfg, start, steps + more).value.phase.Stopped?
    ensures var s, r := Exec(cfg, start, steps).value, Exec(cfg, start, steps + more).value;
            || SavedWithin(cfg, start, steps, more, id, s.cache[id])
            || (Live(r, id) && r.cache[id] == s.cache[id]
                && r.clock <= s.clock + cfg.maxFlush + (k + 1) * (cfg.interval + cfg.maxFlush))
  {
    LatestIs(cfg, Exec(cfg, start, steps).value.clock, k + 1);
    SavedOrYoung(cfg, start, steps, more, id, k);
  }

  // ------------------------------------------------------------------
  // The exact bound
  // ------------------------------------------------------------------

  /** At every moment of `more` the row differs from the stat. */
  ghost predicate NeverInRow(cfg: Config, start: Start, steps: seq<Step>, more: seq<Step>, id: Id, row: Row) {
    forall j: nat | j <= |more| && RowAt(cfg, start, steps + more[..j], id).Some? ::
      RowAt(cfg, start, steps + more[..j], id).value != row
  }

  function RowAt(cfg: Config, start: Start, steps: seq<Step>, id: Id): Option<Row> {
    var s := Exec(cfg, start, steps);
    if s.Some? && id in s.value.rows then Some(s.value.rows[id].row) else None
  }

  /**
   A stat is written after `steps` and left alone in `more`; its life has ended, the worker still runs, no
   more than k flushes in a row have failed since, and the stat has never been in its row.
   */
  ghost predicate ExpiresUnsaved(
    cfg: Config, start: Start, steps: seq<Step>, stat: StatPacket, more: seq<Step>, k: nat)
  {
    Exec(cfg, start, steps).Some? && Exec(cfg, start, (steps + [Write(stat)]) + more).Some? &&
    var id, s := stat.characterId, Exec(cfg, start, steps).value;
    var r := Exec(cfg, start, (steps + [Write(stat)]) + more).value;
    && Untouched(more, id) && AtMostInRow(more, k) && !r.phase.Stopped?
    && id in start.rows && r.clock >= s.clock + cfg.ttl
    && NeverInRow(cfg, start, steps + [Write(stat)], more, id, Project(stat))
  }

  /**
   While the worker runs and at most k flushes in a row fail, every stat is in its row before its life
   ends, unless it is overwritten or deleted, whatever failed before it was written.
   */
  ghost predicate EverythingIsSaved(cfg: Config, k: nat) {
    forall start: Start, steps: seq<Step>, stat: StatPacket, more: seq<Step> ::
      !ExpiresUnsaved(cfg, start, steps, stat, more, k)
  }

  lemma SavedIsInRow(cfg: Config, start: Start, steps: seq<Step>, more: seq<Step>, id: Id, c: Cell)
    requires SavedWithin(cfg, start, steps, more, id, c)
    ensures !NeverInRow(cfg, start, steps, more, id, Project(c.stat))
  {
    var j: nat :| j <= |more| && SavedAt(cfg, start, steps + more[..j], id, c);
    assert RowAt(cfg, start, steps + more[..j], id) == Some(Project(c.stat));
  }

  lemma WriteIsSaved(cfg: Config, start: Start, steps: seq<Step>, stat: StatPacket, more: seq<Step>, k: nat)
    requires cfg.maxFlush + (k + 1) * (cfg.interval + cfg.maxFlush) < cfg.ttl
    ensures !ExpiresUnsaved(cfg, start, steps, stat, more, k)
  {
    if ExpiresUnsaved(cfg, start, steps, stat, more, k) {
      var id := stat.characterId;
      var longer := Then(cfg, start, steps, Write(stat));
      var c := Exec(cfg, start, longer).value.cache[id];
      ReachesItsRow(cfg, start, longer, more, id, k);
      if SavedWithin(cfg, start, longer, more, id, c) {
        SavedIsInRow(cfg, start, longer, more, id, c);
      }
    }
  }

  const SOME_STAT: StatPacket := StatPacket(37, 1003, 1, 1, 1, 1, 1, 1, 0, 1)

  function OneRow(): Start {
    Found(0, map[1 := Project(SOME_STAT.(level := 0))], map[])
  }

  /** A stat written just after the scan of the first flush. */
  lemma MissedWrite(cfg: Config) returns (before: seq<Step>, steps: seq<Step>)
    ensures Exec(cfg, OneRow(), before).Some? && steps == before + [Write(SOME_STAT)]
    ensures Exec(cfg, OneRow(), steps) == Next(cfg, Exec(cfg, OneRow(), before).value, Write(SOME_STAT))
    ensures var s := Exec(cfg, OneRow(), steps).value;
            && s.clock == Exec(cfg, OneRow(), before).value.clock
            && s.running && s.phase == Copying(false, []) && s.rows == Init(OneRow()).rows
            && s.cache == map[1 := Cell(SOME_STAT, 1, s.writes - 1, s.clock + cfg.ttl)]
            && s.clock == s.flushStart
    ensures LastFlushClean(steps)
  {
    before := FirstScan(cfg, OneRow(), []);
    steps := Then(cfg, OneRow(), before, Write(SOME_STAT));
    FailedInLastFlush(cfg, OneRow(), steps);
  }

  /** Steps of the worker and of time that copy nothing. */
  predicate CopiesNothing(e: Step) {
    e.Tick? || e.TestLoop? || e.Wake? || e.ScanEnds? || e.FlushEnds?
  }

  /** A run goes on behind the missed write, copying nothing. */
  ghost predicate Fruitless(cfg: Config, steps: seq<Step>, more: seq<Step>, k: nat) {
    && Exec(cfg, OneRow(), steps).Some? && Exec(cfg, OneRow(), steps + more).Some?
    && AtMostInRow(more, k) && forall e | e in more :: CopiesNothing(e)
  }

  lemma GoOn(cfg: Config, steps: seq<Step>, more: seq<Step>, e: Step, k: nat) returns (longer: seq<Step>)
    requires Fruitless(cfg, steps, more, k) && CopiesNothing(e) && After(FlushesOf(more), e).inRow <= k
    requires Next(cfg, Exec(cfg, OneRow(), steps + more).value, e).Some?
    ensures Fruitless(cfg, steps, longer, k) && FlushesOf(longer) == After(FlushesOf(more), e)
    ensures Exec(cfg, OneRow(), steps + longer) == Next(cfg, Exec(cfg, OneRow(), steps + more).value, e)
  {
    longer := more + [e];
    var whole := Then(cfg, OneRow(), steps + more, e);
    assert whole == steps + longer;
    assert longer[..|more|] == more;
  }

  /** A run that is at the worker's loop at time `clock`, with `n` failed flushes behind it. */
  ghost predicate LoopAt(cfg: Config, steps: seq<Step>, more: seq<Step>, n: nat, k: nat, clock: nat) {
    && Fruitless(cfg, steps, more, k) && FlushesOf(more) == Flushes(n > 0, n > 0, n)
    && var s := Exec(cfg, OneRow(), steps + more).value;
       s.phase.AtLoop? && s.running && s.clock == clock
  }

  /** The wait takes its full time, and a flush begins. */
  lemma FullWait(cfg: Config, steps: seq<Step>, more: seq<Step>, n: nat, k: nat, clock: nat)
    returns (longer: seq<Step>)
    requires n <= k && LoopAt(cfg, steps, more, n, k, clock)
    ensures Fruitless(cfg, steps, longer, k) && FlushesOf(longer) == Flushes(true, false, n)
    ensures var s := Exec(cfg, OneRow(), steps + longer).value;
            s.phase == Scanning(false) && s.running && s.clock == s.flushStart == clock + cfg.interval
  {
    longer := GoOn(cfg, steps, more, TestLoop, k);
    longer := GoOn(cfg, steps, longer, Tick(cfg.interval), k);
    longer := GoOn(cfg, steps, longer, Wake, k);
  }

  /** Such a flush, with nothing to copy, takes its full time. */
  lemma FullFlush(cfg: Config, steps: seq<Step>, more: seq<Step>, n: nat, k: nat) returns (longer: seq<Step>)
    requires n <= k && Fruitless(cfg, steps, more, k) && FlushesOf(more) == Flushes(n > 0, n > 0, n)
    requires var s := Exec(cfg, OneRow(), steps + more).value;
             s.running && s.phase == Copying(false, []) && s.clock == s.flushStart
    ensures LoopAt(cfg, steps, longer, n, k, Exec(cfg, OneRow(), steps + more).value.clock + cfg.maxFlush)
  {
    longer := GoOn(cfg, steps, more, Tick(cfg.maxFlush), k);
    longer := GoOn(cfg, steps, longer, FlushEnds, k);
  }

  lemma ScanFails(cfg: Config, s: State)
    requires s.phase == Scanning(false)
    ensures Next(cfg, s, ScanEnds([], false)) == Some(s.(phase := Copying(false, []), failed := true))
  {
  }

  lemma FailingScan(cfg: Config, steps: seq<Step>, more: seq<Step>, n: nat, k: nat) returns (longer: seq<Step>)
    requires n < k && Fruitless(cfg, steps, more, k) && FlushesOf(more) == Flushes(true, false, n)
    requires Exec(cfg, OneRow(), steps + more).value.phase == Scanning(false)
    ensures Fruitless(cfg, steps, longer, k) && FlushesOf(longer) == Flushes(true, true, n + 1)
    ensures Exec(cfg, OneRow(), steps + longer).value
         == Exec(cfg, OneRow(), steps + more).value.(phase := Copying(false, []), failed := true)
  {
    ScanFails(cfg, Exec(cfg, OneRow(), steps + more).value);
    longer := GoOn(cfg, steps, more, ScanEnds([], false), k);
  }

  /** After the wait the scan fails, and that flush takes its full time too. */
  lemma FailingFlush(cfg: Config, steps: seq<Step>, more: seq<Step>, n: nat, k: nat, t: nat)
    returns (longer: seq<Step>)
    requires n < k && LoopAt(cfg, steps, more, n, k, Latest(cfg, t, n))
    ensures LoopAt(cfg, steps, longer, n + 1, k, Latest(cfg, t, n + 1))
  {
    var waited := FullWait(cfg, steps, more, n, k, Latest(cfg, t, n));
    var scanned := FailingScan(cfg, steps, waited, n, k);
    longer := FullFlush(cfg, steps, scanned, n + 1, k);
  }

  lemma NoFailureYet(cfg: Config, steps: seq<Step>, k: nat, t: nat) returns (more: seq<Step>)
    requires Exec(cfg, OneRow(), steps).Some?
    requires var s := Exec(cfg, OneRow(), steps).value;
             s.running && s.phase == Copying(false, []) && s.clock == s.flushStart == t
    ensures LoopAt(cfg, steps, more, 0, k, Latest(cfg, t, 0))
  {
    assert steps + [] == steps;
    more := FullFlush(cfg, steps, [], 0, k);
  }

  lemma {:induction false} FailingFlushes(cfg: Config, steps: seq<Step>, n: nat, k: nat, t: nat)
    returns (more: seq<Step>)
    requires n <= k && Exec(cfg, OneRow(), steps).Some?
    requires var s := Exec(cfg, OneRow(), steps).value;
             s.running && s.phase == Copying(false, []) && s.clock == s.flushStart == t
    ensures LoopAt(cfg, steps, more, n, k, Latest(cfg, t, n))
    decreases n
  {
    if n == 0 {
      more := NoFailureYet(cfg, steps, k, t);
    } else {
      var fewer := FailingFlushes(cfg, steps, n - 1, k, t);
      more := FailingFlush(cfg, steps, fewer, n - 1, k, t);
    }
  }

  lemma CopiesNothingStep(cfg: Config, s: State, e: Step)
    requires CopiesNothing(e) && Next(cfg, s, e).Some?
    ensures Next(cfg, s, e).value.rows == s.rows && Next(cfg, s, e).value.cache == s.cache
  {
  }

  lemma {:induction false} RowsUntouched(cfg: Config, start: Start, steps: seq<Step>, more: seq<Step>)
    requires Exec(cfg, start, steps).Some? && Exec(cfg, start, steps + more).Some?
    requires forall e | e in more :: CopiesNothing(e)
    ensures Exec(cfg, start, steps + more).value.rows == Exec(cfg, start, steps).value.rows
    ensures Exec(cfg, start, steps + more).value.cache == Exec(cfg, start, steps).value.cache
  {
    if more == [] {
      assert steps + more == steps;
    } else {
      var early := more[..|more| - 1];
      assert (steps + more)[..|steps + more| - 1] == steps + early;
      RowsUntouched(cfg, start, steps, early);
      CopiesNothingStep(cfg, Exec(cfg, start, steps + early).value, more[|more| - 1]);
    }
  }

  /** After k failing flushes and one more that takes its full time, the missed write is still not in its row. */
  lemma LateFlush(cfg: Config, k: nat) returns (before: seq<Step>, more: seq<Step>)
    ensures Exec(cfg, OneRow(), before).Some? && Fruitless(cfg, before + [Write(SOME_STAT)], more, k)
    ensures var s := Exec(cfg, OneRow(), before).value;
            var r := Exec(cfg, OneRow(), (before + [Write(SOME_STAT)]) + more).value;
            && r.phase == Scanning(false)
            && r.clock == s.clock + cfg.maxFlush + (k + 1) * (cfg.interval + cfg.maxFlush)
            && r.rows == Init(OneRow()).rows && 1 in r.cache && r.cache[1].expiry == s.clock + cfg.ttl
    ensures NeverInRow(cfg, OneRow(), before + [Write(SOME_STAT)], more, 1, Project(SOME_STAT))
  {
    var steps;
    before, steps := MissedWrite(cfg);
    var t := Exec(cfg, OneRow(), steps).value.clock;
    more := FailingFlushes(cfg, steps, k, k, t);
    more := FullWait(cfg, steps, more, k, k, Latest(cfg, t, k));
    more := GoOn(cfg, steps, more, Tick(cfg.maxFlush), k);
    LatestIs(cfg, t, k + 1);
    RowsUntouched(cfg, OneRow(), steps, more);
    forall j: nat | j <= |more| && RowAt(cfg, OneRow(), steps + more[..j], 1).Some?
      ensures RowAt(cfg, OneRow(), steps + more[..j], 1).value != Project(SOME_STAT)
    {
      RowsUntouched(cfg, OneRow(), steps, more[..j]);
    }
  }

  /**
   The expiry bound is exact: with at most k flushes failing in a row, every stat is saved in time if and
   only if a flush and then k + 1 waits and flushes take less than the life of an entry.
   */
  lemma ExpiryBoundIsExact(cfg: Config, k: nat)
    ensures EverythingIsSaved(cfg, k) <==> cfg.maxFlush + (k + 1) * (cfg.interval + cfg.maxFlush) < cfg.ttl
  {
    if cfg.maxFlush + (k + 1) * (cfg.interval + cfg.maxFlush) < cfg.ttl {
      forall start: Start, steps: seq<Step>, stat: StatPacket, more: seq<Step>
        ensures !ExpiresUnsaved(cfg, start, steps, stat, more, k)
      {
        WriteIsSaved(cfg, start, steps, stat, more, k);
      }
    } else {
      var before, more := LateFlush(cfg, k);
      assert ExpiresUnsaved(cfg, OneRow(), before, SOME_STAT, more, k);
    }
  }

  /** Beyond the bound a stat can end up in neither place: expired, and never written to its row. */
  lemma StatIsLost(cfg: Config, k: nat) returns (before: seq<Step>, more: seq<Step>)
    requires cfg.maxFlush + (k + 1) * (cfg.interval + cfg.maxFlush) >= cfg.ttl
    ensures Exec(cfg, OneRow(), before).Some? && Fruitless(cfg, before + [Write(SOME_STAT)], more, k)
    ensures var lost := Exec(cfg, OneRow(), ((before + [Write(SOME_STAT)]) + more) + [Expire(1)]);
            lost.Some? && 1 !in lost.value.cache && lost.value.rows == Init(OneRow()).rows
  {
    before, more := LateFlush(cfg, k);
    var lost := Then(cfg, OneRow(), (before + [Write(SOME_STAT)]) + more, Expire(1));
  }

  /** With the server's 30 seconds and 3600 seconds: flushes of up to 1784 seconds, or 1179 if one may fail. */
  lemma ServerExpiryBound(maxFlush: nat)
    ensures EverythingIsSaved(Config(30, EXPIRE_SECONDS, maxFlush), 0) <==> maxFlush <= 1784
    ensures EverythingIsSaved(Config(30, EXPIRE_SECONDS, maxFlush), 1) <==> maxFlush <= 1179
  {
    ExpiryBoundIsExact(Config(30, EXPIRE_SECONDS, maxFlush), 0);
    ExpiryBoundIsExact(Config(30, EXPIRE_SECONDS, maxFlush), 1);
  }

  // ------------------------------------------------------------------
  // It does get saved, and stays so
  // ------------------------------------------------------------------

  lemma {:induction false} CalmFlushes(more: seq<Step>)
    requires AllCalm(more)
    ensures FlushesOf(more).inRow == 0 && !FlushesOf(more).failing && AtMostInRow(more, 0)
    ensures forall id :: Untouched(more, id)
  {
    if more != [] {
      CalmFlushes(more[..|more| - 1]);
      assert Calm(more[|more| - 1]) && !Fails(more[|more| - 1]);
    }
  }

  lemma RunningNotStopped(cfg: Config, start: Start, steps: seq<Step>)
    requires Exec(cfg, start, steps).Some? && Exec(cfg, start, steps).value.running
    ensures !Exec(cfg, start, steps).value.phase.Stopped?
  {
    RunKeeps(cfg, start, steps);
  }

  lemma SavedOnTheWay(cfg: Config, start: Start, steps: seq<Step>, longer: seq<Step>, id: Id)
    requires Exec(cfg, start, steps).Some? && id in start.rows && Exec(cfg, start, steps + longer).Some?
    requires var s := Exec(cfg, start, steps).value;
             id in s.cache && Latest(cfg, s.clock, 1) < s.cache[id].expiry
    requires Untouched(longer, id) && AtMostInRow(longer, 0)
    requires var s, r := Exec(cfg, start, steps).value, Exec(cfg, start, steps + longer).value;
             r.running && r.clock > Latest(cfg, s.clock, 1)
    ensures SavedWithin(cfg, start, steps, longer, id, Exec(cfg, start, steps).value.cache[id])
  {
    RunningNotStopped(cfg, start, steps + longer);
    SavedOrYoung(cfg, start, steps, longer, id, 0);
  }

  /** From every state of a running worker a cached stat with time enough has a run of the worker that saves it. */
  lemma GetsSaved(cfg: Config, start: Start, steps: seq<Step>, id: Id) returns (more: seq<Step>)
    requires cfg.interval + cfg.maxFlush > 0 && Exec(cfg, start, steps).Some? && id in start.rows
    requires var s := Exec(cfg, start, steps).value;
             s.running && id in s.cache && s.clock + cfg.interval + 2 * cfg.maxFlush < s.cache[id].expiry
    ensures AllCalm(more) && SavedAt(cfg, start, steps + more, id, Exec(cfg, start, steps).value.cache[id])
  {
    var t := Exec(cfg, start, steps).value.clock + cfg.interval + 2 * cfg.maxFlush;
    var longer := TimePasses(cfg, start, steps, t + 1);
    CalmFlushes(longer);
    LatestIs(cfg, Exec(cfg, start, steps).value.clock, 1);
    SavedOnTheWay(cfg, start, steps, longer, id);
    var c := Exec(cfg, start, steps).value.cache[id];
    var j: nat :| j <= |longer| && SavedAt(cfg, start, steps + longer[..j], id, c);
    more := longer[..j];
  }

  /** No error reply to a GET of these steps spells the character's id where a stat has it. */
  predicate NoErrorNames(steps: seq<Step>, id: Id) {
    forall e | e in steps && e.GetNext? && e.reply.ErrorReply? :: Decode(e.reply.bytes).characterId != id
  }

  /** The row is saved, `c` is the last stat cached, and no error text that names the row is in hand. */
  predicate Settling(s: State, id: Id, c: Cell) {
    && Saved(s, id, c) && c.version == |Log(s, id)| > 0 && c.stat == Log(s, id)[c.version - 1]
    && (s.phase.Got? && s.phase.version.None? ==> s.phase.stat.characterId != id)
  }

  lemma SettlingStep(cfg: Config, s: State, e: Step, id: Id, c: Cell)
    requires Settling(s, id, c) && GotOk(s) && Next(cfg, s, e).Some? && LeavesAlone(e, id)
    requires e.GetNext? && e.reply.ErrorReply? ==> Decode(e.reply.bytes).characterId != id
    ensures Settling(Next(cfg, s, e).value, id, c)
  {
    RowStep(cfg, s, e);
    LogStep(cfg, s, e, id);
  }

  /** What is in its row stays there, also when the entry expires, unless an error reply names it. */
  lemma {:induction false} StaysSaved(cfg: Config, start: Start, steps: seq<Step>, more: seq<Step>, id: Id, c: Cell)
    requires Exec(cfg, start, steps).Some? && Exec(cfg, start, steps + more).Some?
    requires Settling(Exec(cfg, start, steps).value, id, c) && Untouched(more, id) && NoErrorNames(more, id)
    ensures Settling(Exec(cfg, start, steps + more).value, id, c)
  {
    if more == [] {
      assert steps + more == steps;
    } else {
      var early := more[..|more| - 1];
      assert (steps + more)[..|steps + more| - 1] == steps + early;
      StaysSaved(cfg, start, steps, early, id, c);
      RunKeeps(cfg, start, steps + early);
      SettlingStep(cfg, Exec(cfg, start, steps + early).value, more[|more| - 1], id, c);
    }
  }

  // ------------------------------------------------------------------
  // The life of an entry
  // ------------------------------------------------------------------

  /** The entry is cached until its expiry, and is this one as long as it is cached. */
  predicate LivesUntil(s: State, id: Id, c: Cell) {
    (id in s.cache ==> s.cache[id] == c) && (s.clock < c.expiry ==> id in s.cache)
  }

  lemma LifeStep(cfg: Config, s: State, e: Step, id: Id, c: Cell)
    requires LivesUntil(s, id, c) && Next(cfg, s, e).Some? && LeavesAlone(e, id)
    ensures LivesUntil(Next(cfg, s, e).value, id, c)
  {
  }

  lemma {:induction false} LifeGoesOn(cfg: Config, start: Start, steps: seq<Step>, more: seq<Step>, id: Id, c: Cell)
    requires Exec(cfg, start, steps).Some? && Exec(cfg, start, steps + more).Some? && Untouched(more, id)
    requires LivesUntil(Exec(cfg, start, steps).value, id, c)
    ensures LivesUntil(Exec(cfg, start, steps + more).value, id, c)
  {
    if more == [] {
      assert steps + more == steps;
    } else {
      var early := more[..|more| - 1];
      assert (steps + more)[..|steps + more| - 1] == steps + early;
      LifeGoesOn(cfg, start, steps, early, id, c);
      LifeStep(cfg, Exec(cfg, start, steps + early).value, more[|more| - 1], id, c);
    }
  }

  /** A stat that is written and left alone is cached for exactly `ttl`. */
  lemma WrittenLivesForTtl(cfg: Config, start: Start, steps: seq<Step>, stat: StatPacket, more: seq<Step>)
    requires Exec(cfg, start, steps).Some? && Exec(cfg, start, (steps + [Write(stat)]) + more).Some?
    requires Untouched(more, stat.characterId)
    ensures var s, r := Exec(cfg, start, steps).value, Exec(cfg, start, (steps + [Write(stat)]) + more).value;
            && (Live(r, stat.characterId) <==> r.clock < s.clock + cfg.ttl)
            && (Live(r, stat.characterId) ==> r.cache[stat.characterId].stat == stat)
  {
    var longer := Then(cfg, start, steps, Write(stat));
    LifeGoesOn(cfg, start, longer, more, stat.characterId, Exec(cfg, start, longer).value.cache[stat.characterId]);
  }

  /** The entry is dead, and the worker does not have it in hand. */
  predicate Lost(s: State, id: Id) {
    !Live(s, id) && (s.phase.Got? ==> s.phase.stat.characterId != id)
  }

  lemma LostGetNext(start: Start, s: State, reply: GetReply, id: Id)
    requires Provenance(s, start) && Lost(s, id) && DoGetNext(s, reply).Some?
    requires reply.ErrorReply? ==> Decode(reply.bytes).characterId != id
    ensures Lost(DoGetNext(s, reply).value, id)
  {
    if reply.Answer? && Live(s, s.phase.ids[0]) {
      assert CellOk(s, s.phase.ids[0]);
    }
  }

  lemma StaysDead(cfg: Config, s: State, e: Step, id: Id)
    requires Lost(s, id) && Next(cfg, s, e).Some? && !Writes(e, id) && !e.GetNext?
    ensures Lost(Next(cfg, s, e).value, id)
  {
  }

  lemma LostStep(cfg: Config, start: Start, s: State, e: Step, id: Id)
    requires Provenance(s, start) && Lost(s, id) && Next(cfg, s, e).Some? && !Writes(e, id)
    requires e.GetNext? && e.reply.ErrorReply? ==> Decode(e.reply.bytes).characterId != id
    ensures var r := Next(cfg, s, e).value;
            Lost(r, id) && (id in s.rows ==> id in r.rows && r.rows[id] == s.rows[id])
  {
    RowStep(cfg, s, e);
    if e.GetNext? {
      LostGetNext(start, s, e.reply, id);
    } else {
      StaysDead(cfg, s, e, id);
    }
  }

  /** What is deleted or has expired stays out of its row: nothing changes that but another write. */
  lemma {:induction false} LostIsLost(cfg: Config, start: Start, steps: seq<Step>, more: seq<Step>, id: Id)
    requires Exec(cfg, start, steps).Some? && Exec(cfg, start, steps + more).Some? && id in start.rows
    requires Lost(Exec(cfg, start, steps).value, id) && NoErrorNames(more, id)
    requires forall e | e in more :: !Writes(e, id)
    ensures var s, r := Exec(cfg, start, steps).value, Exec(cfg, start, steps + more).value;
            Lost(r, id) && id in s.rows && id in r.rows && r.rows[id] == s.rows[id]
  {
    if more == [] {
      assert steps + more == steps;
      RunKeeps(cfg, start, steps);
    } else {
      var early := more[..|more| - 1];
      assert (steps + more)[..|steps + more| - 1] == steps + early;
      LostIsLost(cfg, start, steps, early, id);
      RunKeeps(cfg, start, steps + early);
      LostStep(cfg, start, Exec(cfg, start, steps + early).value, more[|more| - 1], id);
    }
  }

  /** A deletion takes effect at once. */
  lemma DeletedIsGone(cfg: Config, start: Start, steps: seq<Step>, id: Id)
    requires Exec(cfg, start, steps + [Delete(id)]).Some?
    ensures !Live(Exec(cfg, start, steps + [Delete(id)]).value, id)
  {
    assert (steps + [Delete(id)])[..|steps|] == steps;
  }
}
