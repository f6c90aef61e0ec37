/** What Stop leaves behind. */
module WriteBehindStop {
  import opened Bytes
  import opened RedisManagers
  import opened WriteBehind
  import opened WriteBehindInvariant
  import opened WriteBehindTheorems
  import opened WriteBehindTime
  import opened WriteBehindExpiry

  /** The flag dropped while the worker was in its timed wait. */
  predicate FlagDroppedInWait(cfg: Config, start: Start, steps: seq<Step>)
    requires Exec(cfg, start, steps).Some?
  {
    if steps == [] then false
    else
      var before := steps[..|steps| - 1];
      var s := Exec(cfg, start, before).value;
      if steps[|steps| - 1].Stop? && s.running then s.phase.Waiting? else FlagDroppedInWait(cfg, start, before)
  }

  /** How the flag and the phase go together once the flag has dropped, in the wait or elsewhere. */
  predicate OnTheWayOut(s: State, inWait: bool) {
    if s.running then !inWait && !s.phase.Stopped? && (InFlush(s) ==> !s.phase.final)
    else if inWait then s.phase.Waiting? || (InFlush(s) && s.phase.final) || s.phase == Stopped(true)
    else s.phase.AtLoop? || (InFlush(s) && !s.phase.final) || s.phase == Stopped(false)
  }

  lemma WayOutStep(cfg: Config, s: State, e: Step, inWait: bool)
    requires OnTheWayOut(s, inWait) && Next(cfg, s, e).Some?
    ensures OnTheWayOut(Next(cfg, s, e).value, if e.Stop? && s.running then s.phase.Waiting? else inWait)
  {
  }

  /** The worker leaves by a last flush exactly when the flag dropped during the wait. */
  lemma {:induction false} LastFlushIffDroppedInWait(cfg: Config, start: Start, steps: seq<Step>)
    requires Exec(cfg, start, steps).Some?
    ensures var s := Exec(cfg, start, steps).value;
            && OnTheWayOut(s, FlagDroppedInWait(cfg, start, steps))
            && (s.phase.Stopped? ==> (s.phase.flushed <==> FlagDroppedInWait(cfg, start, steps)))
  {
    if steps != [] {
      var before := steps[..|steps| - 1];
      LastFlushIffDroppedInWait(cfg, start, before);
      WayOutStep(cfg, Exec(cfg, start, before).value, steps[|steps| - 1], FlagDroppedInWait(cfg, start, before));
    }
  }

  /**
   However the worker leaves, and whatever failed before: if nothing failed in its last flush, every live
   stat written before that flush began is in its row; and if the flag dropped in the wait, every live
   stat written before it dropped.
   */
  lemma FinalFlushSaves(cfg: Config, start: Start, steps: seq<Step>, id: Id)
    requires Exec(cfg, start, steps).Some? && LastFlushClean(steps) && id in start.rows
    requires Exec(cfg, start, steps).value.phase.Stopped? && Live(Exec(cfg, start, steps).value, id)
    requires UnwrittenSinceWake(steps, id) || (FlagDroppedInWait(cfg, start, steps) && UnwrittenSinceStop(steps, id))
    ensures Saved(Exec(cfg, start, steps).value, id, Exec(cfg, start, steps).value.cache[id])
  {
    StopTimes(cfg, start, steps);
    LastFlushIffDroppedInWait(cfg, start, steps);
    StampsAreMeant(cfg, start, steps, id);
    CleanFlushSaves(cfg, start, steps, id);
  }

  lemma StopTimes(cfg: Config, start: Start, steps: seq<Step>)
    requires Exec(cfg, start, steps).Some? && Exec(cfg, start, steps).value.phase.Stopped?
    ensures var s := Exec(cfg, start, steps).value;
            s.stopStamp.Some? && (s.phase.flushed ==> s.stopStamp.value <= s.flushStamp)
  {
    RunKeeps(cfg, start, steps);
  }

  /** If the flag drops during a flush it leaves without another one, and a stat cached before can be left behind. */
  lemma StopDuringFlushLosesWrites(cfg: Config) returns (steps: seq<Step>)
    ensures Exec(cfg, OneRow(), steps).Some?
    ensures var s := Exec(cfg, OneRow(), steps).value;
            && s.phase == Stopped(false) && Unsaved(s, 1)
            && Live(s, 1) == (cfg.ttl > 0) && s.rows[1].row != Project(s.cache[1].stat)
    ensures LastFlushClean(steps) && UnwrittenSinceStop(steps, 1)
  {
    var before;
    before, steps := MissedWrite(cfg);
    steps := Then(cfg, OneRow(), steps, Stop);
    steps := Then(cfg, OneRow(), steps, FlushEnds);
    steps := Then(cfg, OneRow(), steps, TestLoop);
    FailedInLastFlush(cfg, OneRow(), steps);
    StampsAreMeant(cfg, OneRow(), steps, 1);
  }

  /** What the next process finds at `clock`. */
  function Restart(s: State, clock: nat): Found {
    Found(clock,
          map id | id in s.rows :: s.rows[id].row,
          map id | id in s.cache :: Left(s.cache[id].stat, s.cache[id].expiry))
  }

  /** The next process saves what was left behind, if the entry lives for a wait and two flushes of it. */
  lemma NextProcessSaves(cfg: Config, start: Start, steps: seq<Step>, clock: nat, id: Id)
    returns (next: Start, more: seq<Step>)
    requires cfg.interval + cfg.maxFlush > 0 && Exec(cfg, start, steps).Some? && id in start.rows
    requires var s := Exec(cfg, start, steps).value;
             id in s.cache && clock + cfg.interval + 2 * cfg.maxFlush < s.cache[id].expiry
    ensures next == Restart(Exec(cfg, start, steps).value, clock) && AllCalm(more) && Exec(cfg, next, more).Some?
    ensures var r := Exec(cfg, next, more).value;
            id in r.rows && r.rows[id].row == Project(Exec(cfg, start, steps).value.cache[id].stat)
  {
    OwnEntries(cfg, start, steps, id);
    next := Restart(Exec(cfg, start, steps).value, clock);
    more := GetsSaved(cfg, next, [], id);
    assert [] + more == more;
  }

  lemma OwnEntries(cfg: Config, start: Start, steps: seq<Step>, id: Id)
    requires Exec(cfg, start, steps).Some? && id in start.rows
    ensures var s := Exec(cfg, start, steps).value;
            id in s.rows && forall k | k in s.cache :: s.cache[k].stat.characterId == k
  {
    RunKeeps(cfg, start, steps);
    var s := Exec(cfg, start, steps).value;
    assert forall k | k in s.cache :: CellOk(s, k);
  }

  /** A step towards the end that needs no time. */
  predicate Prompt(e: Step) {
    Calm(e) && !e.Tick?
  }

  function EndRank(s: State): nat {
    match s.phase
    case Stopped(_) => 0
    case AtLoop => 1
    case Copying(_, _) => 2
    case Got(_, _, _, _) => 2
    case Scanning(_) => 3
    case Waiting(_) => 4
  }

  lemma PromptStep(cfg: Config, s: State) returns (e: Step)
    requires !s.running && !s.phase.Stopped?
    ensures Prompt(e) && Next(cfg, s, e).Some?
    ensures var r := Next(cfg, s, e).value;
            !r.running && (EndRank(r) < EndRank(s) || (EndRank(r) == EndRank(s) && CopyRank(r) < CopyRank(s)))
  {
    match s.phase
    case Waiting(_) => e := Wake;
    case Scanning(_) =>
      var ids := ListOf(s.stable);
      e := ScanEnds(ids, true);
    case Copying(_, ids) => e := if ids == [] then FlushEnds else GetNext(Answer);
    case Got(_, _, _, _) => e := Update(true, true);
    case AtLoop => e := TestLoop;
  }

  /** Stop comes back: once the flag is down the worker leaves without waiting for any time to pass. */
  lemma {:induction false} StopComesBack(cfg: Config, start: Start, steps: seq<Step>) returns (more: seq<Step>)
    requires Exec(cfg, start, steps).Some? && !Exec(cfg, start, steps).value.running
    ensures (forall e | e in more :: Prompt(e)) && Exec(cfg, start, steps + more).Some?
    ensures Exec(cfg, start, steps + more).value.phase.Stopped?
    decreases EndRank(Exec(cfg, start, steps).value), CopyRank(Exec(cfg, start, steps).value)
  {
    if Exec(cfg, start, steps).value.phase.Stopped? {
      more := [];
      assert steps + more == steps;
    } else {
      var e := PromptStep(cfg, Exec(cfg, start, steps).value);
      var longer := Then(cfg, start, steps, e);
      var rest := StopComesBack(cfg, start, longer);
      more := [e] + rest;
      Reassociate(steps, [e], rest);
    }
  }
}
