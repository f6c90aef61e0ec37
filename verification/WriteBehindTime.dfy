/** The deadlines of the worker's phases do not stop the clock. */
module WriteBehindTime {
  import opened Bytes
  import opened RedisManagers
  import opened WriteBehind
  import opened WriteBehindInvariant
  import opened WriteBehindTheorems

  /** A step of the worker or of time, with everything it asks for answered. */
  predicate Calm(e: Step) {
    match e
    case ScanEnds(_, ok) => ok
    case GetNext(reply) => reply.Answer?
    case Update(ok, _) => ok
    case _ => e.TestLoop? || e.Wake? || e.FlushEnds? || e.Tick?
  }

  predicate AllCalm(steps: seq<Step>) {
    forall e | e in steps :: Calm(e)
  }

  function PhaseRank(s: State): nat {
    match s.phase
    case AtLoop => 0
    case Copying(_, _) => 1
    case Got(_, _, _, _) => 1
    case Scanning(_) => 2
    case Waiting(wake) => if s.clock < wake then 4 else 3
    case Stopped(_) => 0
  }

  function CopyRank(s: State): nat {
    match s.phase
    case Copying(_, ids) => 2 * |ids|
    case Got(_, _, _, ids) => 2 * |ids| + 1
    case _ => 0
  }

  lemma ListOf(ids: set<Id>) returns (list: seq<Id>)
    ensures forall id | id in ids :: id in list
  {
    if ids == {} {
      list := [];
    } else {
      var id :| id in ids;
      var rest := ListOf(ids - {id});
      list := [id] + rest;
    }
  }

  /** The worker can always take a step towards its loop. */
  lemma CalmStep(cfg: Config, s: State) returns (e: Step)
    requires s.running && Timing(cfg, s) && !s.phase.AtLoop?
    ensures Calm(e) && Next(cfg, s, e).Some?
    ensures var r := Next(cfg, s, e).value;
            && r.running && r.clock >= s.clock
            && (PhaseRank(r) < PhaseRank(s) || (PhaseRank(r) == PhaseRank(s) && CopyRank(r) < CopyRank(s)))
  {
    match s.phase
    case Waiting(wake) =>
      e := if s.clock < wake then Tick(wake - s.clock) else Wake;
    case Scanning(_) =>
      var ids := ListOf(s.stable);
      e := ScanEnds(ids, true);
    case Copying(_, ids) =>
      e := if ids == [] then FlushEnds else GetNext(Answer);
    case Got(_, _, _, _) =>
      e := Update(true, true);
  }

  lemma {:induction false} ToLoop(cfg: Config, start: Start, steps: seq<Step>) returns (more: seq<Step>)
    requires Exec(cfg, start, steps).Some? && Exec(cfg, start, steps).value.running
    ensures AllCalm(more) && Exec(cfg, start, steps + more).Some?
    ensures var s, r := Exec(cfg, start, steps).value, Exec(cfg, start, steps + more).value;
            r.phase.AtLoop? && r.running && r.clock >= s.clock
    decreases PhaseRank(Exec(cfg, start, steps).value), CopyRank(Exec(cfg, start, steps).value)
  {
    RunKeeps(cfg, start, steps);
    var s := Exec(cfg, start, steps).value;
    if s.phase.AtLoop? {
      more := [];
      assert steps + more == steps;
    } else {
      var e := CalmStep(cfg, s);
      var longer := Then(cfg, start, steps, e);
      var rest := ToLoop(cfg, start, longer);
      more := [e] + rest;
      Reassociate(steps, [e], rest);
    }
  }

  /** From the loop some time can pass, in the wait or in the flush behind it. */
  lemma FromLoop(cfg: Config, start: Start, steps: seq<Step>) returns (more: seq<Step>)
    requires cfg.interval + cfg.maxFlush > 0 && Exec(cfg, start, steps).Some?
    requires Exec(cfg, start, steps).value.running && Exec(cfg, start, steps).value.phase.AtLoop?
    ensures AllCalm(more) && Exec(cfg, start, steps + more).Some?
    ensures var s, r := Exec(cfg, start, steps).value, Exec(cfg, start, steps + more).value;
            r.running && r.clock == s.clock + 1
  {
    var longer := Then(cfg, start, steps, TestLoop);
    if cfg.interval > 0 {
      longer := Then(cfg, start, longer, Tick(1));
      more := [TestLoop, Tick(1)];
    } else {
      longer := Then(cfg, start, longer, Wake);
      longer := Then(cfg, start, longer, Tick(1));
      more := [TestLoop, Wake, Tick(1)];
    }
    assert longer == steps + more;
  }

  /**
   The deadlines of the phases do not stop the clock: unless waits and flushes take no time at all, a
   running worker goes on without failure beyond any moment.
   */
  lemma {:induction false} TimePasses(cfg: Config, start: Start, steps: seq<Step>, t: nat) returns (more: seq<Step>)
    requires cfg.interval + cfg.maxFlush > 0
    requires Exec(cfg, start, steps).Some? && Exec(cfg, start, steps).value.running
    ensures AllCalm(more) && Exec(cfg, start, steps + more).Some?
    ensures Exec(cfg, start, steps + more).value.running && Exec(cfg, start, steps + more).value.clock >= t
    decreases t - Exec(cfg, start, steps).value.clock
  {
    if Exec(cfg, start, steps).value.clock >= t {
      more := [];
      assert steps + more == steps;
    } else {
      var toLoop := ToLoop(cfg, start, steps);
      var tick := FromLoop(cfg, start, steps + toLoop);
      var rest := TimePasses(cfg, start, (steps + toLoop) + tick, t);
      more := toLoop + (tick + rest);
      Reassociate(steps + toLoop, tick, rest);
      Reassociate(steps, toLoop, tick + rest);
    }
  }

  lemma StoppedStays(cfg: Config, s: State, e: Step)
    requires s.phase.Stopped? && Next(cfg, s, e).Some?
    ensures Next(cfg, s, e).value.phase.Stopped?
  {
  }

  lemma ClockStep(cfg: Config, s: State, e: Step)
    requires cfg.interval == cfg.maxFlush == 0 && Timing(cfg, s) && !s.phase.Stopped? && Next(cfg, s, e).Some?
    ensures Next(cfg, s, e).value.clock == s.clock
  {
    if e.Tick? {
      assert Deadline(cfg, s).Some?;
    }
  }

  /** With waits and flushes that take no time at all, no time passes while the worker runs. */
  lemma {:induction false} TimeStandsStill(cfg: Config, start: Start, steps: seq<Step>)
    requires cfg.interval == cfg.maxFlush == 0
    requires Exec(cfg, start, steps).Some? && !Exec(cfg, start, steps).value.phase.Stopped?
    ensures Exec(cfg, start, steps).value.clock == start.clock
  {
    if steps != [] {
      var before, e := steps[..|steps| - 1], steps[|steps| - 1];
      RunKeeps(cfg, start, before);
      if Exec(cfg, start, before).value.phase.Stopped? {
        StoppedStays(cfg, Exec(cfg, start, before).value, e);
      }
      TimeStandsStill(cfg, start, before);
      ClockStep(cfg, Exec(cfg, start, before).value, e);
    }
  }

  /** Nothing of the time since `t` is left out of the wait. */
  predicate WaitsFrom(cfg: Config, s: State, t: nat) {
    s.clock >= t && (s.phase.Waiting? ==> s.phase.wake >= t + cfg.interval)
  }

  lemma WaitsStep(cfg: Config, s: State, e: Step, t: nat)
    requires WaitsFrom(cfg, s, t) && Next(cfg, s, e).Some?
    ensures WaitsFrom(cfg, Next(cfg, s, e).value, t)
  {
  }

  lemma {:induction false} WaitsOn(cfg: Config, start: Start, steps: seq<Step>, more: seq<Step>, t: nat)
    requires Exec(cfg, start, steps).Some? && Exec(cfg, start, steps + more).Some?
    requires WaitsFrom(cfg, Exec(cfg, start, steps).value, t)
    ensures WaitsFrom(cfg, Exec(cfg, start, steps + more).value, t)
  {
    if more == [] {
      assert steps + more == steps;
    } else {
      var early := more[..|more| - 1];
      assert (steps + more)[..|steps + more| - 1] == steps + early;
      WaitsOn(cfg, start, steps, early, t);
      WaitsStep(cfg, Exec(cfg, start, steps + early).value, more[|more| - 1], t);
    }
  }

  /** While the flag is up, flushes begin at least `interval` apart. */
  lemma FlushesAreApart(cfg: Config, start: Start, steps: seq<Step>, more: seq<Step>)
    requires Exec(cfg, start, steps + [Wake]).Some? && Exec(cfg, start, ((steps + [Wake]) + more) + [Wake]).Some?
    requires Exec(cfg, start, (steps + [Wake]) + more).Some? && Exec(cfg, start, (steps + [Wake]) + more).value.running
    ensures Exec(cfg, start, (steps + [Wake]) + more).value.clock
         >= Exec(cfg, start, steps + [Wake]).value.clock + cfg.interval
  {
    assert (((steps + [Wake]) + more) + [Wake])[..|(steps + [Wake]) + more|] == (steps + [Wake]) + more;
    assert (steps + [Wake])[..|steps|] == steps;
    WaitsOn(cfg, start, steps + [Wake], more, Exec(cfg, start, steps + [Wake]).value.clock);
  }
}
