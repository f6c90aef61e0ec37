/** Every step of the write-behind cache keeps its invariants. */
module WriteBehindInvariant {
  import opened RedisManagers
  import opened WriteBehind

  lemma CopyTimingKept(cfg: Config, s: State, e: Step)
    requires Timing(cfg, s) && Next(cfg, s, e).Some? && (e.GetNext? || e.Update?)
    ensures Timing(cfg, Next(cfg, s, e).value)
  {
  }

  lemma TimingKept(cfg: Config, s: State, e: Step)
    requires Timing(cfg, s) && Next(cfg, s, e).Some?
    ensures Timing(cfg, Next(cfg, s, e).value)
  {
    if e.GetNext? || e.Update? {
      CopyTimingKept(cfg, s, e);
    }
  }

  /** What a step does to the log of a character. */
  lemma LogStep(cfg: Config, s: State, e: Step, id: Id)
    requires Next(cfg, s, e).Some?
    ensures Log(Next(cfg, s, e).value, id)
         == if e.Write? && e.stat.characterId == id then Log(s, id) + [e.stat] else Log(s, id)
  {
  }

  /** What a step does to a row. */
  lemma RowStep(cfg: Config, s: State, e: Step)
    requires Next(cfg, s, e).Some?
    ensures var r := Next(cfg, s, e).value;
            && r.rows.Keys == s.rows.Keys
            && (r.failed <==> Fails(e) || (!e.Wake? && s.failed))
            && forall id | id in s.rows ::
                 r.rows[id] == if e.Update? && e.applied && s.phase.Got? && s.phase.stat.characterId == id
                               then Updated(s.rows[id], s.phase.stat, s.phase.version) else s.rows[id]
  {
  }

  lemma RowKept(cfg: Config, start: Start, s: State, e: Step, id: Id)
    requires id in s.rows && id in start.rows && RowOk(s, start, id) && GotOk(s) && Next(cfg, s, e).Some?
    ensures id in Next(cfg, s, e).value.rows && RowOk(Next(cfg, s, e).value, start, id)
  {
    RowStep(cfg, s, e);
    LogStep(cfg, s, e, id);
  }

  lemma CellKept(cfg: Config, s: State, e: Step, id: Id)
    requires Next(cfg, s, e).Some? && id in Next(cfg, s, e).value.cache
    requires id in s.cache ==> CellOk(s, id)
    ensures CellOk(Next(cfg, s, e).value, id)
  {
    LogStep(cfg, s, e, id);
  }

  /** What the flusher gets from the cache is what the log has last for that character. */
  lemma GotFresh(start: Start, s: State, reply: GetReply)
    requires Provenance(s, start) && DoGetNext(s, reply).Some?
    ensures GotOk(DoGetNext(s, reply).value)
  {
    if reply.Answer? && Live(s, s.phase.ids[0]) {
      var id := s.phase.ids[0];
      assert CellOk(s, id);
      assert id in s.rows ==> RowOk(s, start, id);
    }
  }

  lemma GotKept(cfg: Config, start: Start, s: State, e: Step)
    requires Provenance(s, start) && Next(cfg, s, e).Some?
    ensures GotOk(Next(cfg, s, e).value)
  {
    var r := Next(cfg, s, e).value;
    if e.GetNext? {
      GotFresh(start, s, e.reply);
    } else if r.phase.Got? {
      LogStep(cfg, s, e, r.phase.stat.characterId);
    }
  }

  lemma ProvenanceKept(cfg: Config, start: Start, s: State, e: Step)
    requires Provenance(s, start) && Next(cfg, s, e).Some?
    ensures Provenance(Next(cfg, s, e).value, start)
  {
    var r := Next(cfg, s, e).value;
    RowStep(cfg, s, e);
    forall id | id in r.rows
      ensures RowOk(r, start, id)
    {
      RowKept(cfg, start, s, e, id);
    }
    forall id | id in r.cache
      ensures CellOk(r, id)
    {
      CellKept(cfg, s, e, id);
    }
    GotKept(cfg, start, s, e);
  }

  /** An entry that lives and is not in its row was so before, unless the step wrote it. */
  lemma UnsavedBefore(cfg: Config, s: State, e: Step, id: Id)
    requires GotOk(s) && Next(cfg, s, e).Some? && !(e.Write? && e.stat.characterId == id)
    requires var r := Next(cfg, s, e).value; !r.failed && Unsaved(r, id) && Live(r, id)
    ensures Next(cfg, s, e).value.cache[id] == s.cache[id]
    ensures Live(s, id) && (!e.Wake? ==> !s.failed && Unsaved(s, id))
  {
    RowStep(cfg, s, e);
  }

  /** The step of one entry through a flush. */
  lemma CopyDueKept(s: State, reply: GetReply, id: Id)
    requires DoGetNext(s, reply).Some? && !DoGetNext(s, reply).value.failed
    requires id in s.cache && CellOk(s, id) && Live(s, id) && Due(s, id)
    ensures Due(DoGetNext(s, reply).value, id)
  {
    if id in s.phase.ids {
      assert id == s.phase.ids[0] || id in s.phase.ids[1..];
    }
  }

  lemma DueKept(cfg: Config, s: State, e: Step, id: Id)
    requires Timing(cfg, s) && Next(cfg, s, e).Some? && !(e.Write? && e.stat.characterId == id)
    requires id in s.cache && CellOk(s, id) && Live(s, id) && (e.Wake? || Due(s, id))
    requires var r := Next(cfg, s, e).value; !r.failed && Unsaved(r, id) && r.cache[id] == s.cache[id]
    ensures Due(Next(cfg, s, e).value, id)
  {
    if e.GetNext? {
      CopyDueKept(s, e.reply, id);
    }
  }

  lemma SettledKept(cfg: Config, start: Start, s: State, e: Step)
    requires Provenance(s, start) && Timing(cfg, s) && Settled(s) && Next(cfg, s, e).Some?
    ensures Settled(Next(cfg, s, e).value)
  {
    var r := Next(cfg, s, e).value;
    if !r.failed {
      forall id | Unsaved(r, id) && Live(r, id)
        ensures Due(r, id)
      {
        if !(e.Write? && e.stat.characterId == id) {
          UnsavedBefore(cfg, s, e, id);
          DueKept(cfg, s, e, id);
        }
      }
    }
  }

  lemma {:induction false} RunKeeps(cfg: Config, start: Start, steps: seq<Step>)
    requires Exec(cfg, start, steps).Some?
    ensures var s := Exec(cfg, start, steps).value;
            Provenance(s, start) && Timing(cfg, s) && Settled(s)
  {
    if steps != [] {
      var before, e := steps[..|steps| - 1], steps[|steps| - 1];
      RunKeeps(cfg, start, before);
      var s := Exec(cfg, start, before).value;
      ProvenanceKept(cfg, start, s, e);
      TimingKept(cfg, s, e);
      SettledKept(cfg, start, s, e);
    }
  }
}
