/** What the write-behind cache guarantees over every run. */
module WriteBehindTheorems {
  import opened Bytes
  import opened StatPackets
  import opened RedisManagers
  import opened WriteBehind
  import opened WriteBehindInvariant

  /** The stats that a run writes for a character, in order. */
  function WritesOf(steps: seq<Step>, id: Id): seq<StatPacket> {
    if steps == [] then []
    else
      var before, e := WritesOf(steps[..|steps| - 1], id), steps[|steps| - 1];
      if e.Write? && e.stat.characterId == id then before + [e.stat] else before
  }

  /** Every stat ever cached for a character: the one found at the start, then those of the run. */
  function CachedFor(start: Start, steps: seq<Step>, id: Id): seq<StatPacket> {
    (if id in start.cache then [start.cache[id].stat] else []) + WritesOf(steps, id)
  }

  lemma {:induction false} LogIsTheWrites(cfg: Config, start: Start, steps: seq<Step>, id: Id)
    requires Exec(cfg, start, steps).Some?
    ensures Log(Exec(cfg, start, steps).value, id) == CachedFor(start, steps, id)
  {
    if steps != [] {
      var before, e := steps[..|steps| - 1], steps[|steps| - 1];
      LogIsTheWrites(cfg, start, before, id);
      LogStep(cfg, Exec(cfg, start, before).value, e, id);
    }
  }

  // ------------------------------------------------------------------
  // Where rows come from
  // ------------------------------------------------------------------

  /** The step brings the text of an error reply that names the character and stands for the row. */
  predicate Spells(e: Step, id: Id, row: Row) {
    e.GetNext? && e.reply.ErrorReply? && Decode(e.reply.bytes).characterId == id
    && Project(Decode(e.reply.bytes)) == row
  }

  predicate SpelledIn(steps: seq<Step>, id: Id, row: Row) {
    exists i :: 0 <= i < |steps| && Spells(steps[i], id, row)
  }

  lemma SpelledLater(steps: seq<Step>, e: Step, id: Id, row: Row)
    requires SpelledIn(steps, id, row) || Spells(e, id, row)
    ensures SpelledIn(steps + [e], id, row)
  {
    if Spells(e, id, row) {
      assert (steps + [e])[|steps|] == e;
    } else {
      var i :| 0 <= i < |steps| && Spells(steps[i], id, row);
      assert (steps + [e])[i] == steps[i];
    }
  }

  /** Every error text in the row or in the worker's hand is that of an error reply of the run. */
  predicate TextsSpelled(s: State, steps: seq<Step>, id: Id) {
    && (id in s.rows && s.rows[id].garbled ==> SpelledIn(steps, id, s.rows[id].row))
    && (s.phase.Got? && s.phase.version.None? && s.phase.stat.characterId == id ==>
          SpelledIn(steps, id, Project(s.phase.stat)))
  }

  lemma TextsStep(cfg: Config, s: State, steps: seq<Step>, e: Step, id: Id)
    requires TextsSpelled(s, steps, id) && Next(cfg, s, e).Some?
    ensures TextsSpelled(Next(cfg, s, e).value, steps + [e], id)
  {
    RowStep(cfg, s, e);
    forall row | SpelledIn(steps, id, row) || Spells(e, id, row)
      ensures SpelledIn(steps + [e], id, row)
    {
      SpelledLater(steps, e, id, row);
    }
  }

  lemma {:induction false} TextsAreSpelled(cfg: Config, start: Start, steps: seq<Step>, id: Id)
    requires Exec(cfg, start, steps).Some?
    ensures TextsSpelled(Exec(cfg, start, steps).value, steps, id)
  {
    if steps != [] {
      var before, e := steps[..|steps| - 1], steps[|steps| - 1];
      TextsAreSpelled(cfg, start, before, id);
      TextsStep(cfg, Exec(cfg, start, before).value, before, e, id);
      assert before + [e] == steps;
    }
  }

  /**
   Provenance: under every interleaving, whatever scans, gets and updates fail, the table keeps its
   rows, and each is its initial row, the projection of the version-th stat cached for that same
   character, or the text of an error reply of the run that names it.
   */
  lemma RowsComeFromWrites(cfg: Config, start: Start, steps: seq<Step>, id: Id)
    requires Exec(cfg, start, steps).Some? && id in start.rows
    ensures var s, cached := Exec(cfg, start, steps).value, CachedFor(start, steps, id);
            && s.rows.Keys == start.rows.Keys
            && s.rows[id].version <= |cached|
            && (s.rows[id].row == Version(start, cached, id, s.rows[id].version)
                || SpelledIn(steps, id, s.rows[id].row))
  {
    RunKeeps(cfg, start, steps);
    LogIsTheWrites(cfg, start, steps, id);
    TextsAreSpelled(cfg, start, steps, id);
    assert RowOk(Exec(cfg, start, steps).value, start, id);
  }

  /** The row is the initial one or the projection of something once cached for the character. */
  predicate Traced(start: Start, steps: seq<Step>, id: Id, row: Row)
    requires id in start.rows
  {
    row == start.rows[id] || exists stat :: stat in CachedFor(start, steps, id) && row == Project(stat)
  }

  predicate ErrorsAmong(steps: seq<Step>, texts: set<StatBytes>) {
    forall i | 0 <= i < |steps| && steps[i].GetNext? && steps[i].reply.ErrorReply? :: steps[i].reply.bytes in texts
  }

  /** Whatever happens, as long as the texts of error replies are among these, the row can be traced. */
  ghost predicate AlwaysTraced(cfg: Config, texts: set<StatBytes>, id: Id) {
    forall start: Start, steps: seq<Step> |
      id in start.rows && Exec(cfg, start, steps).Some? && ErrorsAmong(steps, texts) ::
      id in Exec(cfg, start, steps).value.rows
      && Traced(start, steps, id, Exec(cfg, start, steps).value.rows[id].row)
  }

  /** A cache and a table that agree on one character, and differ from `p` in the level. */
  function OtherLevel(p: StatPacket): StatPacket {
    p.(level := if p.level == 0 then 1 else 0)
  }

  function InAgreement(q: StatPacket): Start {
    Found(0, map[q.characterId := Project(q)], map[q.characterId := Left(q, 1)])
  }

  lemma Then(cfg: Config, start: Start, steps: seq<Step>, e: Step) returns (longer: seq<Step>)
    requires Exec(cfg, start, steps).Some? && Next(cfg, Exec(cfg, start, steps).value, e).Some?
    ensures longer == steps + [e]
    ensures Exec(cfg, start, longer) == Next(cfg, Exec(cfg, start, steps).value, e)
  {
    longer := steps + [e];
    assert longer[..|longer| - 1] == steps;
  }

  /** A first flush that has found the ids to copy. */
  lemma FirstScan(cfg: Config, start: Start, ids: seq<Id>) returns (steps: seq<Step>)
    requires forall id | id in start.cache :: id in ids
    ensures steps == [TestLoop, Tick(cfg.interval), Wake, ScanEnds(ids, true)] && Exec(cfg, start, steps).Some?
    ensures var s := Exec(cfg, start, steps).value;
            s == Init(start).(clock := start.clock + cfg.interval, phase := Copying(false, ids),
                              flushStart := s.clock, flushStamp := 1, stable := s.stable)
  {
    steps := Then(cfg, start, [], TestLoop);
    steps := Then(cfg, start, steps, Tick(cfg.interval));
    steps := Then(cfg, start, steps, Wake);
    steps := Then(cfg, start, steps, ScanEnds(ids, true));
  }

  /** A first flush in which one GET is answered by an error. */
  function ErrorRun(cfg: Config, bytes: StatBytes): seq<Step> {
    [TestLoop, Tick(cfg.interval), Wake, ScanEnds([Decode(bytes).characterId], true)]
    + [GetNext(ErrorReply(bytes)), Update(true, true)]
  }

  lemma ErrorCopied(cfg: Config, start: Start, steps: seq<Step>, bytes: StatBytes) returns (longer: seq<Step>)
    requires Exec(cfg, start, steps).Some?
    requires var s, id := Exec(cfg, start, steps).value, Decode(bytes).characterId;
             s.phase == Copying(false, [id]) && id in s.rows
    ensures longer == steps + [GetNext(ErrorReply(bytes)), Update(true, true)] && Exec(cfg, start, longer).Some?
    ensures var s, p := Exec(cfg, start, steps).value, Decode(bytes);
            Exec(cfg, start, longer).value.rows
            == s.rows[p.characterId := Updated(s.rows[p.characterId], p, None)]
  {
    longer := Then(cfg, start, steps, GetNext(ErrorReply(bytes)));
    longer := Then(cfg, start, longer, Update(true, true));
  }

  /** One error reply to a GET is enough to put its text into the row that it names. */
  lemma ErrorTextReachesRow(cfg: Config, bytes: StatBytes)
    ensures var p := Decode(bytes); var start := InAgreement(OtherLevel(p));
            && Exec(cfg, start, ErrorRun(cfg, bytes)).Some?
            && Exec(cfg, start, ErrorRun(cfg, bytes)).value.rows == map[p.characterId := Stored(Project(p), 0, true)]
  {
    var p := Decode(bytes);
    var start := InAgreement(OtherLevel(p));
    var scanned := FirstScan(cfg, start, [p.characterId]);
    var steps := ErrorCopied(cfg, start, scanned, bytes);
    assert steps == ErrorRun(cfg, bytes);
  }

  lemma ErrorRunWritesNothing(cfg: Config, bytes: StatBytes, id: Id)
    ensures ErrorsAmong(ErrorRun(cfg, bytes), {bytes}) && WritesOf(ErrorRun(cfg, bytes), id) == []
  {
    NothingWritten(ErrorRun(cfg, bytes), id);
  }

  lemma {:induction false} NothingWritten(steps: seq<Step>, id: Id)
    requires forall i | 0 <= i < |steps| :: !(steps[i].Write? && steps[i].stat.characterId == id)
    ensures WritesOf(steps, id) == []
  {
    if steps != [] {
      NothingWritten(steps[..|steps| - 1], id);
    }
  }

  /**
   GetCharacterStat takes an error reply for a stat, so provenance is false without a condition. It
   holds of a character's row exactly if no possible error text spells the character's id.
   */
  lemma TracedIffNoErrorNames(cfg: Config, texts: set<StatBytes>, id: Id)
    ensures AlwaysTraced(cfg, texts, id) <==> forall bytes | bytes in texts :: Decode(bytes).characterId != id
  {
    if forall bytes | bytes in texts :: Decode(bytes).characterId != id {
      forall start: Start, steps: seq<Step> |
        id in start.rows && Exec(cfg, start, steps).Some? && ErrorsAmong(steps, texts)
        ensures id in Exec(cfg, start, steps).value.rows
        ensures Traced(start, steps, id, Exec(cfg, start, steps).value.rows[id].row)
      {
        RowsComeFromWrites(cfg, start, steps, id);
      }
    } else {
      var bytes :| bytes in texts && Decode(bytes).characterId == id;
      var start, steps := InAgreement(OtherLevel(Decode(bytes))), ErrorRun(cfg, bytes);
      ErrorTextReachesRow(cfg, bytes);
      ErrorRunWritesNothing(cfg, bytes, id);
      assert !Traced(start, steps, id, Exec(cfg, start, steps).value.rows[id].row);
    }
  }

  type Ascii = text: string | forall i | 0 <= i < |text| :: text[i] < 128 as char

  function AsBytes(text: Ascii): (bytes: seq<byte>)
    ensures |bytes| == |text| && forall i | 0 <= i < |text| :: bytes[i] as int == text[i] as int
  {
    seq(|text|, i requires 0 <= i < |text| => text[i] as int as byte)
  }

  /** What Redis answers to any command while a script keeps it busy, as far as it is copied. */
  const BUSY: Ascii := "BUSY" + " Redis i" + "s busy running a script. "

  lemma BusySpells()
    ensures AsBytes(BUSY)[4..12] == AsBytes(" Redis i")
  {
    assert BUSY[4..12] == " Redis i";
  }

  /** With that reply the row of the character whose id spells " Redis i" is overwritten by text. */
  lemma BusyReplyGarbles(cfg: Config) returns (id: Id)
    ensures EncodeInt(id, 8) == AsBytes(" Redis i")
    ensures !AlwaysTraced(cfg, {AsBytes(BUSY)}, id)
  {
    BusySpells();
    id := IdSpelled(AsBytes(BUSY));
    TracedIffNoErrorNames(cfg, {AsBytes(BUSY)}, id);
  }

  lemma IdSpelled(bytes: StatBytes) returns (id: Id)
    ensures id == Decode(bytes).characterId && EncodeInt(id, 8) == bytes[4..12]
  {
    id := Decode(bytes).characterId;
    StatLayout(Decode(bytes));
    StatRoundTrip(Decode(bytes), bytes);
  }

  lemma VersionStep(cfg: Config, s: State, e: Step, id: Id)
    requires GotOk(s) && id in s.rows && Next(cfg, s, e).Some?
    ensures var r := Next(cfg, s, e).value;
            id in r.rows && s.rows[id].version <= r.rows[id].version
  {
    RowStep(cfg, s, e);
  }

  /** Monotonicity: the version last copied into a row never goes back. */
  lemma {:induction false} RowsNeverGoBack(
    cfg: Config, start: Start, steps: seq<Step>, more: seq<Step>, id: Id)
    requires Exec(cfg, start, steps + more).Some? && id in start.rows
    ensures Exec(cfg, start, steps).Some?
    ensures var s, r := Exec(cfg, start, steps).value, Exec(cfg, start, steps + more).value;
            id in s.rows && id in r.rows && s.rows[id].version <= r.rows[id].version
  {
    if more == [] {
      assert steps + more == steps;
      RunKeeps(cfg, start, steps);
    } else {
      var early := more[..|more| - 1];
      assert (steps + more)[..|steps + more| - 1] == steps + early;
      RowsNeverGoBack(cfg, start, steps, early, id);
      RunKeeps(cfg, start, steps + early);
      VersionStep(cfg, Exec(cfg, start, steps + early).value, more[|more| - 1], id);
    }
  }

  // ------------------------------------------------------------------
  // When entries were written
  // ------------------------------------------------------------------

  predicate Writes(e: Step, id: Id) {
    e.Write? && e.stat.characterId == id
  }

  /** A flush has begun, and nothing has been written for the character since the last one did. */
  predicate UnwrittenSinceWake(steps: seq<Step>, id: Id) {
    steps != [] &&
    var e := steps[|steps| - 1];
    e.Wake? || (!Writes(e, id) && UnwrittenSinceWake(steps[..|steps| - 1], id))
  }

  /** The flag has dropped, and nothing has been written for the character since. */
  predicate UnwrittenSinceStop(steps: seq<Step>, id: Id) {
    steps != [] &&
    var before, e := steps[..|steps| - 1], steps[|steps| - 1];
    (e.Stop? && forall i | 0 <= i < |before| :: !before[i].Stop?) || (!Writes(e, id) && UnwrittenSinceStop(before, id))
  }

  /** What the numbers of the entries mean. */
  predicate StampsMean(s: State, steps: seq<Step>, id: Id) {
    && (id in s.cache ==>
          (s.cache[id].stamp < s.flushStamp <==> UnwrittenSinceWake(steps, id))
          && (s.stopStamp.Some? && s.cache[id].stamp < s.stopStamp.value <==> UnwrittenSinceStop(steps, id)))
    && (s.stopStamp.Some? <==> exists i :: 0 <= i < |steps| && steps[i].Stop?)
  }

  lemma StampStep(cfg: Config, s: State, steps: seq<Step>, e: Step, id: Id)
    requires StampsMean(s, steps, id) && Timing(cfg, s) && (id in s.cache ==> CellOk(s, id)) && Next(cfg, s, e).Some?
    ensures StampsMean(Next(cfg, s, e).value, steps + [e], id)
  {
    var r, longer := Next(cfg, s, e).value, steps + [e];
    assert longer[..|longer| - 1] == steps && longer[|steps|] == e;
    assert forall i | 0 <= i < |steps| :: longer[i] == steps[i];
    assert r.stopStamp == if e.Stop? && s.running then Some(s.writes) else s.stopStamp;
    assert r.flushStamp == if e.Wake? then s.writes else s.flushStamp;
    if id in r.cache {
      assert if Writes(e, id) then r.cache[id].stamp == s.writes else id in s.cache && r.cache[id] == s.cache[id];
    }
  }

  lemma {:induction false} StampsAreMeant(cfg: Config, start: Start, steps: seq<Step>, id: Id)
    requires Exec(cfg, start, steps).Some?
    ensures StampsMean(Exec(cfg, start, steps).value, steps, id)
  {
    if steps != [] {
      var before, e := steps[..|steps| - 1], steps[|steps| - 1];
      StampsAreMeant(cfg, start, before, id);
      RunKeeps(cfg, start, before);
      StampStep(cfg, Exec(cfg, start, before).value, before, e, id);
      assert before + [e] == steps;
    }
  }

  // ------------------------------------------------------------------
  // What a flush reads
  // ------------------------------------------------------------------

  /** The entry was alive when the last flush began and has been neither deleted nor dropped since. */
  predicate PresentSinceWake(cfg: Config, start: Start, steps: seq<Step>, id: Id)
    requires Exec(cfg, start, steps).Some?
  {
    steps != [] &&
    var before, e := steps[..|steps| - 1], steps[|steps| - 1];
    if e.Wake? then Live(Exec(cfg, start, before).value, id)
    else !(e.Delete? && e.id == id) && !(e.Expire? && e.id == id) && PresentSinceWake(cfg, start, before, id)
  }

  lemma StableStep(cfg: Config, s: State, e: Step, id: Id)
    requires Next(cfg, s, e).Some?
    ensures id in Next(cfg, s, e).value.stable
       <==> if e.Wake? then Live(s, id)
            else !(e.Delete? && e.id == id) && !(e.Expire? && e.id == id) && id in s.stable
  {
  }

  lemma {:induction false} StableIsPresent(cfg: Config, start: Start, steps: seq<Step>, id: Id)
    requires Exec(cfg, start, steps).Some?
    ensures id in Exec(cfg, start, steps).value.stable <==> PresentSinceWake(cfg, start, steps, id)
  {
    if steps != [] {
      StableIsPresent(cfg, start, steps[..|steps| - 1], id);
      StableStep(cfg, Exec(cfg, start, steps[..|steps| - 1]).value, steps[|steps| - 1], id);
    }
  }

  /** The guarantee of a scan, and no more: it may miss exactly what was not there throughout or is dead by now. */
  lemma ScanMayMiss(cfg: Config, start: Start, steps: seq<Step>, ids: seq<Id>)
    requires Exec(cfg, start, steps).Some? && Exec(cfg, start, steps).value.phase.Scanning?
    ensures Next(cfg, Exec(cfg, start, steps).value, ScanEnds(ids, true)).Some?
       <==> forall id | PresentSinceWake(cfg, start, steps, id) && Live(Exec(cfg, start, steps).value, id) :: id in ids
  {
    forall id: Id
      ensures id in Exec(cfg, start, steps).value.stable <==> PresentSinceWake(cfg, start, steps, id)
    {
      StableIsPresent(cfg, start, steps, id);
    }
  }

  /** The ids that the last scan returned, and how many of them have been read since. */
  function LastScan(steps: seq<Step>): seq<Id> {
    if steps == [] then []
    else
      var e := steps[|steps| - 1];
      if e.ScanEnds? then e.ids else LastScan(steps[..|steps| - 1])
  }

  function GetsSinceScan(steps: seq<Step>): nat {
    if steps == [] || steps[|steps| - 1].ScanEnds? then 0
    else GetsSinceScan(steps[..|steps| - 1]) + if steps[|steps| - 1].GetNext? then 1 else 0
  }

  /** The ids to go are those of the scan behind the ones that were read. */
  predicate ReadsInOrder(s: State, scan: seq<Id>, n: nat) {
    s.phase.Copying? || s.phase.Got? ==> n <= |scan| && s.phase.ids == scan[n..]
  }

  lemma ReadStep(cfg: Config, s: State, e: Step, scan: seq<Id>, n: nat)
    requires ReadsInOrder(s, scan, n) && Next(cfg, s, e).Some? && !e.ScanEnds?
    ensures ReadsInOrder(Next(cfg, s, e).value, scan, n + if e.GetNext? then 1 else 0)
  {
    if e.GetNext? {
      assert scan[n..][1..] == scan[n + 1..];
    }
  }

  /** Each id of a scan is read once, in order, whatever the replies are; so a flush of n ids makes n reads. */
  lemma {:induction false} EachIdIsReadOnce(cfg: Config, start: Start, steps: seq<Step>)
    requires Exec(cfg, start, steps).Some?
    ensures ReadsInOrder(Exec(cfg, start, steps).value, LastScan(steps), GetsSinceScan(steps))
  {
    if steps != [] {
      var before, e := steps[..|steps| - 1], steps[|steps| - 1];
      EachIdIsReadOnce(cfg, start, before);
      if !e.ScanEnds? {
        ReadStep(cfg, Exec(cfg, start, before).value, e, LastScan(before), GetsSinceScan(before));
      }
    }
  }
}
