/**
 The asynchronous logger: any number of threads enqueue under a lock and notify after releasing it,
 one consumer takes messages out and writes them, and the destructor drops the running flag and
 waits for the consumer.
 */
module AsyncLogger {
  import opened Bytes

  type ThreadId = nat

  datatype Consumer =
    | Checking               // awake, about to test the queue and the flag under the lock
    | Asleep                 // in the condition variable's wait
    | Writing(line: string)  // took a message, outside the lock
    | Exited

  datatype State = State(
    queue: seq<string>,
    running: bool,
    consumer: Consumer,
    notifying: set<ThreadId>,        // threads that changed queue or flag and have yet to notify
    // history
    enqueued: seq<string>,
    written: seq<string>,
    beforeShutdown: Option<nat>)     // how many messages were enqueued when the flag dropped

  const INIT: State := State([], true, Checking, {}, [], [], None)

  datatype Step =
    | Log(t: ThreadId, line: string)
    | Shutdown(t: ThreadId)
    | Notify(t: ThreadId)
    | Spurious
    | Check
    | Written

  function Next(s: State, e: Step): Option<State> {
    match e
    case Log(t, line) =>
      if t in s.notifying then None
      else Some(s.(queue := s.queue + [line], enqueued := s.enqueued + [line], notifying := s.notifying + {t}))
    case Shutdown(t) =>
      if t in s.notifying || !s.running then None
      else Some(s.(running := false, notifying := s.notifying + {t}, beforeShutdown := Some(|s.enqueued|)))
    case Notify(t) =>
      if t !in s.notifying then None
      else Some(s.(notifying := s.notifying - {t}, consumer := if s.consumer.Asleep? then Checking else s.consumer))
    case Spurious =>
      if !s.consumer.Asleep? then None else Some(s.(consumer := Checking))
    case Check =>
      if !s.consumer.Checking? then None
      else if s.queue != [] then Some(s.(consumer := Writing(s.queue[0]), queue := s.queue[1..]))
      else if !s.running then Some(s.(consumer := Exited))
      else Some(s.(consumer := Asleep))
    case Written =>
      if !s.consumer.Writing? then None
      else Some(s.(consumer := Checking, written := s.written + [s.consumer.line]))
  }

  function Exec(steps: seq<Step>): Option<State> {
    if steps == [] then Some(INIT)
    else
      var before := Exec(steps[..|steps| - 1]);
      if before.None? then None else Next(before.value, steps[|steps| - 1])
  }

  /** The lines of the Log steps, in order. */
  function LinesOf(steps: seq<Step>): seq<string> {
    if steps == [] then []
    else
      var before, e := LinesOf(steps[..|steps| - 1]), steps[|steps| - 1];
      if e.Log? then before + [e.line] else before
  }

  /** The lines logged before the flag dropped, if it has. */
  function LinesBeforeShutdown(steps: seq<Step>): Option<seq<string>> {
    if steps == [] then None
    else
      var before := steps[..|steps| - 1];
      if LinesBeforeShutdown(before).Some? || !steps[|steps| - 1].Shutdown? then LinesBeforeShutdown(before)
      else Some(LinesOf(before))
  }

  /** The lines of the Written steps are counted. */
  function WritesOf(steps: seq<Step>): nat {
    if steps == [] then 0 else WritesOf(steps[..|steps| - 1]) + if steps[|steps| - 1].Written? then 1 else 0
  }

  function InHand(s: State): seq<string> {
    if s.consumer.Writing? then [s.consumer.line] else []
  }

  predicate Inv(s: State) {
    && s.written + InHand(s) + s.queue == s.enqueued
    && (s.consumer.Asleep? && (s.queue != [] || !s.running) ==> s.notifying != {})
    && (s.beforeShutdown.Some? <==> !s.running)
    && (s.beforeShutdown.Some? ==> s.beforeShutdown.value <= |s.enqueued|)
    && (s.consumer.Exited? ==> !s.running && s.beforeShutdown.value <= |s.written|)
  }

  lemma StepKeeps(s: State, e: Step)
    requires Inv(s) && Next(s, e).Some?
    ensures Inv(Next(s, e).value)
  {
    if e.Check? && s.queue != [] {
      assert s.written + [s.queue[0]] + s.queue[1..] == s.written + s.queue;
    }
    if e.Log? {
      Reassociate(s.written + InHand(s), s.queue, [e.line]);
    }
  }

  /** The histories of the state are those of the run. */
  predicate Recorded(s: State, steps: seq<Step>) {
    && s.enqueued == LinesOf(steps)
    && |s.written| == WritesOf(steps)
    && (s.running <==> LinesBeforeShutdown(steps).None?)
    && (!s.running ==>
          s.beforeShutdown == Some(|LinesBeforeShutdown(steps).value|)
          && LinesBeforeShutdown(steps).value <= s.enqueued)
  }

  lemma StepRecorded(s: State, steps: seq<Step>, e: Step)
    requires Inv(s) && Recorded(s, steps) && Next(s, e).Some?
    ensures Recorded(Next(s, e).value, steps + [e])
  {
    assert (steps + [e])[..|steps|] == steps;
  }

  lemma {:induction false} RunKeeps(steps: seq<Step>)
    requires Exec(steps).Some?
    ensures Inv(Exec(steps).value) && Recorded(Exec(steps).value, steps)
  {
    if steps != [] {
      var before, e := steps[..|steps| - 1], steps[|steps| - 1];
      RunKeeps(before);
      StepKeeps(Exec(before).value, e);
      StepRecorded(Exec(before).value, before, e);
      assert before + [e] == steps;
    }
  }

  /**
   Nothing is lost, repeated or reordered, and no wakeup is missed: what has been written, is in hand and
   is queued are the lines of all Log steps in order, and a consumer that sleeps although there is work is
   about to be notified. It exits only after shutdown, and by then every line logged before the flag
   dropped is written.
   */
  lemma NothingIsLost(steps: seq<Step>)
    requires Exec(steps).Some?
    ensures var s := Exec(steps).value;
            && s.written + InHand(s) + s.queue == LinesOf(steps) && |s.written| == WritesOf(steps)
            && (s.running <==> LinesBeforeShutdown(steps).None?)
            && (s.consumer.Asleep? && (s.queue != [] || !s.running) ==> s.notifying != {})
            && (s.consumer.Exited? ==> !s.running && LinesBeforeShutdown(steps).value <= s.written)
  {
    RunKeeps(steps);
    var s := Exec(steps).value;
    if s.consumer.Exited? {
      assert s.enqueued == s.written + s.queue;
      assert s.enqueued[..s.beforeShutdown.value] == s.written[..s.beforeShutdown.value];
    }
  }

  predicate FromOutside(e: Step) {
    e.Log? || e.Shutdown? || e.Spurious?
  }

  /** The steps that notifiers and consumer still owe each other. */
  function Work(s: State): nat {
    3 * |s.queue| + 2 * |s.notifying|
    + match s.consumer
      case Checking => 1
      case Writing(_) => 2
      case _ => 0
  }

  lemma StepWorks(s: State, e: Step)
    requires Next(s, e).Some?
    ensures !FromOutside(e) ==> Work(Next(s, e).value) < Work(s)
  {
  }

  /** The destructor's join returns: after the flag drops the logger runs on to the consumer's exit by itself. */
  lemma {:induction false} ShutdownDrains(steps: seq<Step>) returns (more: seq<Step>)
    requires Exec(steps).Some? && !Exec(steps).value.running
    ensures Exec(steps + more).Some? && Exec(steps + more).value.consumer.Exited?
    ensures forall i | 0 <= i < |more| :: !FromOutside(more[i])
    ensures |more| <= Work(Exec(steps).value)
    decreases Work(Exec(steps).value)
  {
    RunKeeps(steps);
    var s := Exec(steps).value;
    if s.consumer.Exited? {
      more := [];
      assert steps + more == steps;
    } else {
      var e := DrainStep(s);
      StepWorks(s, e);
      ExecLast(steps, e);
      var rest := ShutdownDrains(steps + [e]);
      more := [e] + rest;
      Reassociate(steps, [e], rest);
    }
  }

  lemma ExecLast(steps: seq<Step>, e: Step)
    requires Exec(steps).Some?
    ensures Exec(steps + [e]) == Next(Exec(steps).value, e)
  {
    assert (steps + [e])[..|steps + [e]| - 1] == steps;
  }

  lemma DrainStep(s: State) returns (e: Step)
    requires Inv(s) && !s.running && !s.consumer.Exited?
    ensures !FromOutside(e) && Next(s, e).Some? && !Next(s, e).value.running
  {
    e := Check;
    if s.consumer.Writing? {
      e := Written;
    } else if s.consumer.Asleep? {
      var t :| t in s.notifying;
      e := Notify(t);
    }
  }

  /** Calls of Log that come one after the other, each with its notification. */
  lemma {:induction false} LogAll(lines: seq<string>) returns (steps: seq<Step>)
    ensures Exec(steps).Some? && LinesOf(steps) == lines
    ensures Exec(steps).value.running && Exec(steps).value.notifying == {}
  {
    if lines == [] {
      steps := [];
    } else {
      var last := lines[|lines| - 1];
      var before := LogAll(lines[..|lines| - 1]);
      ExecLast(before, Log(0, last));
      ExecLast(before + [Log(0, last)], Notify(0));
      steps := (before + [Log(0, last)]) + [Notify(0)];
      assert steps[..|steps| - 1] == before + [Log(0, last)];
      assert (before + [Log(0, last)])[..|before|] == before;
      assert lines == lines[..|lines| - 1] + [last];
    }
  }

  lemma NoLinesOutside(steps: seq<Step>, more: seq<Step>)
    requires forall i | 0 <= i < |more| :: !FromOutside(more[i])
    ensures LinesOf(steps + more) == LinesOf(steps)
    ensures LinesBeforeShutdown(steps + more) == LinesBeforeShutdown(steps)
  {
    if more == [] {
      assert steps + more == steps;
    } else {
      NoLinesOutside(steps, more[..|more| - 1]);
      assert (steps + more)[..|steps + more| - 1] == steps + more[..|more| - 1];
    }
  }

  /** Whatever is logged before the destructor runs is written, all of it and nothing else. */
  lemma EverythingIsWritten(lines: seq<string>) returns (steps: seq<Step>)
    ensures Exec(steps).Some? && LinesOf(steps) == lines
    ensures Exec(steps).value.consumer.Exited? && Exec(steps).value.written == lines
  {
    var logged := LogAll(lines);
    ExecLast(logged, Shutdown(0));
    var stopped := logged + [Shutdown(0)];
    assert stopped[..|stopped| - 1] == logged;
    RunKeeps(logged);
    var more := ShutdownDrains(stopped);
    steps := stopped + more;
    NoLinesOutside(stopped, more);
    assert LinesBeforeShutdown(stopped) == Some(lines);
    NothingIsLost(steps);
  }
}
