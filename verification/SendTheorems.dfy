/** What the send protocol guarantees over every run. */
module SendTheorems {
  import opened Bytes
  import opened SendProtocol
  import opened SendInvariant
  import opened SendHistory

  /**
   Exclusivity and order: at most one WSASend is in flight, its buffer is the front of the queue, and until
   its completion is taken no thread is on the way to register another on the one overlapped record;
   what has been completed, handed to the OS and queued are all
   pieces of the one sequence of the messages whose push the run has made, each message once, retries
   included, one handed over by each successful WSASend and one completed by each pop: none finds the
   queue empty.
   */
  lemma OneSendAtATimeInOrder(steps: seq<Step>)
    requires Exec(steps).Some?
    ensures var s := Exec(steps).value;
            && |s.outstanding| + |s.completions| <= 1
            && (forall i | i in s.outstanding || i in s.completions ::
                  i == |s.completed| && s.queue != [] && s.wire == s.completed + [s.queue[0]])
            && (forall t, u | t in s.threads && u in s.threads && OwnsFlag(s.threads[t]) && OwnsFlag(s.threads[u]) ::
                  t == u)
            && (s.outstanding != [] || s.completions != [] ==> forall t | t in s.threads :: !OwnsFlag(s.threads[t]))
            && s.completed + s.queue == s.pushed == PushedBy(steps)
            && s.completed <= s.wire <= s.pushed && |s.wire| <= |s.completed| + 1
            && |s.wire| == SendsOf(steps) && |s.completed| == PopsOf(steps)
  {
    var owner := RunKeeps(steps);
    PushedAreThePosts(steps);
    CallsAreCounted(steps);
    OneInTransit(Exec(steps).value, owner);
    OneOwner(Exec(steps).value, owner);
  }

  lemma OneInTransit(s: State, owner: Owner)
    requires Inv(s, owner)
    ensures |s.outstanding| + |s.completions| <= 1
    ensures forall i | i in s.outstanding || i in s.completions ::
              i == |s.completed| && s.queue != [] && s.wire == s.completed + [s.queue[0]]
    ensures s.completed <= s.wire <= s.pushed && |s.wire| <= |s.completed| + 1
  {
    if FrontInTransit(s, owner) {
      assert s.pushed[|s.completed|] == s.queue[0];
    }
  }

  lemma OneOwner(s: State, owner: Owner)
    requires Inv(s, owner)
    ensures forall t, u | t in s.threads && u in s.threads && OwnsFlag(s.threads[t]) && OwnsFlag(s.threads[u]) :: t == u
    ensures s.outstanding != [] || s.completions != [] ==> forall t | t in s.threads :: !OwnsFlag(s.threads[t])
  {
  }

  /** Somebody is going to send the front of the queue, or is about to find out that they must. */
  ghost predicate SendIsComing(s: State) {
    || |s.outstanding| + |s.completions| == 1
    || (exists t :: t in s.threads && OwnsFlag(s.threads[t]) && !s.threads[t].SendFailed?)
    || (exists t :: t in s.threads && AboutToExchange(s.threads[t]))
  }

  /**
   No lost wakeup, exactly: where no send is coming, something is queued if and only if the last
   WSASend of the run failed or some send completed without bytes.
   */
  lemma NoLostWakeup(steps: seq<Step>)
    requires Exec(steps).Some? && !SendIsComing(Exec(steps).value)
    ensures Exec(steps).value.queue != [] <==> LastSendFailed(steps) || SendLost(steps)
  {
    var owner := RunRecorded(steps);
    var s := Exec(steps).value;
    if s.queue != [] && s.flag && owner.Thread? {
      assert s.threads[owner.t].SendFailed?;
    }
  }

  lemma {:induction false} NoFailureNoStall(steps: seq<Step>)
    requires FreeOfFailures(steps)
    ensures !LastSendFailed(steps) && !SendLost(steps)
  {
    if steps != [] {
      NoFailureNoStall(steps[..|steps| - 1]);
    }
  }

  /** Going on without failures adds none. */
  lemma {:induction false} NoneAdded(steps: seq<Step>, more: seq<Step>)
    requires FreeOfFailures(more)
    ensures SendLost(steps + more) == SendLost(steps)
    ensures LastSendFailed(steps + more) ==> LastSendFailed(steps)
  {
    if more == [] {
      assert steps + more == steps;
    } else {
      NoneAdded(steps, more[..|more| - 1]);
      assert (steps + more)[..|steps + more| - 1] == steps + more[..|more| - 1];
    }
  }

  lemma LostStep(s: State, owner: Owner, e: Step)
    requires Inv(s, owner) && s.lost && Next(s, e).Some?
    ensures var r := Next(s, e).value;
            r.lost && r.flag && r.wire == s.wire && r.completed == s.completed && s.queue <= r.queue
  {
  }

  /** After a send completion without bytes nothing is ever sent or completed again; posts only pile up. */
  lemma {:induction false} LostStaysLost(steps: seq<Step>, more: seq<Step>)
    requires Exec(steps).Some? && SendLost(steps) && Exec(steps + more).Some?
    ensures var s, r := Exec(steps).value, Exec(steps + more).value;
            r.lost && r.flag && r.wire == s.wire && r.completed == s.completed && s.queue <= r.queue
  {
    if more == [] {
      assert steps + more == steps;
      var owner := RunRecorded(steps);
    } else {
      var early := more[..|more| - 1];
      assert (steps + more)[..|steps + more| - 1] == steps + early;
      LostStaysLost(steps, early);
      var owner := RunKeeps(steps + early);
      LostStep(Exec(steps + early).value, owner, more[|more| - 1]);
    }
  }

  // ------------------------------------------------------------------
  // Progress
  // ------------------------------------------------------------------

  function PcWeight(pc: Pc): nat {
    match pc
    case Posting(_) => 35
    case PushLocked(_) => 34
    case Pushed => 13
    case BeforeExchange => 12
    case BeforeRegister => 10
    case RegisterLocked => 9
    case Sending => 8
    case FoundEmpty => 2
    case SendFailed => 2
    case Unlocking => 1
    case BeforePop(_) => 4
    case PopLocked(_) => 3
    case Popped => 11
  }

  ghost function ThreadsWeight(m: map<ThreadId, Pc>): nat
    decreases |m|
  {
    if m == map[] then 0
    else
      var t :| t in m;
      PcWeight(m[t]) + ThreadsWeight(m - {t})
  }

  lemma {:induction false} WeightWithout(m: map<ThreadId, Pc>, t: ThreadId)
    requires t in m
    ensures ThreadsWeight(m) == PcWeight(m[t]) + ThreadsWeight(m - {t})
    decreases |m|
  {
    var u :| u in m && ThreadsWeight(m) == PcWeight(m[u]) + ThreadsWeight(m - {u});
    if u != t {
      WeightWithout(m - {u}, t);
      WeightWithout(m - {t}, u);
      assert m - {u} - {t} == m - {t} - {u};
    }
  }

  function WeightAt(m: map<ThreadId, Pc>, t: ThreadId): nat {
    if t in m then PcWeight(m[t]) else 0
  }

  lemma WeightSplit(m: map<ThreadId, Pc>, t: ThreadId)
    ensures ThreadsWeight(m) == WeightAt(m, t) + ThreadsWeight(m - {t})
  {
    if t in m {
      WeightWithout(m, t);
    } else {
      assert m - {t} == m;
    }
  }

  /** The work left if nobody posts any more. */
  ghost function Work(s: State): nat {
    ThreadsWeight(s.threads) + 20 * |s.queue| + 6 * |s.outstanding| + 5 * |s.completions|
  }

  function WorkElsewhere(s: State): nat {
    20 * |s.queue| + 6 * |s.outstanding| + 5 * |s.completions|
  }

  function WorkAt(s: State, t: ThreadId): nat {
    WorkElsewhere(s) + WeightAt(s.threads, t)
  }

  /** Thread `t` alone moved, and there is less to do. */
  ghost predicate Worked(s: State, r: State, t: ThreadId) {
    r.threads - {t} == s.threads - {t} && WorkAt(r, t) < WorkAt(s, t)
  }

  lemma MoveWorks(s: State, r: State, t: ThreadId, pc: Pc)
    requires t in s.threads && r.threads == s.threads[t := pc]
    requires WorkElsewhere(r) + PcWeight(pc) < WorkElsewhere(s) + PcWeight(s.threads[t])
    ensures Worked(s, r, t)
  {
    assert r.threads - {t} == s.threads - {t};
  }

  lemma LeaveWorks(s: State, r: State, t: ThreadId)
    requires t in s.threads && r.threads == s.threads - {t}
    requires WorkElsewhere(r) < WorkElsewhere(s) + PcWeight(s.threads[t])
    ensures Worked(s, r, t)
  {
    assert r.threads - {t} == s.threads - {t};
  }

  lemma LockWorks(s: State, t: ThreadId)
    requires DoLock(s, t).Some?
    ensures Worked(s, DoLock(s, t).value, t)
  {
    var r := DoLock(s, t).value;
    match s.threads[t] {
      case Posting(data) => MoveWorks(s, r, t, PushLocked(data));
      case BeforeRegister => MoveWorks(s, r, t, RegisterLocked);
      case BeforePop(i) => MoveWorks(s, r, t, PopLocked(i));
    }
  }

  lemma PushWorks(s: State, t: ThreadId)
    requires DoPush(s, t).Some?
    ensures Worked(s, DoPush(s, t).value, t)
  {
    var r := DoPush(s, t).value;
    MoveWorks(s, r, t, r.threads[t]);
  }

  lemma UnlockWorks(s: State, t: ThreadId)
    requires DoUnlock(s, t).Some?
    ensures Worked(s, DoUnlock(s, t).value, t)
  {
    var r := DoUnlock(s, t).value;
    if s.threads[t].Unlocking? {
      LeaveWorks(s, r, t);
    } else {
      MoveWorks(s, r, t, r.threads[t]);
    }
  }

  lemma ExchangeWorks(s: State, t: ThreadId)
    requires DoExchange(s, t).Some?
    ensures Worked(s, DoExchange(s, t).value, t)
  {
  }

  lemma TestQueueWorks(s: State, t: ThreadId)
    requires DoTestQueue(s, t).Some?
    ensures Worked(s, DoTestQueue(s, t).value, t)
  {
    var r := DoTestQueue(s, t).value;
    MoveWorks(s, r, t, r.threads[t]);
  }

  lemma WsaSendWorks(s: State, t: ThreadId, ok: bool)
    requires DoWsaSend(s, t, ok).Some?
    ensures Worked(s, DoWsaSend(s, t, ok).value, t)
  {
  }

  lemma ClearFlagWorks(s: State, t: ThreadId)
    requires DoClearFlag(s, t).Some?
    ensures Worked(s, DoClearFlag(s, t).value, t)
  {
    var r := DoClearFlag(s, t).value;
    MoveWorks(s, r, t, r.threads[t]);
  }

  lemma DeliverWorks(s: State, t: ThreadId, i: nat)
    requires DoDeliver(s, t, i).Some?
    ensures Worked(s, DoDeliver(s, t, i).value, t)
  {
  }

  lemma PopWorks(s: State, t: ThreadId)
    requires DoPop(s, t).Some? && s.queue != []
    ensures Worked(s, DoPop(s, t).value, t)
  {
  }

  lemma LessWork(s: State, r: State, t: ThreadId)
    requires Worked(s, r, t)
    ensures Work(r) < Work(s)
  {
    WeightSplit(s.threads, t);
    WeightSplit(r.threads, t);
  }

  lemma PostWorks(s: State, t: ThreadId, data: Message)
    requires DoPost(s, t, data).Some?
    ensures Work(DoPost(s, t, data).value) == Work(s) + 35
  {
    WeightSplit(s.threads, t);
    WeightSplit(s.threads[t := Posting(data)], t);
    assert s.threads[t := Posting(data)] - {t} == s.threads - {t};
  }

  lemma StepWorks(s: State, owner: Owner, e: Step)
    requires Inv(s, owner) && Next(s, e).Some?
    ensures e.Post? ==> Work(Next(s, e).value) == Work(s) + 35
    ensures !e.Post? ==> Work(Next(s, e).value) < Work(s)
  {
    var r := Next(s, e).value;
    match e {
      case Post(t, data) => PostWorks(s, t, data);
      case Lock(t) => LockWorks(s, t); LessWork(s, r, t);
      case Push(t) => PushWorks(s, t); LessWork(s, r, t);
      case Unlock(t) => UnlockWorks(s, t); LessWork(s, r, t);
      case Exchange(t) => ExchangeWorks(s, t); LessWork(s, r, t);
      case TestQueue(t) => TestQueueWorks(s, t); LessWork(s, r, t);
      case WsaSend(t, ok) => WsaSendWorks(s, t, ok); LessWork(s, r, t);
      case ClearFlag(t) => ClearFlagWorks(s, t); LessWork(s, r, t);
      case Deliver(t, i) => DeliverWorks(s, t, i); LessWork(s, r, t);
      case Pop(t) => PopWorks(s, t); LessWork(s, r, t);
      case _ =>
    }
  }

  function Posts(steps: seq<Step>): nat {
    if steps == [] then 0
    else Posts(steps[..|steps| - 1]) + if steps[|steps| - 1].Post? then 1 else 0
  }

  /** Every run is short: a message costs at most 36 steps however the threads interleave. */
  lemma {:induction false} RunsAreBounded(steps: seq<Step>)
    requires Exec(steps).Some?
    ensures |steps| + Work(Exec(steps).value) <= 36 * Posts(steps)
  {
    if steps != [] {
      var before := steps[..|steps| - 1];
      RunsAreBounded(before);
      var owner := RunKeeps(before);
      StepWorks(Exec(before).value, owner, steps[|steps| - 1]);
    }
  }

  predicate Quiet(s: State) {
    s.threads == map[] && s.outstanding == [] && s.completions == []
  }

  /** The step by which a thread that can go on goes on, with a working socket. */
  function StepOf(pc: Pc, t: ThreadId): Step {
    match pc
    case Posting(_) => Lock(t)
    case BeforeRegister => Lock(t)
    case BeforePop(_) => Lock(t)
    case PushLocked(_) => Push(t)
    case Pushed => Unlock(t)
    case Popped => Unlock(t)
    case Unlocking => Unlock(t)
    case BeforeExchange => Exchange(t)
    case RegisterLocked => TestQueue(t)
    case Sending => WsaSend(t, true)
    case FoundEmpty => ClearFlag(t)
    case SendFailed => ClearFlag(t)
    case PopLocked(_) => Pop(t)
  }

  /** No deadlock: whenever anything is going on, some step other than a new post is enabled. */
  lemma SomethingCanHappen(s: State, owner: Owner) returns (e: Step)
    requires Inv(s, owner) && !Quiet(s)
    ensures Next(s, e).Some? && !e.Post? && !Fails(e)
  {
    if s.outstanding != [] {
      e := OsCompletes(0);
    } else if s.lock.Some? {
      e := StepOf(s.threads[s.lock.value], s.lock.value);
    } else if s.threads != map[] {
      var t :| t in s.threads;
      e := StepOf(s.threads[t], t);
    } else {
      e := Deliver(0, 0);
    }
  }

  /**
   At rest the queue is empty if and only if the last WSASend did not fail and no send completed without
   bytes; then everything was sent and completed in push order, whatever failed before. And what has been
   pushed by then is every message that was posted.
   */
  lemma AtRestAllIsSent(steps: seq<Step>)
    requires Exec(steps).Some? && Quiet(Exec(steps).value)
    ensures var s := Exec(steps).value;
            && (s.queue == [] <==> !LastSendFailed(steps) && !SendLost(steps))
            && (s.queue == [] ==> s.wire == s.completed == PushedBy(steps))
            && multiset(PushedBy(steps)) == multiset(PostedBy(steps))
  {
    NoLostWakeup(steps);
    var owner := RunKeeps(steps);
    PushedAreThePosts(steps);
    EveryPostIsPushed(steps);
  }

  /** A run and one more step. */
  lemma Then(steps: seq<Step>, e: Step) returns (longer: seq<Step>)
    requires Exec(steps).Some? && Next(Exec(steps).value, e).Some?
    ensures longer == steps + [e] && Exec(longer) == Next(Exec(steps).value, e)
  {
    longer := steps + [e];
    assert longer[..|longer| - 1] == steps;
  }

  lemma {:induction false} RunOn(steps: seq<Step>) returns (more: seq<Step>)
    requires Exec(steps).Some?
    ensures Exec(steps + more).Some? && Quiet(Exec(steps + more).value)
    ensures NoPosts(more) && FreeOfFailures(more)
    decreases Work(Exec(steps).value)
  {
    var s := Exec(steps).value;
    if Quiet(s) {
      more := [];
      assert steps + more == steps;
    } else {
      var owner := RunKeeps(steps);
      var e := SomethingCanHappen(s, owner);
      StepWorks(s, owner, e);
      var longer := Then(steps, e);
      var rest := RunOn(longer);
      more := [e] + rest;
      Reassociate(steps, [e], rest);
    }
  }

  /** At rest, with exactly the posted messages sent and completed. */
  ghost predicate AllSent(s: State, steps: seq<Step>) {
    Quiet(s) && s.queue == [] && s.wire == s.completed && multiset(s.wire) == multiset(PostedBy(steps))
  }

  /**
   Liveness: after any run whose failed sends were all retried with success the protocol can come to rest
   without another post, and every message posted has then been sent and completed.
   */
  lemma EverythingIsSent(steps: seq<Step>) returns (more: seq<Step>)
    requires Exec(steps).Some? && !LastSendFailed(steps) && !SendLost(steps)
    ensures Exec(steps + more).Some? && NoPosts(more) && FreeOfFailures(more)
    ensures var s := Exec(steps + more).value;
            AllSent(s, steps) && s.completed == PushedBy(steps + more)
  {
    more := RunOn(steps);
    NoneAdded(steps, more);
    AtRestAllIsSent(steps + more);
    PostsUnchanged(steps, more);
  }

  /** Nothing can happen any more but new posts and failures. */
  ghost predicate Stuck(s: State) {
    forall e | Next(s, e).Some? :: e.Post? || Fails(e)
  }

  /**
   And every way of running on gets there: wherever a continuation without posts and failures can go no
   further, everything posted has been sent and completed; and it can go at most so far.
   */
  lemma EveryWaySends(steps: seq<Step>, more: seq<Step>)
    requires Exec(steps).Some? && !LastSendFailed(steps) && !SendLost(steps)
    requires Exec(steps + more).Some? && NoPosts(more) && FreeOfFailures(more)
    ensures |steps| + |more| <= 36 * Posts(steps)
    ensures var s := Exec(steps + more).value;
            Stuck(s) ==> AllSent(s, steps)
  {
    RunsAreBounded(steps + more);
    PostsUnchanged(steps, more);
    NoneAdded(steps, more);
    if Stuck(Exec(steps + more).value) {
      if !Quiet(Exec(steps + more).value) {
        var owner := RunKeeps(steps + more);
        var e := SomethingCanHappen(Exec(steps + more).value, owner);
        assert false;
      }
      AtRestAllIsSent(steps + more);
    }
  }

  lemma {:induction false} PostsUnchanged(steps: seq<Step>, more: seq<Step>)
    requires NoPosts(more)
    ensures Posts(steps + more) == Posts(steps) && PostedBy(steps + more) == PostedBy(steps)
  {
    if more == [] {
      assert steps + more == steps;
    } else {
      PostsUnchanged(steps, more[..|more| - 1]);
      assert (steps + more)[..|steps + more| - 1] == steps + more[..|more| - 1];
    }
  }
}
