/** What the state of the send protocol knows of the steps that led to it. */
module SendHistory {
  import opened SendProtocol
  import opened SendInvariant

  predicate Fails(e: Step) {
    (e.WsaSend? && !e.ok) || e.DeliverZeroBytes?
  }

  predicate NoPosts(steps: seq<Step>) {
    forall i | 0 <= i < |steps| :: !steps[i].Post?
  }

  predicate FreeOfFailures(steps: seq<Step>) {
    forall i | 0 <= i < |steps| :: !Fails(steps[i])
  }

  /** The last WSASend of the run failed. */
  predicate LastSendFailed(steps: seq<Step>) {
    steps != [] &&
    var e := steps[|steps| - 1];
    if e.WsaSend? then !e.ok else LastSendFailed(steps[..|steps| - 1])
  }

  /** Some send of the run completed without bytes. */
  predicate SendLost(steps: seq<Step>) {
    steps != [] && (steps[|steps| - 1].DeliverZeroBytes? || SendLost(steps[..|steps| - 1]))
  }

  /** What the state knows of the failures of the run. */
  ghost predicate Recorded(s: State, owner: Owner, failed: bool, lost: bool) {
    s.lost == lost && Marked(s, failed) && (failed ==> s.queue != [] && !FrontInTransit(s, owner))
  }

  ghost predicate Marked(s: State, failed: bool) {
    (s.stalled ==> failed) && (forall t | t in s.threads && s.threads[t].SendFailed? :: failed)
  }

  function FailedAfter(e: Step, failed: bool): bool {
    if e.WsaSend? then !e.ok else failed
  }

  /** How a thread may come to where it is after a step. */
  predicate CameTo(s: State, e: Step, r: State, u: ThreadId)
    requires u in r.threads
  {
    var pc := r.threads[u];
    || (u in s.threads && s.threads[u] == pc)
    || ((pc.SendFailed? ==> e.WsaSend? && !e.ok)
        && (pc.Posting? ==> e == Post(u, pc.data))
        && (pc.PushLocked? ==> u in s.threads && s.threads[u] == Posting(pc.data)))
  }

  lemma LockCameTo(s: State, t: ThreadId, u: ThreadId)
    requires DoLock(s, t).Some? && u in DoLock(s, t).value.threads
    ensures CameTo(s, Lock(t), DoLock(s, t).value, u)
  {
    var r := DoLock(s, t).value;
    match s.threads[t]
    case Posting(data) => assert r.threads == s.threads[t := PushLocked(data)];
    case BeforeRegister => assert r.threads == s.threads[t := RegisterLocked];
    case BeforePop(i) => assert r.threads == s.threads[t := PopLocked(i)];
  }

  lemma UnlockCameTo(s: State, t: ThreadId, u: ThreadId)
    requires DoUnlock(s, t).Some? && u in DoUnlock(s, t).value.threads
    ensures CameTo(s, Unlock(t), DoUnlock(s, t).value, u)
  {
  }

  lemma ClearFlagCameTo(s: State, t: ThreadId, u: ThreadId)
    requires DoClearFlag(s, t).Some? && u in DoClearFlag(s, t).value.threads
    ensures CameTo(s, ClearFlag(t), DoClearFlag(s, t).value, u)
  {
  }

  lemma SendCameTo(s: State, t: ThreadId, ok: bool, u: ThreadId)
    requires DoWsaSend(s, t, ok).Some? && u in DoWsaSend(s, t, ok).value.threads
    ensures CameTo(s, WsaSend(t, ok), DoWsaSend(s, t, ok).value, u)
  {
  }

  lemma ThreadStep(s: State, e: Step, u: ThreadId)
    requires Next(s, e).Some? && u in Next(s, e).value.threads
    ensures CameTo(s, e, Next(s, e).value, u)
  {
    match e
    case Lock(t) => LockCameTo(s, t, u);
    case Unlock(t) => UnlockCameTo(s, t, u);
    case ClearFlag(t) => ClearFlagCameTo(s, t, u);
    case WsaSend(t, ok) => SendCameTo(s, t, ok, u);
    case _ =>
  }

  lemma StepMarked(s: State, owner: Owner, e: Step, failed: bool)
    requires Inv(s, owner) && Marked(s, failed) && Next(s, e).Some?
    ensures Marked(Next(s, e).value, FailedAfter(e, failed))
  {
    var r := Next(s, e).value;
    forall t | t in r.threads && r.threads[t].SendFailed?
      ensures FailedAfter(e, failed)
    {
      ThreadStep(s, e, t);
    }
  }

  lemma StepInTransit(s: State, owner: Owner, e: Step, failed: bool)
    requires Inv(s, owner) && Next(s, e).Some? && Inv(Next(s, e).value, NextOwner(s, e, owner))
    requires failed ==> s.queue != [] && !FrontInTransit(s, owner)
    ensures FailedAfter(e, failed) ==>
              Next(s, e).value.queue != [] && !FrontInTransit(Next(s, e).value, NextOwner(s, e, owner))
  {
  }

  lemma StepRecorded(s: State, owner: Owner, e: Step, failed: bool, lost: bool)
    requires Inv(s, owner) && Recorded(s, owner, failed, lost) && Next(s, e).Some?
    ensures Inv(Next(s, e).value, NextOwner(s, e, owner))
    ensures Recorded(Next(s, e).value, NextOwner(s, e, owner), FailedAfter(e, failed), e.DeliverZeroBytes? || lost)
  {
    StepKeeps(s, owner, e);
    StepMarked(s, owner, e, failed);
    StepInTransit(s, owner, e, failed);
  }

  lemma {:induction false} RunRecorded(steps: seq<Step>) returns (owner: Owner)
    requires Exec(steps).Some?
    ensures Inv(Exec(steps).value, owner)
    ensures Recorded(Exec(steps).value, owner, LastSendFailed(steps), SendLost(steps))
  {
    if steps == [] {
      owner := Nobody;
    } else {
      var before, e := steps[..|steps| - 1], steps[|steps| - 1];
      var o := RunRecorded(before);
      StepRecorded(Exec(before).value, o, e, LastSendFailed(before), SendLost(before));
      owner := NextOwner(Exec(before).value, e, o);
    }
  }

  // ------------------------------------------------------------------
  // Messages
  // ------------------------------------------------------------------

  /** The messages of the Post steps, in order. */
  function PostedBy(steps: seq<Step>): seq<Message> {
    if steps == [] then []
    else
      var before, e := PostedBy(steps[..|steps| - 1]), steps[|steps| - 1];
      if e.Post? then before + [e.data] else before
  }

  /** The message of the last Post step of a thread. */
  function LastPost(steps: seq<Step>, t: ThreadId): Message {
    if steps == [] then []
    else
      var e := steps[|steps| - 1];
      if e.Post? && e.t == t then e.data else LastPost(steps[..|steps| - 1], t)
  }

  /** The messages of the posts whose Push step has happened, in the order of these. */
  function PushedBy(steps: seq<Step>): seq<Message> {
    if steps == [] then []
    else
      var earlier, e := steps[..|steps| - 1], steps[|steps| - 1];
      if e.Push? then PushedBy(earlier) + [LastPost(earlier, e.t)] else PushedBy(earlier)
  }

  /** A thread that has yet to push carries what it was called with. */
  ghost predicate CarriesPosts(s: State, steps: seq<Step>) {
    forall t | t in s.threads && (s.threads[t].Posting? || s.threads[t].PushLocked?) ::
      s.threads[t].data == LastPost(steps, t)
  }

  lemma PushedStep(s: State, e: Step)
    requires Next(s, e).Some?
    ensures Next(s, e).value.pushed
         == if e.Push? && e.t in s.threads && s.threads[e.t].PushLocked? then s.pushed + [s.threads[e.t].data]
            else s.pushed
    ensures e.Push? ==> e.t in s.threads && s.threads[e.t].PushLocked?
  {
    match e
    case Lock(t) => assert DoLock(s, t).value.pushed == s.pushed;
    case Unlock(t) => assert DoUnlock(s, t).value.pushed == s.pushed;
    case ClearFlag(t) => assert DoClearFlag(s, t).value.pushed == s.pushed;
    case _ =>
  }

  /** `pushed` is what the steps push, whoever else is sending. */
  lemma {:induction false} PushedAreThePosts(steps: seq<Step>)
    requires Exec(steps).Some?
    ensures Exec(steps).value.pushed == PushedBy(steps) && CarriesPosts(Exec(steps).value, steps)
  {
    if steps != [] {
      var before, e := steps[..|steps| - 1], steps[|steps| - 1];
      PushedAreThePosts(before);
      var s, r := Exec(before).value, Exec(steps).value;
      PushedStep(s, e);
      forall t | t in r.threads && (r.threads[t].Posting? || r.threads[t].PushLocked?)
        ensures r.threads[t].data == LastPost(steps, t)
      {
        ThreadStep(s, e, t);
      }
    }
  }

  /** How often a message is in the hands of a thread that has yet to push it. */
  function CarriedBy(pc: Pc, x: Message): nat {
    if (pc.Posting? || pc.PushLocked?) && pc.data == x then 1 else 0
  }

  ghost function Unpushed(m: map<ThreadId, Pc>, x: Message): nat
    decreases |m|
  {
    if m == map[] then 0
    else
      var t :| t in m;
      CarriedBy(m[t], x) + Unpushed(m - {t}, x)
  }

  lemma {:induction false} UnpushedWithout(m: map<ThreadId, Pc>, t: ThreadId, x: Message)
    requires t in m
    ensures Unpushed(m, x) == CarriedBy(m[t], x) + Unpushed(m - {t}, x)
    decreases |m|
  {
    var u :| u in m && Unpushed(m, x) == CarriedBy(m[u], x) + Unpushed(m - {u}, x);
    if u != t {
      UnpushedWithout(m - {u}, t, x);
      UnpushedWithout(m - {t}, u, x);
      assert m - {u} - {t} == m - {t} - {u};
    }
  }

  function CarriedAt(m: map<ThreadId, Pc>, t: ThreadId, x: Message): nat {
    if t in m then CarriedBy(m[t], x) else 0
  }

  lemma UnpushedSplit(m: map<ThreadId, Pc>, t: ThreadId, x: Message)
    ensures Unpushed(m, x) == CarriedAt(m, t, x) + Unpushed(m - {t}, x)
  {
    if t in m {
      UnpushedWithout(m, t, x);
    } else {
      assert m - {t} == m;
    }
  }

  function Is(data: Message, x: Message): int {
    if data == x then 1 else 0
  }

  /** Thread `t` alone moved, and now carries `change` more of the message. */
  ghost predicate Moved(s: State, r: State, t: ThreadId, x: Message, change: int) {
    r.threads - {t} == s.threads - {t} && CarriedAt(r.threads, t, x) == CarriedAt(s.threads, t, x) + change
  }

  lemma ToMoved(s: State, r: State, t: ThreadId, pc: Pc, x: Message)
    requires r.threads == s.threads[t := pc]
    ensures Moved(s, r, t, x, CarriedBy(pc, x) - CarriedAt(s.threads, t, x))
  {
    assert r.threads - {t} == s.threads - {t};
  }

  lemma LockMoved(s: State, t: ThreadId, x: Message)
    requires DoLock(s, t).Some?
    ensures Moved(s, DoLock(s, t).value, t, x, 0)
  {
    var r := DoLock(s, t).value;
    match s.threads[t]
    case Posting(data) => ToMoved(s, r, t, PushLocked(data), x);
    case BeforeRegister => ToMoved(s, r, t, RegisterLocked, x);
    case BeforePop(i) => ToMoved(s, r, t, PopLocked(i), x);
  }

  lemma UnlockMoved(s: State, t: ThreadId, x: Message)
    requires DoUnlock(s, t).Some?
    ensures Moved(s, DoUnlock(s, t).value, t, x, 0)
  {
    if !s.threads[t].Unlocking? {
      ToMoved(s, DoUnlock(s, t).value, t, DoUnlock(s, t).value.threads[t], x);
    }
  }

  lemma ExchangeMoved(s: State, t: ThreadId, x: Message)
    requires DoExchange(s, t).Some?
    ensures Moved(s, DoExchange(s, t).value, t, x, 0)
  {
  }

  lemma TestQueueMoved(s: State, t: ThreadId, x: Message)
    requires DoTestQueue(s, t).Some?
    ensures Moved(s, DoTestQueue(s, t).value, t, x, 0)
  {
    ToMoved(s, DoTestQueue(s, t).value, t, DoTestQueue(s, t).value.threads[t], x);
  }

  lemma WsaSendMoved(s: State, t: ThreadId, ok: bool, x: Message)
    requires DoWsaSend(s, t, ok).Some?
    ensures Moved(s, DoWsaSend(s, t, ok).value, t, x, 0)
  {
  }

  lemma ClearFlagMoved(s: State, t: ThreadId, x: Message)
    requires DoClearFlag(s, t).Some?
    ensures Moved(s, DoClearFlag(s, t).value, t, x, 0)
  {
    ToMoved(s, DoClearFlag(s, t).value, t, Unlocking, x);
  }

  lemma DeliverMoved(s: State, t: ThreadId, i: nat, x: Message)
    requires DoDeliver(s, t, i).Some?
    ensures Moved(s, DoDeliver(s, t, i).value, t, x, 0)
  {
    ToMoved(s, DoDeliver(s, t, i).value, t, BeforePop(s.completions[i]), x);
  }

  lemma PopMoved(s: State, t: ThreadId, x: Message)
    requires DoPop(s, t).Some?
    ensures Moved(s, DoPop(s, t).value, t, x, 0)
  {
    ToMoved(s, DoPop(s, t).value, t, Popped, x);
  }

  lemma PushMoved(s: State, t: ThreadId, x: Message)
    requires DoPush(s, t).Some?
    ensures Moved(s, DoPush(s, t).value, t, x, -Is(s.threads[t].data, x))
  {
    ToMoved(s, DoPush(s, t).value, t, Pushed, x);
  }

  lemma PostMoved(s: State, t: ThreadId, data: Message, x: Message)
    requires DoPost(s, t, data).Some?
    ensures Moved(s, DoPost(s, t, data).value, t, x, Is(data, x))
  {
    ToMoved(s, DoPost(s, t, data).value, t, Posting(data), x);
  }

  function Carried(s: State, e: Step, x: Message): int {
    match e
    case Post(_, data) => Is(data, x)
    case Push(t) => if t in s.threads && s.threads[t].PushLocked? then -Is(s.threads[t].data, x) else 0
    case _ => 0
  }

  lemma UnpushedStep(s: State, e: Step, x: Message)
    requires Next(s, e).Some?
    ensures Unpushed(Next(s, e).value.threads, x) == Unpushed(s.threads, x) + Carried(s, e, x)
  {
    match e {
      case Post(t, data) => PostMoved(s, t, data, x);
      case Lock(t) => LockMoved(s, t, x);
      case Push(t) => PushMoved(s, t, x);
      case Unlock(t) => UnlockMoved(s, t, x);
      case Exchange(t) => ExchangeMoved(s, t, x);
      case TestQueue(t) => TestQueueMoved(s, t, x);
      case WsaSend(t, ok) => WsaSendMoved(s, t, ok, x);
      case ClearFlag(t) => ClearFlagMoved(s, t, x);
      case Deliver(t, i) => DeliverMoved(s, t, i, x);
      case Pop(t) => PopMoved(s, t, x);
      case _ =>
    }
    if !e.OsCompletes? && !e.DeliverZeroBytes? {
      UnpushedSplit(s.threads, e.t, x);
      UnpushedSplit(Next(s, e).value.threads, e.t, x);
    }
  }

  lemma CountOneMore(q: seq<Message>, data: Message, x: Message)
    ensures multiset(q + [data])[x] == multiset(q)[x] + Is(data, x)
  {
  }

  /** Every message posted has been pushed or is in the hands of a thread that has yet to push it. */
  lemma {:induction false} PostsAreCounted(steps: seq<Step>, x: Message)
    requires Exec(steps).Some?
    ensures multiset(PostedBy(steps))[x] == multiset(PushedBy(steps))[x] + Unpushed(Exec(steps).value.threads, x)
  {
    if steps != [] {
      var before, e := steps[..|steps| - 1], steps[|steps| - 1];
      var s := Exec(before).value;
      PostsAreCounted(before, x);
      UnpushedStep(s, e, x);
      PushedAreThePosts(before);
      PushedStep(s, e);
      if e.Post? {
        CountOneMore(PostedBy(before), e.data, x);
      } else if e.Push? {
        CountOneMore(PushedBy(before), LastPost(before, e.t), x);
      }
    }
  }

  /** Where no thread is under way, the messages pushed are those posted. */
  lemma EveryPostIsPushed(steps: seq<Step>)
    requires Exec(steps).Some? && Exec(steps).value.threads == map[]
    ensures multiset(PostedBy(steps)) == multiset(PushedBy(steps))
  {
    forall x: Message
      ensures multiset(PostedBy(steps))[x] == multiset(PushedBy(steps))[x]
    {
      PostsAreCounted(steps, x);
    }
  }

  // ------------------------------------------------------------------
  // Calls
  // ------------------------------------------------------------------

  /** How many WSASend calls were accepted. */
  function SendsOf(steps: seq<Step>): nat {
    if steps == [] then 0
    else
      var e := steps[|steps| - 1];
      SendsOf(steps[..|steps| - 1]) + if e.WsaSend? && e.ok then 1 else 0
  }

  function PopsOf(steps: seq<Step>): nat {
    if steps == [] then 0
    else PopsOf(steps[..|steps| - 1]) + if steps[|steps| - 1].Pop? then 1 else 0
  }

  lemma CallStep(s: State, owner: Owner, e: Step)
    requires Inv(s, owner) && Next(s, e).Some?
    ensures |Next(s, e).value.wire| == |s.wire| + if e.WsaSend? && e.ok then 1 else 0
    ensures |Next(s, e).value.completed| == |s.completed| + if e.Pop? then 1 else 0
  {
  }

  lemma {:induction false} CallsAreCounted(steps: seq<Step>)
    requires Exec(steps).Some?
    ensures |Exec(steps).value.wire| == SendsOf(steps) && |Exec(steps).value.completed| == PopsOf(steps)
  {
    if steps != [] {
      var before := steps[..|steps| - 1];
      CallsAreCounted(before);
      var owner := RunKeeps(before);
      CallStep(Exec(before).value, owner, steps[|steps| - 1]);
    }
  }
}
