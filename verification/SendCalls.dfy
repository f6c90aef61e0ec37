/** PostSend and SendCompleted run by one thread alone: what a whole call does to the protocol state. */
module SendCalls {
  import opened Bytes
  import opened SendProtocol
  import opened SendHistory
  import opened SendTheorems

  function AfterPush(s: State, data: Message): State {
    s.(queue := s.queue + [data], pushed := s.pushed + [data])
  }

  /** A whole RegisterSend; `ok` is whether WSASend accepts the buffer. */
  function AfterRegister(s: State, ok: bool): State {
    if s.queue == [] then s.(flag := false)
    else if ok then s.(outstanding := s.outstanding + [|s.completed|], wire := s.wire + [s.queue[0]])
    else s.(flag := false, stalled := true)
  }

  /** A whole PostSend. */
  function AfterPostSend(s: State, data: Message, ok: bool): State {
    var p := AfterPush(s, data);
    if p.flag then p else AfterRegister(p.(flag := true, stalled := false), ok)
  }

  function AfterPop(s: State): State
    requires s.queue != []
  {
    s.(completions := [], queue := s.queue[1..], completed := s.completed + [s.queue[0]])
  }

  /** The OS completes the one send that is in flight, and its completion is queued. */
  function AfterOsCompletes(s: State): State
    requires |s.outstanding| == 1
  {
    s.(outstanding := [], completions := s.completions + [s.outstanding[0]])
  }

  /** A whole SendCompleted for the completion that is queued. */
  function AfterSendCompleted(s: State, ok: bool): State
    requires s.queue != []
  {
    AfterRegister(AfterPop(s), ok)
  }

  predicate Alone(s: State, t: ThreadId, pc: Pc) {
    s.threads == map[t := pc]
  }

  lemma EnterAlone(steps: seq<Step>, t: ThreadId, data: Message) returns (longer: seq<Step>)
    requires Exec(steps).Some? && Exec(steps).value.threads == map[] && Exec(steps).value.lock.None?
    ensures steps <= longer
    ensures Exec(longer) == Some(Exec(steps).value.(threads := map[t := PushLocked(data)], lock := Some(t)))
  {
    var s := Exec(steps).value;
    longer := Then(steps, Post(t, data));
    assert Exec(longer).value == s.(threads := map[t := Posting(data)]);
    longer := Then(longer, Lock(t));
    assert Exec(longer).value.threads == map[t := PushLocked(data)];
  }

  lemma PushAlone(steps: seq<Step>, t: ThreadId, data: Message) returns (longer: seq<Step>)
    requires Exec(steps).Some? && Exec(steps).value.threads == map[] && Exec(steps).value.lock.None?
    ensures steps <= longer
    ensures Exec(longer) == Some(AfterPush(Exec(steps).value, data).(threads := map[t := BeforeExchange]))
  {
    var s := Exec(steps).value;
    longer := EnterAlone(steps, t, data);
    longer := Then(longer, Push(t));
    assert Exec(longer).value == AfterPush(s, data).(threads := map[t := Pushed], lock := Some(t));
    longer := Then(longer, Unlock(t));
    assert Exec(longer).value.threads == map[t := BeforeExchange];
  }

  lemma FindEmptyAlone(steps: seq<Step>, t: ThreadId) returns (longer: seq<Step>)
    requires Exec(steps).Some? && Alone(Exec(steps).value, t, RegisterLocked) && Exec(steps).value.queue == []
    ensures steps <= longer
    ensures Exec(longer) == Some(Exec(steps).value.(flag := false, threads := map[t := Unlocking]))
  {
    var s := Exec(steps).value;
    longer := Then(steps, TestQueue(t));
    assert Exec(longer).value == s.(threads := map[t := FoundEmpty]);
    longer := Then(longer, ClearFlag(t));
    assert Exec(longer).value.threads == map[t := Unlocking];
  }

  lemma SendFrontAlone(steps: seq<Step>, t: ThreadId, ok: bool) returns (longer: seq<Step>)
    requires Exec(steps).Some? && Alone(Exec(steps).value, t, RegisterLocked) && Exec(steps).value.queue != []
    ensures steps <= longer
    ensures Exec(longer) == Some(AfterRegister(Exec(steps).value, ok).(threads := map[t := Unlocking]))
  {
    var s := Exec(steps).value;
    longer := Then(steps, TestQueue(t));
    assert Exec(longer).value == s.(threads := map[t := Sending]);
    longer := Then(longer, WsaSend(t, ok));
    if ok {
      assert Exec(longer).value.threads == map[t := Unlocking];
    } else {
      assert Exec(longer).value == s.(threads := map[t := SendFailed]);
      longer := FailAlone(longer, t);
    }
  }

  lemma FailAlone(steps: seq<Step>, t: ThreadId) returns (longer: seq<Step>)
    requires Exec(steps).Some? && Alone(Exec(steps).value, t, SendFailed)
    ensures steps <= longer
    ensures Exec(longer) == Some(Exec(steps).value.(flag := false, stalled := true, threads := map[t := Unlocking]))
  {
    longer := Then(steps, ClearFlag(t));
    assert Exec(longer).value.threads == map[t := Unlocking];
  }

  lemma LeaveAlone(steps: seq<Step>, t: ThreadId) returns (longer: seq<Step>)
    requires Exec(steps).Some? && Alone(Exec(steps).value, t, Unlocking)
    ensures steps <= longer
    ensures Exec(longer) == Some(Exec(steps).value.(threads := map[], lock := None))
  {
    longer := Then(steps, Unlock(t));
    assert Exec(longer).value.threads == map[];
  }

  lemma LockAlone(steps: seq<Step>, t: ThreadId) returns (longer: seq<Step>)
    requires Exec(steps).Some? && Alone(Exec(steps).value, t, BeforeRegister) && Exec(steps).value.lock.None?
    ensures steps <= longer
    ensures Exec(longer) == Some(Exec(steps).value.(threads := map[t := RegisterLocked], lock := Some(t)))
  {
    longer := Then(steps, Lock(t));
    assert Exec(longer).value.threads == map[t := RegisterLocked];
  }

  lemma RegisterAlone(steps: seq<Step>, t: ThreadId, ok: bool) returns (longer: seq<Step>)
    requires Exec(steps).Some? && Alone(Exec(steps).value, t, BeforeRegister) && Exec(steps).value.lock.None?
    ensures steps <= longer
    ensures Exec(longer) == Some(AfterRegister(Exec(steps).value, ok).(threads := map[]))
  {
    var s := Exec(steps).value;
    longer := LockAlone(steps, t);
    if s.queue == [] {
      longer := FindEmptyAlone(longer, t);
    } else {
      longer := SendFrontAlone(longer, t, ok);
    }
    longer := LeaveAlone(longer, t);
  }

  /** A PostSend that meets no other thread is a run of the protocol with that effect. */
  lemma PostSendIsARun(steps: seq<Step>, t: ThreadId, data: Message, ok: bool) returns (longer: seq<Step>)
    requires Exec(steps).Some? && Exec(steps).value.threads == map[] && Exec(steps).value.lock.None?
    ensures steps <= longer
    ensures Exec(longer) == Some(AfterPostSend(Exec(steps).value, data, ok))
  {
    var s := Exec(steps).value;
    longer := PushAlone(steps, t, data);
    longer := Then(longer, Exchange(t));
    if s.flag {
      assert Exec(longer).value.threads == map[];
    } else {
      assert Alone(Exec(longer).value, t, BeforeRegister);
      longer := RegisterAlone(longer, t, ok);
    }
  }

  lemma TakeAlone(steps: seq<Step>, t: ThreadId) returns (longer: seq<Step>)
    requires Exec(steps).Some? && Exec(steps).value.threads == map[] && Exec(steps).value.lock.None?
    requires |Exec(steps).value.completions| == 1
    ensures steps <= longer
    ensures var s := Exec(steps).value;
            Exec(longer)
            == Some(s.(threads := map[t := PopLocked(s.completions[0])], lock := Some(t), completions := []))
  {
    var s := Exec(steps).value;
    longer := Then(steps, Deliver(t, 0));
    assert Exec(longer).value == s.(threads := map[t := BeforePop(s.completions[0])], completions := []);
    longer := Then(longer, Lock(t));
    assert Exec(longer).value.threads == map[t := PopLocked(s.completions[0])];
  }

  lemma PopAlone(steps: seq<Step>, t: ThreadId) returns (longer: seq<Step>)
    requires Exec(steps).Some? && Exec(steps).value.threads == map[] && Exec(steps).value.lock.None?
    requires |Exec(steps).value.completions| == 1 && Exec(steps).value.queue != []
    ensures steps <= longer
    ensures var s := Exec(steps).value;
            Exec(longer) == Some(s.(threads := map[t := Popped], lock := Some(t), completions := [],
                                    queue := s.queue[1..], completed := s.completed + [s.queue[0]]))
  {
    longer := TakeAlone(steps, t);
    longer := Then(longer, Pop(t));
    assert Exec(longer).value.threads == map[t := Popped];
  }

  /** So is a SendCompleted for the queued completion. */
  lemma SendCompletedIsARun(steps: seq<Step>, t: ThreadId, ok: bool) returns (longer: seq<Step>)
    requires Exec(steps).Some? && Exec(steps).value.threads == map[] && Exec(steps).value.lock.None?
    requires |Exec(steps).value.completions| == 1 && Exec(steps).value.queue != []
    ensures steps <= longer
    ensures Exec(longer) == Some(AfterSendCompleted(Exec(steps).value, ok))
  {
    longer := PopAlone(steps, t);
    var s := Exec(longer).value;
    longer := Then(longer, Unlock(t));
    assert Exec(longer).value == s.(threads := map[t := BeforeRegister], lock := None);
    longer := RegisterAlone(longer, t, ok);
  }

  /** A run at rest has no lock, and unless a send was lost its flag is clear. */
  lemma AtRest(steps: seq<Step>)
    requires Exec(steps).Some? && Quiet(Exec(steps).value)
    ensures Exec(steps).value.lock.None?
    ensures !SendLost(steps) ==> !Exec(steps).value.flag
  {
    var owner := RunRecorded(steps);
  }

  /**
   The wakeup guarantee is false without the assumption on failures: after one failed WSASend the
   message stays queued at rest, with the flag clear and nobody due to send it.
   */
  lemma FailureStrandsTheQueue(a: Message) returns (steps: seq<Step>)
    ensures Exec(steps).Some?
    ensures var s := Exec(steps).value;
            Quiet(s) && s.queue == [a] && !s.flag && !SendIsComing(s)
    ensures LastSendFailed(steps) && !SendLost(steps)
  {
    steps := PostSendIsARun([], 0, a, false);
    var owner := RunRecorded(steps);
  }

  /** Not for good: after any run at rest with no send lost, the next post sends the front of the queue. */
  lemma NextPostRestarts(steps: seq<Step>, t: ThreadId, data: Message) returns (longer: seq<Step>)
    requires Exec(steps).Some? && Quiet(Exec(steps).value) && !SendLost(steps)
    ensures Exec(longer).Some? && !LastSendFailed(longer) && !SendLost(longer)
    ensures var s, r := Exec(steps).value, Exec(longer).value;
            && r.queue == s.queue + [data] && r.pushed == s.pushed + [data] && r.wire == s.wire + [r.queue[0]]
            && r.threads == map[] && |r.outstanding| == 1
  {
    AtRest(steps);
    longer := PostSendIsARun(steps, t, data, true);
    var owner := RunRecorded(longer);
  }

  /** And from there everything stranded is sent, in push order, before the new message. */
  lemma NextPostSendsEverything(steps: seq<Step>, t: ThreadId, data: Message) returns (longer: seq<Step>)
    requires Exec(steps).Some? && Quiet(Exec(steps).value) && !SendLost(steps)
    ensures Exec(longer).Some?
    ensures var s, r := Exec(steps).value, Exec(longer).value;
            Quiet(r) && r.queue == [] && r.wire == r.completed == PushedBy(steps) + [data]
  {
    var posted := NextPostRestarts(steps, t, data);
    var more := EverythingIsSent(posted);
    longer := posted + more;
    PushedUnchanged(posted, more);
    PushedAreThePosts(steps);
    PushedAreThePosts(longer);
  }

  /** Nobody is on the way to push. */
  ghost predicate NobodyPushes(s: State) {
    forall t | t in s.threads :: !s.threads[t].Posting? && !s.threads[t].PushLocked?
  }

  lemma NobodyPushesStep(s: State, e: Step)
    requires NobodyPushes(s) && Next(s, e).Some? && !e.Post?
    ensures NobodyPushes(Next(s, e).value) && Next(s, e).value.pushed == s.pushed
  {
    var r := Next(s, e).value;
    forall t | t in r.threads
      ensures !r.threads[t].Posting? && !r.threads[t].PushLocked?
    {
      ThreadStep(s, e, t);
    }
  }

  lemma {:induction false} PushedUnchanged(steps: seq<Step>, more: seq<Step>)
    requires Exec(steps).Some? && Exec(steps + more).Some? && NoPosts(more)
    requires NobodyPushes(Exec(steps).value)
    ensures Exec(steps + more).value.pushed == Exec(steps).value.pushed && NobodyPushes(Exec(steps + more).value)
  {
    if more == [] {
      assert steps + more == steps;
    } else {
      var early := more[..|more| - 1];
      assert (steps + more)[..|steps + more| - 1] == steps + early;
      PushedUnchanged(steps, early);
      NobodyPushesStep(Exec(steps + early).value, more[|more| - 1]);
    }
  }

  /** A completion without bytes strands the queue for good: the flag stays set and LostStaysLost applies. */
  lemma ZeroBytesStrandTheQueue(a: Message) returns (steps: seq<Step>)
    ensures Exec(steps).Some? && SendLost(steps)
    ensures var s := Exec(steps).value;
            Quiet(s) && s.queue == [a] && s.flag && !SendIsComing(s)
  {
    steps := PostSendIsARun([], 0, a, true);
    steps := Then(steps, OsCompletes(0));
    steps := Then(steps, DeliverZeroBytes(0));
    assert steps[|steps| - 1].DeliverZeroBytes?;
  }
}
