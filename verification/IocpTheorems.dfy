/** What the completion port guarantees over every run, with any number of workers. */
module IocpTheorems {
  import opened Bytes
  import opened Framing
  import opened Iocp
  import opened IocpInvariant
  import opened IocpHistory

  /**
   Receive exclusivity: at most one receive of a session is with the OS, queued as a completion,
   or in the hands of a thread between its completion and the next WSARecv.
   */
  lemma ReceiveIsExclusive(steps: seq<Step>)
    requires Exec(steps).Some?
    ensures var s := Exec(steps).value;
            && (forall id, jd | id in s.ops && jd in s.ops && s.ops[id].kind == Recv && s.ops[jd].kind == Recv
                  && s.ops[id].sid == s.ops[jd].sid :: id == jd)
            && (forall t, u | t in s.threads && u in s.threads && OwnsReceive(s.threads[t]) && OwnsReceive(s.threads[u])
                  && s.threads[t].sid == s.threads[u].sid :: t == u)
            && (forall t, id | t in s.threads && id in s.ops && OwnsReceive(s.threads[t]) && s.ops[id].kind == Recv ::
                  s.threads[t].sid != s.ops[id].sid)
  {
    var own := RunKeeps(steps);
    var s := Exec(steps).value;
    assert forall t | t in s.threads :: ThreadOk(s, own, t);
    assert forall id | id in s.ops :: OpOk(s, own, id);
  }

  /** The step ends the receiving of a session: its WSARecv fails, or a receive completion without bytes is taken. */
  predicate EndsReceiving(s: State, e: Step, sid: SessionId) {
    match e
    case WsaRecv(t, ok, _) => !ok && t in s.threads && s.threads[t].sid == sid
    case Take(_, id) => id in s.ops && s.ops[id].kind == Recv && s.ops[id].sid == sid && s.ops[id].done == Some(0)
    case _ => false
  }

  /** Some step of the run has. */
  predicate ReceivingEnded(steps: seq<Step>, sid: SessionId)
    requires Exec(steps).Some?
  {
    steps != [] &&
    var before := steps[..|steps| - 1];
    EndsReceiving(Exec(before).value, steps[|steps| - 1], sid) || ReceivingEnded(before, sid)
  }

  /** The session exists and nobody has its receive side. */
  predicate Abandoned(s: State, own: Owners, sid: SessionId) {
    sid in s.sessions && sid in own && own[sid].Nobody?
  }

  lemma WsaRecvAbandons(s: State, own: Owners, t: ThreadId, ok: bool, id: OpId, sid: SessionId)
    requires Inv(s, own) && DoWsaRecv(s, t, ok, id).Some?
    ensures Abandoned(DoWsaRecv(s, t, ok, id).value, NextOwners(s, WsaRecv(t, ok, id), own), sid)
       <==> EndsReceiving(s, WsaRecv(t, ok, id), sid) || Abandoned(s, own, sid)
  {
    assert ThreadOk(s, own, t);
  }

  lemma TakeAbandons(s: State, own: Owners, t: ThreadId, id: OpId, sid: SessionId)
    requires Inv(s, own) && DoTake(s, t, id).Some?
    ensures Abandoned(DoTake(s, t, id).value, NextOwners(s, Take(t, id), own), sid)
       <==> EndsReceiving(s, Take(t, id), sid) || Abandoned(s, own, sid)
  {
    assert OpOk(s, own, id);
  }

  lemma IdsAreOld(s: State, own: Owners)
    requires SessionsOk(s, own)
    ensures forall sid | sid in s.sessions :: sid <= s.lastId
  {
    forall sid | sid in s.sessions
      ensures sid <= s.lastId
    {
      assert SessionOk(s, own, sid);
    }
  }

  lemma AcceptAbandons(s: State, own: Owners, t: ThreadId, sid: SessionId)
    requires Inv(s, own) && DoAccept(s, t).Some?
    ensures Abandoned(DoAccept(s, t).value, NextOwners(s, Accept(t), own), sid) <==> Abandoned(s, own, sid)
  {
    IdsAreOld(s, own);
  }

  lemma SessionsStay(s: State, e: Step)
    requires !e.Accept? && Next(s, e).Some?
    ensures Next(s, e).value.sessions.Keys == s.sessions.Keys
  {
  }

  lemma StepAbandons(s: State, own: Owners, e: Step, sid: SessionId)
    requires Inv(s, own) && Next(s, e).Some?
    ensures Abandoned(Next(s, e).value, NextOwners(s, e, own), sid)
       <==> EndsReceiving(s, e, sid) || Abandoned(s, own, sid)
  {
    match e
    case WsaRecv(t, ok, id) => WsaRecvAbandons(s, own, t, ok, id, sid);
    case Take(t, id) => TakeAbandons(s, own, t, id, sid);
    case Accept(t) => AcceptAbandons(s, own, t, sid);
    case _ => SessionsStay(s, e);
  }

  lemma {:induction false} OwnedUntilEnded(steps: seq<Step>) returns (own: Owners)
    requires Exec(steps).Some?
    ensures Inv(Exec(steps).value, own)
    ensures forall sid :: ReceivingEnded(steps, sid) <==> Abandoned(Exec(steps).value, own, sid)
  {
    if steps == [] {
      own := map[];
    } else {
      var before, e := steps[..|steps| - 1], steps[|steps| - 1];
      var o := OwnedUntilEnded(before);
      var s := Exec(before).value;
      StepKeeps(s, o, e);
      own := NextOwners(s, e, o);
      forall sid
        ensures ReceivingEnded(steps, sid) <==> Abandoned(Exec(steps).value, own, sid)
      {
        StepAbandons(s, o, e, sid);
      }
    }
  }

  /** A receive of the session is with the OS, queued, or in the hands of a thread up to the next WSARecv. */
  ghost predicate Receiving(s: State, sid: SessionId) {
    || (exists id :: id in s.ops && s.ops[id].kind == Recv && s.ops[id].sid == sid)
    || (exists t :: t in s.threads && OwnsReceive(s.threads[t]) && s.threads[t].sid == sid)
  }

  /**
   No lost receive: every session that was ever accepted has a receive under way, and by ReceiveIsExclusive
   exactly one, if and only if no WSARecv of it has failed and no receive completion without bytes was taken.
   */
  lemma ReceivingGoesOn(steps: seq<Step>, sid: SessionId)
    requires Exec(steps).Some? && sid in Exec(steps).value.sessions
    ensures Receiving(Exec(steps).value, sid) <==> !ReceivingEnded(steps, sid)
  {
    var own := OwnedUntilEnded(steps);
    var s := Exec(steps).value;
    assert SessionOk(s, own, sid);
    match own[sid]
    case Nobody =>
      forall t | t in s.threads && OwnsReceive(s.threads[t])
        ensures s.threads[t].sid != sid
      {
        assert ThreadOk(s, own, t);
      }
      forall id | id in s.ops && s.ops[id].kind == Recv
        ensures s.ops[id].sid != sid
      {
        assert OpOk(s, own, id);
      }
    case Thread(t) => assert OwnsReceive(s.threads[t]);
    case Operation(id) => assert s.ops[id].kind == Recv;
  }

  ghost function LocalReferences(s: State, sid: SessionId): set<ThreadId> {
    set t | t in s.threads && s.threads[t].sid == sid
  }

  /** The reference count of a session: the manager, the two operations, and the threads at work on it. */
  ghost function References(s: State, sid: SessionId): nat
    requires sid in s.sessions
  {
    (if s.sessions[sid].registered then 1 else 0)
    + (if s.sessions[sid].recvKeep then 1 else 0)
    + (if s.sessions[sid].sendKeep then 1 else 0)
    + |LocalReferences(s, sid)|
  }

  /**
   Lifetime: whatever is outstanding or queued refers to a session that its own keepAlive holds,
   removed from the manager or not. And since nothing ever clears a keepAlive, no session that was
   ever created is destroyed in any run.
   */
  lemma SessionsStayAlive(steps: seq<Step>)
    requires Exec(steps).Some?
    ensures var s := Exec(steps).value;
            && (forall id | id in s.ops :: KeepAlive(s, s.ops[id]) && References(s, s.ops[id].sid) > 0)
            && (forall t | t in s.threads :: s.threads[t].sid in s.sessions)
            && (forall sid | sid in s.sessions :: References(s, sid) > 0)
  {
    var own := RunKeeps(steps);
    var s := Exec(steps).value;
    assert forall t | t in s.threads :: ThreadOk(s, own, t);
    forall sid | sid in s.sessions
      ensures References(s, sid) > 0
    {
      assert SessionOk(s, own, sid);
      if own[sid].Thread? {
        assert own[sid].t in LocalReferences(s, sid);
      }
    }
    forall id | id in s.ops
      ensures KeepAlive(s, s.ops[id])
    {
      assert OpOk(s, own, id);
    }
  }

  /**
   Whatever the interleaving, OnRecvCompleted sees the chunks the OS delivered, each once and in order, at
   most one behind: after n handlings the receiver is what the first n chunks make of it.
   */
  lemma ChunksAreProcessedInOrder(steps: seq<Step>, sid: SessionId)
    requires Exec(steps).Some? && sid in Exec(steps).value.sessions
    ensures var chunks, n := ReceivedBy(steps, sid), HandledBy(steps, sid);
            && n <= |chunks| <= n + 1 && ChunksOf(chunks, RECV_SIZE)
            && Exec(steps).value.sessions[sid].data.receiver == ReceiveAll(chunks[..n], BUFFER_SIZE)
  {
    SideIsConsistent(steps, sid);
    DataIsRecorded(steps, sid);
    ProcessedIsPrefix(Exec(steps).value.sessions[sid].data, HandledBy(steps, sid));
  }

  lemma SideIsConsistent(steps: seq<Step>, sid: SessionId)
    requires Exec(steps).Some? && sid in Exec(steps).value.sessions
    ensures Consistent(Exec(steps).value.sessions[sid].data)
  {
    var own := RunKeeps(steps);
    assert SessionOk(Exec(steps).value, own, sid);
  }

  lemma ProcessedIsPrefix(d: ReceiveSide, n: nat)
    requires Consistent(d) && |d.processed| == n
    ensures n <= |d.arrived| <= n + 1 && d.processed == d.arrived[..n] && ChunksOf(d.arrived, RECV_SIZE)
    ensures d.receiver == ReceiveAll(d.arrived[..n], BUFFER_SIZE)
  {
  }

  lemma FlattenPrefix(a: seq<seq<byte>>, n: nat)
    requires n <= |a|
    ensures Flatten(a[..n]) <= Flatten(a)
  {
    assert a == a[..n] + a[n..];
    FlattenAppend(a[..n], a[n..]);
  }

  /**
   Delivery under concurrency: if the OS receives for a session a stream of well-formed packets of at most
   8193 bytes, then in every state of every run with any number of workers and sessions, the handler has
   been given exactly the packets completed by the chunks handled so far, nothing was refused, and the
   ring buffer holds exactly the bytes of the incomplete one.
   */
  lemma StreamIsDelivered(steps: seq<Step>, sid: SessionId, ps: seq<Packet>)
    requires Exec(steps).Some? && sid in Exec(steps).value.sessions
    requires ArePackets(ps) && forall i | 0 <= i < |ps| :: |ps[i]| <= 8193
    requires Flatten(ReceivedBy(steps, sid)) <= Flatten(ps)
    ensures var chunks, n := ReceivedBy(steps, sid), HandledBy(steps, sid);
            n <= |chunks| <= n + 1 &&
            var bytes := Flatten(chunks[..n]);
            var k := CompletedWithin(ps, |bytes|);
            k <= |ps| && |Flatten(ps[..k])| <= |bytes| &&
            Exec(steps).value.sessions[sid].data.receiver == Receiver(ps[..k], bytes[|Flatten(ps[..k])|..], 0)
  {
    ChunksAreProcessedInOrder(steps, sid);
    var chunks, n := ReceivedBy(steps, sid), HandledBy(steps, sid);
    FlattenPrefix(chunks, n);
    ChunkingIndependence(ps, chunks[..n], 8193, RECV_SIZE, BUFFER_SIZE);
  }

  lemma Then(steps: seq<Step>, e: Step) returns (longer: seq<Step>)
    requires Exec(steps).Some? && Next(Exec(steps).value, e).Some?
    ensures longer == steps + [e] && Exec(longer) == Next(Exec(steps).value, e)
  {
    longer := steps + [e];
    assert longer[..|longer| - 1] == steps;
  }

  /** An accepted session with its first receive outstanding. */
  lemma AcceptedSession() returns (steps: seq<Step>)
    ensures Exec(steps).Some?
    ensures Exec(steps).value == State(1, map[1 := Session(true, true, true, false, NewSession().data)], map[],
                                       map[0 := Op(Recv, 1, None)])
  {
    steps := Then([], Accept(0));
    assert Exec(steps).value == State(1, map[1 := NewSession()], map[0 := Created(1)], map[]);
    steps := Then(steps, AddSession(0));
    assert Exec(steps).value
        == State(1, map[1 := Session(true, true, false, false, NewSession().data)], map[0 := Registered(1)], map[]);
    steps := Then(steps, KeepRecv(0));
    var x := Session(true, true, true, false, NewSession().data);
    assert Exec(steps).value == State(1, map[1 := x], map[0 := Arming(1)], map[]);
    steps := Then(steps, WsaRecv(0, true, 0));
    assert Exec(steps).value == State(1, map[1 := x], map[0 := Leaving(1)], map[0 := Op(Recv, 1, None)]);
    steps := Then(steps, Drop(0));
    assert Exec(steps).value.threads == map[];
  }

  lemma BothOutstanding() returns (steps: seq<Step>)
    ensures Exec(steps).Some?
    ensures Exec(steps).value == State(1, map[1 := Session(true, true, true, true, NewSession().data)], map[],
                                       map[0 := Op(Recv, 1, None), 1 := Op(Send, 1, None)])
  {
    steps := AcceptedSession();
    steps := Then(steps, StartPost(2, 1));
    var x, ops := Session(true, true, true, false, NewSession().data), map[0 := Op(Recv, 1, None)];
    assert Exec(steps).value == State(1, map[1 := x], map[2 := Posting(1)], ops);
    steps := Then(steps, IssueSend(2, true, 1));
    assert Exec(steps).value == State(1, map[1 := WithSendKeep(x)], map[2 := Leaving(1)], ops[1 := Op(Send, 1, None)]);
    steps := Then(steps, Drop(2));
    assert Exec(steps).value.threads == map[];
  }

  /** The exclusion is of receives only: a send completion of the session may run beside a receive completion. */
  lemma SendMayRunBesideReceive() returns (steps: seq<Step>)
    ensures Exec(steps).Some?
    ensures var s := Exec(steps).value;
            1 in s.threads && s.threads[1] == Handling(1, 1) && 2 in s.threads && s.threads[2] == SendHandling(1)
  {
    steps := BothOutstanding();
    steps := Then(steps, OsSends(1, 1));
    steps := Then(steps, Take(2, 1));
    steps := Then(steps, OsReceives(0, [7]));
    steps := Then(steps, Take(1, 0));
  }

  // ------------------------------------------------------------------
  // Nothing is stuck
  // ------------------------------------------------------------------

  /** Session 1 has its receive outstanding and nobody is at work. */
  predicate Idle(s: State) {
    && s.threads == map[] && s.ops == map[0 := Op(Recv, 1, None)]
    && 1 in s.sessions && s.sessions[1].recvKeep && |s.sessions[1].data.recvBuffer| == RECV_SIZE
  }

  lemma OpReceives(s: State, chunk: seq<byte>)
    requires Idle(s) && 1 <= |chunk| <= RECV_SIZE
    ensures var r := Next(s, OsReceives(0, chunk));
            && r.Some? && r.value.threads == map[] && r.value.ops == map[0 := Op(Recv, 1, Some(|chunk|))]
            && 1 in r.value.sessions && r.value.sessions[1].recvKeep
            && |r.value.sessions[1].data.recvBuffer| == RECV_SIZE
  {
  }

  lemma TakeOne(steps: seq<Step>, chunk: seq<byte>) returns (longer: seq<Step>)
    requires Exec(steps).Some? && Idle(Exec(steps).value) && 1 <= |chunk| <= RECV_SIZE
    ensures Exec(longer).Some? && ReceivedBy(longer, 1) == ReceivedBy(steps, 1) + [chunk]
    ensures HandledBy(longer, 1) == HandledBy(steps, 1)
    ensures var s, r := Exec(steps).value, Exec(longer).value;
            && r.threads == map[0 := Handling(1, |chunk|)] && r.ops == map[]
            && 1 in r.sessions && r.sessions[1].recvKeep && |r.sessions[1].data.recvBuffer| == RECV_SIZE
  {
    OpReceives(Exec(steps).value, chunk);
    longer := Then(steps, OsReceives(0, chunk));
    longer := Then(longer, Take(0, 0));
    assert Exec(longer).value.threads == map[0 := Handling(1, |chunk|)];
  }

  lemma HandleOne(steps: seq<Step>, n: nat) returns (longer: seq<Step>)
    requires Exec(steps).Some? && n <= RECV_SIZE
    requires var s := Exec(steps).value;
             && s.threads == map[0 := Handling(1, n)] && s.ops == map[]
             && 1 in s.sessions && |s.sessions[1].data.recvBuffer| == RECV_SIZE
    ensures Exec(longer).Some? && Idle(Exec(longer).value)
    ensures ReceivedBy(longer, 1) == ReceivedBy(steps, 1) && HandledBy(longer, 1) == HandledBy(steps, 1) + 1
  {
    longer := ThenOther(steps, HandleRecv(0));
    assert Exec(longer).value.threads == map[0 := Handled(1)];
    longer := ThenOther(longer, KeepRecv(0));
    assert Exec(longer).value.threads == map[0 := Arming(1)];
    longer := ThenOther(longer, WsaRecv(0, true, 0));
    assert Exec(longer).value.threads == map[0 := Leaving(1)];
    longer := ThenOther(longer, Drop(0));
    assert Exec(longer).value.threads == map[];
  }

  /** A run and one more step by which nothing is received. */
  lemma ThenOther(steps: seq<Step>, e: Step) returns (longer: seq<Step>)
    requires Exec(steps).Some? && Next(Exec(steps).value, e).Some? && !e.OsReceives?
    ensures longer == steps + [e] && Exec(longer) == Next(Exec(steps).value, e)
    ensures ReceivedBy(longer, 1) == ReceivedBy(steps, 1)
    ensures HandledBy(longer, 1) == HandledBy(steps, 1) + if HandlesFor(Exec(steps).value, e, 1) then 1 else 0
  {
    longer := Then(steps, e);
  }

  lemma {:induction false} ServeAll(chunks: seq<seq<byte>>) returns (steps: seq<Step>)
    requires ChunksOf(chunks, RECV_SIZE)
    ensures Exec(steps).Some? && Idle(Exec(steps).value)
    ensures ReceivedBy(steps, 1) == chunks && HandledBy(steps, 1) == |chunks|
  {
    if chunks == [] {
      steps := AcceptedSession();
      DataIsRecorded(steps, 1);
      assert Exec(steps).value.sessions[1].data == NewSession().data;
    } else {
      var before := ServeAll(chunks[..|chunks| - 1]);
      steps := TakeOne(before, chunks[|chunks| - 1]);
      steps := HandleOne(steps, |chunks[|chunks| - 1]|);
      assert chunks == chunks[..|chunks| - 1] + [chunks[|chunks| - 1]];
    }
  }

  /** Whatever chunks a peer's bytes come in, there is a run that serves them all. */
  lemma EveryStreamCanBeServed(chunks: seq<seq<byte>>) returns (steps: seq<Step>)
    requires ChunksOf(chunks, RECV_SIZE)
    ensures Exec(steps).Some? && ReceivedBy(steps, 1) == chunks && 1 in Exec(steps).value.sessions
    ensures Exec(steps).value.sessions[1].data.receiver == ReceiveAll(chunks, BUFFER_SIZE)
  {
    steps := ServeAll(chunks);
    ChunksAreProcessedInOrder(steps, 1);
    assert chunks[..|chunks|] == chunks;
  }

  /** An operation number that is not in use. */
  lemma FreshOp(ids: set<OpId>) returns (id: OpId)
    ensures forall i | i in ids :: i < id
  {
    if ids == {} {
      id := 0;
    } else {
      var i :| i in ids;
      var j := FreshOp(ids - {i});
      id := if i < j then j else i + 1;
      assert forall x | x in ids :: x == i || x in ids - {i};
    }
  }

  lemma ThreadStands(steps: seq<Step>, t: ThreadId)
    requires Exec(steps).Some? && t in Exec(steps).value.threads
    ensures var s := Exec(steps).value; var pc := s.threads[t];
            pc.sid in s.sessions && (pc.Handling? ==> pc.n <= |s.sessions[pc.sid].data.recvBuffer|)
  {
    var own := RunKeeps(steps);
    var s := Exec(steps).value;
    assert ThreadOk(s, own, t) && SessionOk(s, own, s.threads[t].sid);
  }

  /** No deadlock: whatever the others do, every thread at work on a session can take its next step. */
  lemma EveryThreadCanGoOn(steps: seq<Step>, t: ThreadId) returns (e: Step)
    requires Exec(steps).Some? && t in Exec(steps).value.threads
    ensures !e.OsReceives? && !e.OsSends? && e.t == t && Next(Exec(steps).value, e).Some?
  {
    ThreadStands(steps, t);
    var s := Exec(steps).value;
    var id := FreshOp(s.ops.Keys);
    assert id !in s.ops.Keys;
    match s.threads[t]
    case Created(_) => e := AddSession(t);
    case Registered(_) => e := KeepRecv(t);
    case Handling(_, _) => e := HandleRecv(t);
    case Handled(_) => e := KeepRecv(t);
    case Arming(_) => e := WsaRecv(t, true, id);
    case SendHandling(_) => e := IssueSend(t, true, id);
    case Posting(_) => e := IssueSend(t, true, id);
    case Removing(_) => e := RemoveSession(t);
    case Leaving(_) => e := Drop(t);
  }

  /** And whatever is outstanding or queued can be completed and taken, whoever else is at work. */
  lemma EveryOperationCanEnd(steps: seq<Step>, id: OpId, t: ThreadId, chunk: seq<byte>, n: nat)
    requires Exec(steps).Some? && id in Exec(steps).value.ops && |chunk| <= RECV_SIZE
    ensures var s := Exec(steps).value; var op := s.ops[id];
            && (op.done.None? && op.kind == Recv ==> Next(s, OsReceives(id, chunk)).Some?)
            && (op.done.None? && op.kind == Send ==> Next(s, OsSends(id, n)).Some?)
            && (op.done.Some? && t !in s.threads ==> Next(s, Take(t, id)).Some?)
  {
    var own := RunKeeps(steps);
    var s := Exec(steps).value;
    assert OpOk(s, own, id) && SessionOk(s, own, s.ops[id].sid);
  }

  /** Both outcomes of a call are possible: a WSARecv or WSASend may fail, and there may be nothing to send. */
  lemma EveryOutcomeIsPossible(steps: seq<Step>, t: ThreadId, id: OpId)
    requires Exec(steps).Some? && t in Exec(steps).value.threads && id !in Exec(steps).value.ops
    ensures var s := Exec(steps).value;
            && (s.threads[t].Arming? ==> forall ok :: Next(s, WsaRecv(t, ok, id)).Some?)
            && (MaySend(s, t) ==> Next(s, SkipSend(t)).Some? && forall ok :: Next(s, IssueSend(t, ok, id)).Some?)
  {
    ThreadStands(steps, t);
  }
}
