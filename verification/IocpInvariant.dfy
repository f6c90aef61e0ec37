/** Every step of the completion port keeps its invariant. */
module IocpInvariant {
  import opened Bytes
  import opened Framing
  import opened Iocp

  lemma NewSessionConsistent()
    ensures Consistent(NewSession().data) && Waiting(NewSession().data, 0)
  {
  }

  lemma FillConsistent(d: ReceiveSide, chunk: seq<byte>)
    requires Consistent(d) && Waiting(d, 0) && |chunk| <= RECV_SIZE
    ensures Consistent(Fill(d, chunk)) && Waiting(Fill(d, chunk), |chunk|)
  {
    assert Fill(d, chunk).recvBuffer[..|chunk|] == chunk;
  }

  lemma ProcessConsistent(d: ReceiveSide, n: nat)
    requires Consistent(d) && n > 0 && Waiting(d, n)
    ensures Consistent(Process(d, n)) && Waiting(Process(d, n), 0)
  {
    assert Process(d, n).processed[..|d.processed|] == d.processed;
  }

  /** A step that touches neither a receive side nor whoever has it. */
  ghost predicate ReceiveSidesUntouched(s: State, r: State) {
    && r.lastId == s.lastId
    && (forall sid | sid in r.sessions ::
          sid in s.sessions && r.sessions[sid].data == s.sessions[sid].data
          && r.sessions[sid].recvKeep == s.sessions[sid].recvKeep)
    && (forall u | u in s.threads && OwnsReceive(s.threads[u]) :: u in r.threads && r.threads[u] == s.threads[u])
    && (forall id | id in s.ops && s.ops[id].kind == Recv :: id in r.ops && r.ops[id] == s.ops[id])
  }

  lemma SessionsUntouched(s: State, r: State, own: Owners)
    requires SessionsOk(s, own) && ReceiveSidesUntouched(s, r)
    ensures SessionsOk(r, own)
  {
    forall sid | sid in r.sessions
      ensures SessionOk(r, own, sid)
    {
      assert SessionOk(s, own, sid);
    }
  }

  lemma IssueSendFrame(s: State, t: ThreadId, ok: bool, id: OpId)
    requires DoIssueSend(s, t, ok, id).Some?
    ensures ReceiveSidesUntouched(s, DoIssueSend(s, t, ok, id).value)
  {
  }

  lemma AcceptSessions(s: State, own: Owners, t: ThreadId)
    requires Inv(s, own) && DoAccept(s, t).Some?
    ensures SessionsOk(DoAccept(s, t).value, own[s.lastId + 1 := Thread(t)])
  {
    NewSessionConsistent();
  }

  lemma AcceptThreads(s: State, own: Owners, t: ThreadId)
    requires Inv(s, own) && DoAccept(s, t).Some?
    ensures ThreadsOk(DoAccept(s, t).value, own[s.lastId + 1 := Thread(t)])
  {
  }

  lemma AcceptOps(s: State, own: Owners, t: ThreadId)
    requires Inv(s, own) && DoAccept(s, t).Some?
    ensures OpsOk(DoAccept(s, t).value, own[s.lastId + 1 := Thread(t)])
  {
  }

  lemma AddSessionSessions(s: State, own: Owners, t: ThreadId)
    requires Inv(s, own) && DoAddSession(s, t).Some?
    ensures SessionsOk(DoAddSession(s, t).value, own)
  {
  }

  lemma AddSessionThreads(s: State, own: Owners, t: ThreadId)
    requires Inv(s, own) && DoAddSession(s, t).Some?
    ensures ThreadsOk(DoAddSession(s, t).value, own)
  {
  }

  lemma AddSessionOps(s: State, own: Owners, t: ThreadId)
    requires Inv(s, own) && DoAddSession(s, t).Some?
    ensures OpsOk(DoAddSession(s, t).value, own)
  {
  }

  lemma KeepRecvSessions(s: State, own: Owners, t: ThreadId)
    requires Inv(s, own) && DoKeepRecv(s, t).Some?
    ensures SessionsOk(DoKeepRecv(s, t).value, own)
  {
    forall sid | sid in DoKeepRecv(s, t).value.sessions
      ensures SessionOk(DoKeepRecv(s, t).value, own, sid)
    {
      assert SessionOk(s, own, sid);
    }
  }

  lemma KeepRecvThreads(s: State, own: Owners, t: ThreadId)
    requires Inv(s, own) && DoKeepRecv(s, t).Some?
    ensures ThreadsOk(DoKeepRecv(s, t).value, own)
  {
  }

  lemma KeepRecvOps(s: State, own: Owners, t: ThreadId)
    requires Inv(s, own) && DoKeepRecv(s, t).Some?
    ensures OpsOk(DoKeepRecv(s, t).value, own)
  {
  }

  lemma WsaRecvTakenSessions(s: State, own: Owners, t: ThreadId, id: OpId)
    requires Inv(s, own) && DoWsaRecv(s, t, true, id).Some?
    ensures SessionsOk(DoWsaRecv(s, t, true, id).value, own[s.threads[t].sid := Operation(id)])
  {
  }

  lemma WsaRecvTakenThreads(s: State, own: Owners, t: ThreadId, id: OpId)
    requires Inv(s, own) && DoWsaRecv(s, t, true, id).Some?
    ensures ThreadsOk(DoWsaRecv(s, t, true, id).value, own[s.threads[t].sid := Operation(id)])
  {
  }

  lemma WsaRecvTakenOps(s: State, own: Owners, t: ThreadId, id: OpId)
    requires Inv(s, own) && DoWsaRecv(s, t, true, id).Some?
    ensures OpsOk(DoWsaRecv(s, t, true, id).value, own[s.threads[t].sid := Operation(id)])
  {
  }

  lemma WsaRecvFailedSessions(s: State, own: Owners, t: ThreadId, id: OpId)
    requires Inv(s, own) && DoWsaRecv(s, t, false, id).Some?
    ensures SessionsOk(DoWsaRecv(s, t, false, id).value, own[s.threads[t].sid := Nobody])
  {
  }

  lemma WsaRecvFailedThreads(s: State, own: Owners, t: ThreadId, id: OpId)
    requires Inv(s, own) && DoWsaRecv(s, t, false, id).Some?
    ensures ThreadsOk(DoWsaRecv(s, t, false, id).value, own[s.threads[t].sid := Nobody])
  {
  }

  lemma WsaRecvFailedOps(s: State, own: Owners, t: ThreadId, id: OpId)
    requires Inv(s, own) && DoWsaRecv(s, t, false, id).Some?
    ensures OpsOk(DoWsaRecv(s, t, false, id).value, own[s.threads[t].sid := Nobody])
  {
  }

  lemma OsReceivesSessions(s: State, own: Owners, id: OpId, chunk: seq<byte>)
    requires Inv(s, own) && DoOsReceives(s, id, chunk).Some?
    ensures SessionsOk(DoOsReceives(s, id, chunk).value, own)
  {
    FillConsistent(s.sessions[s.ops[id].sid].data, chunk);
  }

  lemma OsReceivesThreads(s: State, own: Owners, id: OpId, chunk: seq<byte>)
    requires Inv(s, own) && DoOsReceives(s, id, chunk).Some?
    ensures ThreadsOk(DoOsReceives(s, id, chunk).value, own)
  {
  }

  lemma OsReceivesOps(s: State, own: Owners, id: OpId, chunk: seq<byte>)
    requires Inv(s, own) && DoOsReceives(s, id, chunk).Some?
    ensures OpsOk(DoOsReceives(s, id, chunk).value, own)
  {
  }

  lemma TakeDisconnectSessions(s: State, own: Owners, t: ThreadId, id: OpId)
    requires Inv(s, own) && DoTake(s, t, id).Some? && s.ops[id].done.value == 0 && s.ops[id].kind == Recv
    ensures SessionsOk(DoTake(s, t, id).value, own[s.ops[id].sid := Nobody])
  {
  }

  lemma TakeDisconnectThreads(s: State, own: Owners, t: ThreadId, id: OpId)
    requires Inv(s, own) && DoTake(s, t, id).Some? && s.ops[id].done.value == 0 && s.ops[id].kind == Recv
    ensures ThreadsOk(DoTake(s, t, id).value, own[s.ops[id].sid := Nobody])
  {
  }

  lemma TakeDisconnectOps(s: State, own: Owners, t: ThreadId, id: OpId)
    requires Inv(s, own) && DoTake(s, t, id).Some? && s.ops[id].done.value == 0 && s.ops[id].kind == Recv
    ensures OpsOk(DoTake(s, t, id).value, own[s.ops[id].sid := Nobody])
  {
  }

  lemma TakeEmptySendSessions(s: State, own: Owners, t: ThreadId, id: OpId)
    requires Inv(s, own) && DoTake(s, t, id).Some? && s.ops[id].done.value == 0 && s.ops[id].kind == Send
    ensures SessionsOk(DoTake(s, t, id).value, own)
  {
  }

  lemma TakeEmptySendThreads(s: State, own: Owners, t: ThreadId, id: OpId)
    requires Inv(s, own) && DoTake(s, t, id).Some? && s.ops[id].done.value == 0 && s.ops[id].kind == Send
    ensures ThreadsOk(DoTake(s, t, id).value, own)
  {
  }

  lemma TakeEmptySendOps(s: State, own: Owners, t: ThreadId, id: OpId)
    requires Inv(s, own) && DoTake(s, t, id).Some? && s.ops[id].done.value == 0 && s.ops[id].kind == Send
    ensures OpsOk(DoTake(s, t, id).value, own)
  {
  }

  lemma TakeRecvSessions(s: State, own: Owners, t: ThreadId, id: OpId)
    requires Inv(s, own) && DoTake(s, t, id).Some? && s.ops[id].done.value > 0 && s.ops[id].kind == Recv
    ensures SessionsOk(DoTake(s, t, id).value, own[s.ops[id].sid := Thread(t)])
  {
  }

  lemma TakeRecvThreads(s: State, own: Owners, t: ThreadId, id: OpId)
    requires Inv(s, own) && DoTake(s, t, id).Some? && s.ops[id].done.value > 0 && s.ops[id].kind == Recv
    ensures ThreadsOk(DoTake(s, t, id).value, own[s.ops[id].sid := Thread(t)])
  {
  }

  lemma TakeRecvOps(s: State, own: Owners, t: ThreadId, id: OpId)
    requires Inv(s, own) && DoTake(s, t, id).Some? && s.ops[id].done.value > 0 && s.ops[id].kind == Recv
    ensures OpsOk(DoTake(s, t, id).value, own[s.ops[id].sid := Thread(t)])
  {
  }

  lemma TakeSendSessions(s: State, own: Owners, t: ThreadId, id: OpId)
    requires Inv(s, own) && DoTake(s, t, id).Some? && s.ops[id].done.value > 0 && s.ops[id].kind == Send
    ensures SessionsOk(DoTake(s, t, id).value, own)
  {
  }

  lemma TakeSendThreads(s: State, own: Owners, t: ThreadId, id: OpId)
    requires Inv(s, own) && DoTake(s, t, id).Some? && s.ops[id].done.value > 0 && s.ops[id].kind == Send
    ensures ThreadsOk(DoTake(s, t, id).value, own)
  {
  }

  lemma TakeSendOps(s: State, own: Owners, t: ThreadId, id: OpId)
    requires Inv(s, own) && DoTake(s, t, id).Some? && s.ops[id].done.value > 0 && s.ops[id].kind == Send
    ensures OpsOk(DoTake(s, t, id).value, own)
  {
  }

  lemma HandleRecvSessions(s: State, own: Owners, t: ThreadId)
    requires Inv(s, own) && DoHandleRecv(s, t).Some?
    ensures SessionsOk(DoHandleRecv(s, t).value, own)
  {
    ProcessConsistent(s.sessions[s.threads[t].sid].data, s.threads[t].n);
  }

  lemma HandleRecvThreads(s: State, own: Owners, t: ThreadId)
    requires Inv(s, own) && DoHandleRecv(s, t).Some?
    ensures ThreadsOk(DoHandleRecv(s, t).value, own)
  {
  }

  lemma HandleRecvOps(s: State, own: Owners, t: ThreadId)
    requires Inv(s, own) && DoHandleRecv(s, t).Some?
    ensures OpsOk(DoHandleRecv(s, t).value, own)
  {
  }

  lemma StartPostSessions(s: State, own: Owners, t: ThreadId, sid: SessionId)
    requires SessionsOk(s, own) && DoStartPost(s, t, sid).Some?
    ensures SessionsOk(DoStartPost(s, t, sid).value, own)
  {
    SessionsUntouched(s, DoStartPost(s, t, sid).value, own);
  }

  lemma StartPostThreads(s: State, own: Owners, t: ThreadId, sid: SessionId)
    requires Inv(s, own) && DoStartPost(s, t, sid).Some?
    ensures ThreadsOk(DoStartPost(s, t, sid).value, own)
  {
  }

  lemma StartPostOps(s: State, own: Owners, t: ThreadId, sid: SessionId)
    requires Inv(s, own) && DoStartPost(s, t, sid).Some?
    ensures OpsOk(DoStartPost(s, t, sid).value, own)
  {
  }

  lemma IssueSendSessions(s: State, own: Owners, t: ThreadId, ok: bool, id: OpId)
    requires SessionsOk(s, own) && DoIssueSend(s, t, ok, id).Some?
    ensures SessionsOk(DoIssueSend(s, t, ok, id).value, own)
  {
    IssueSendFrame(s, t, ok, id);
    SessionsUntouched(s, DoIssueSend(s, t, ok, id).value, own);
  }

  lemma IssueSendThreads(s: State, own: Owners, t: ThreadId, ok: bool, id: OpId)
    requires Inv(s, own) && DoIssueSend(s, t, ok, id).Some?
    ensures ThreadsOk(DoIssueSend(s, t, ok, id).value, own)
  {
  }

  lemma IssueSendOps(s: State, own: Owners, t: ThreadId, ok: bool, id: OpId)
    requires Inv(s, own) && DoIssueSend(s, t, ok, id).Some?
    ensures OpsOk(DoIssueSend(s, t, ok, id).value, own)
  {
  }

  lemma SkipSendSessions(s: State, own: Owners, t: ThreadId)
    requires SessionsOk(s, own) && DoSkipSend(s, t).Some?
    ensures SessionsOk(DoSkipSend(s, t).value, own)
  {
    SessionsUntouched(s, DoSkipSend(s, t).value, own);
  }

  lemma SkipSendThreads(s: State, own: Owners, t: ThreadId)
    requires Inv(s, own) && DoSkipSend(s, t).Some?
    ensures ThreadsOk(DoSkipSend(s, t).value, own)
  {
  }

  lemma SkipSendOps(s: State, own: Owners, t: ThreadId)
    requires Inv(s, own) && DoSkipSend(s, t).Some?
    ensures OpsOk(DoSkipSend(s, t).value, own)
  {
  }

  lemma OsSendsSessions(s: State, own: Owners, id: OpId, n: nat)
    requires Inv(s, own) && DoOsSends(s, id, n).Some?
    ensures SessionsOk(DoOsSends(s, id, n).value, own)
  {
  }

  lemma OsSendsThreads(s: State, own: Owners, id: OpId, n: nat)
    requires Inv(s, own) && DoOsSends(s, id, n).Some?
    ensures ThreadsOk(DoOsSends(s, id, n).value, own)
  {
  }

  lemma OsSendsOps(s: State, own: Owners, id: OpId, n: nat)
    requires Inv(s, own) && DoOsSends(s, id, n).Some?
    ensures OpsOk(DoOsSends(s, id, n).value, own)
  {
  }

  lemma RemoveSessionSessions(s: State, own: Owners, t: ThreadId)
    requires SessionsOk(s, own) && DoRemoveSession(s, t).Some?
    ensures SessionsOk(DoRemoveSession(s, t).value, own)
  {
    SessionsUntouched(s, DoRemoveSession(s, t).value, own);
  }

  lemma RemoveSessionThreads(s: State, own: Owners, t: ThreadId)
    requires Inv(s, own) && DoRemoveSession(s, t).Some?
    ensures ThreadsOk(DoRemoveSession(s, t).value, own)
  {
  }

  lemma RemoveSessionOps(s: State, own: Owners, t: ThreadId)
    requires Inv(s, own) && DoRemoveSession(s, t).Some?
    ensures OpsOk(DoRemoveSession(s, t).value, own)
  {
  }

  lemma DropSessions(s: State, own: Owners, t: ThreadId)
    requires SessionsOk(s, own) && DoDrop(s, t).Some?
    ensures SessionsOk(DoDrop(s, t).value, own)
  {
    SessionsUntouched(s, DoDrop(s, t).value, own);
  }

  lemma DropThreads(s: State, own: Owners, t: ThreadId)
    requires Inv(s, own) && DoDrop(s, t).Some?
    ensures ThreadsOk(DoDrop(s, t).value, own)
  {
  }

  lemma DropOps(s: State, own: Owners, t: ThreadId)
    requires Inv(s, own) && DoDrop(s, t).Some?
    ensures OpsOk(DoDrop(s, t).value, own)
  {
  }

  lemma TakeOfRecvKeeps(s: State, own: Owners, t: ThreadId, id: OpId)
    requires Inv(s, own) && DoTake(s, t, id).Some? && s.ops[id].kind == Recv
    ensures Inv(DoTake(s, t, id).value, NextOwners(s, Take(t, id), own))
  {
    if s.ops[id].done.value == 0 {
      TakeDisconnectSessions(s, own, t, id);
      TakeDisconnectThreads(s, own, t, id);
      TakeDisconnectOps(s, own, t, id);
    } else {
      TakeRecvSessions(s, own, t, id);
      TakeRecvThreads(s, own, t, id);
      TakeRecvOps(s, own, t, id);
    }
  }

  lemma TakeOfSendKeeps(s: State, own: Owners, t: ThreadId, id: OpId)
    requires Inv(s, own) && DoTake(s, t, id).Some? && s.ops[id].kind == Send
    ensures Inv(DoTake(s, t, id).value, own)
  {
    if s.ops[id].done.value == 0 {
      TakeEmptySendSessions(s, own, t, id);
      TakeEmptySendThreads(s, own, t, id);
      TakeEmptySendOps(s, own, t, id);
    } else {
      TakeSendSessions(s, own, t, id);
      TakeSendThreads(s, own, t, id);
      TakeSendOps(s, own, t, id);
    }
  }

  lemma TakeKeeps(s: State, own: Owners, t: ThreadId, id: OpId)
    requires Inv(s, own) && DoTake(s, t, id).Some?
    ensures Inv(DoTake(s, t, id).value, NextOwners(s, Take(t, id), own))
  {
    if s.ops[id].kind == Recv {
      TakeOfRecvKeeps(s, own, t, id);
    } else {
      TakeOfSendKeeps(s, own, t, id);
    }
  }

  lemma WsaRecvKeeps(s: State, own: Owners, t: ThreadId, ok: bool, id: OpId)
    requires Inv(s, own) && DoWsaRecv(s, t, ok, id).Some?
    ensures Inv(DoWsaRecv(s, t, ok, id).value, NextOwners(s, WsaRecv(t, ok, id), own))
  {
    if ok {
      assert NextOwners(s, WsaRecv(t, ok, id), own) == own[s.threads[t].sid := Operation(id)];
      WsaRecvTakenSessions(s, own, t, id);
      WsaRecvTakenThreads(s, own, t, id);
      WsaRecvTakenOps(s, own, t, id);
    } else {
      assert NextOwners(s, WsaRecv(t, ok, id), own) == own[s.threads[t].sid := Nobody];
      WsaRecvFailedSessions(s, own, t, id);
      WsaRecvFailedThreads(s, own, t, id);
      WsaRecvFailedOps(s, own, t, id);
    }
  }

  /** The steps that touch a receive side or move it on. */
  predicate OfReceive(e: Step) {
    e.Accept? || e.AddSession? || e.KeepRecv? || e.WsaRecv? || e.OsReceives? || e.Take? || e.HandleRecv?
  }

  lemma ReceiveStepKeeps(s: State, own: Owners, e: Step)
    requires Inv(s, own) && Next(s, e).Some? && OfReceive(e)
    ensures Inv(Next(s, e).value, NextOwners(s, e, own))
  {
    match e
    case Accept(t) =>
      AcceptSessions(s, own, t);
      AcceptThreads(s, own, t);
      AcceptOps(s, own, t);
    case AddSession(t) =>
      AddSessionSessions(s, own, t);
      AddSessionThreads(s, own, t);
      AddSessionOps(s, own, t);
    case KeepRecv(t) =>
      KeepRecvSessions(s, own, t);
      KeepRecvThreads(s, own, t);
      KeepRecvOps(s, own, t);
    case WsaRecv(t, ok, id) => WsaRecvKeeps(s, own, t, ok, id);
    case OsReceives(id, chunk) =>
      OsReceivesSessions(s, own, id, chunk);
      OsReceivesThreads(s, own, id, chunk);
      OsReceivesOps(s, own, id, chunk);
    case Take(t, id) => TakeKeeps(s, own, t, id);
    case HandleRecv(t) =>
      HandleRecvSessions(s, own, t);
      HandleRecvThreads(s, own, t);
      HandleRecvOps(s, own, t);
  }

  lemma OtherStepKeeps(s: State, own: Owners, e: Step)
    requires Inv(s, own) && Next(s, e).Some? && !OfReceive(e)
    ensures Inv(Next(s, e).value, own)
  {
    match e
    case StartPost(t, sid) =>
      StartPostSessions(s, own, t, sid);
      StartPostThreads(s, own, t, sid);
      StartPostOps(s, own, t, sid);
    case IssueSend(t, ok, id) =>
      IssueSendSessions(s, own, t, ok, id);
      IssueSendThreads(s, own, t, ok, id);
      IssueSendOps(s, own, t, ok, id);
    case SkipSend(t) =>
      SkipSendSessions(s, own, t);
      SkipSendThreads(s, own, t);
      SkipSendOps(s, own, t);
    case OsSends(id, n) =>
      OsSendsSessions(s, own, id, n);
      OsSendsThreads(s, own, id, n);
      OsSendsOps(s, own, id, n);
    case RemoveSession(t) =>
      RemoveSessionSessions(s, own, t);
      RemoveSessionThreads(s, own, t);
      RemoveSessionOps(s, own, t);
    case Drop(t) =>
      DropSessions(s, own, t);
      DropThreads(s, own, t);
      DropOps(s, own, t);
  }

  lemma StepKeeps(s: State, own: Owners, e: Step)
    requires Inv(s, own) && Next(s, e).Some?
    ensures Inv(Next(s, e).value, NextOwners(s, e, own))
  {
    if OfReceive(e) {
      ReceiveStepKeeps(s, own, e);
    } else {
      OtherStepKeeps(s, own, e);
    }
  }

  /** So it holds after every run, for some assignment of the receive sides. */
  lemma {:induction false} RunKeeps(steps: seq<Step>) returns (own: Owners)
    requires Exec(steps).Some?
    ensures Inv(Exec(steps).value, own)
  {
    if steps == [] {
      own := map[];
    } else {
      var before, e := steps[..|steps| - 1], steps[|steps| - 1];
      var o := RunKeeps(before);
      StepKeeps(Exec(before).value, o, e);
      own := NextOwners(Exec(before).value, e, o);
    }
  }
}
