/** The registry of sessions: in it from accept until a completion without bytes is handled. */
module IocpRegistry {
  import opened Bytes
  import opened Iocp
  import opened IocpInvariant
  import opened IocpTheorems

  /** The session of which the step takes a completion without bytes. */
  function Disconnects(s: State, e: Step): set<SessionId> {
    if e.Take? && e.id in s.ops && s.ops[e.id].done == Some(0) then {s.ops[e.id].sid} else {}
  }

  /** The sessions of which the run has taken a completion without bytes, of a receive or a send. */
  function Disconnected(steps: seq<Step>): set<SessionId>
    requires Exec(steps).Some?
  {
    if steps == [] then {}
    else
      var before := steps[..|steps| - 1];
      Disconnected(before) + Disconnects(Exec(before).value, steps[|steps| - 1])
  }

  ghost predicate BeingRemoved(s: State, sid: SessionId) {
    exists t :: t in s.threads && s.threads[t] == Removing(sid)
  }

  /** A session is first alone with the thread that accepted it, then in the registry, then on its way out. */
  ghost predicate SessionReg(s: State, gone: set<SessionId>, sid: SessionId)
    requires sid in s.sessions
  {
    var x := s.sessions[sid];
    if !x.shared then !x.registered && !x.recvKeep && sid !in gone
    else if sid !in gone then x.registered
    else x.registered ==> BeingRemoved(s, sid)
  }

  predicate ThreadReg(s: State, gone: set<SessionId>, t: ThreadId)
    requires t in s.threads && s.threads[t].sid in s.sessions
  {
    var pc := s.threads[t];
    (pc.Created? <==> !s.sessions[pc.sid].shared) && (pc.Removing? ==> pc.sid in gone)
  }

  ghost predicate Reg(s: State, gone: set<SessionId>) {
    && (forall sid | sid in gone :: sid in s.sessions)
    && (forall sid | sid in s.sessions :: SessionReg(s, gone, sid))
    && (forall t | t in s.threads :: s.threads[t].sid in s.sessions && ThreadReg(s, gone, t))
    && (forall id | id in s.ops :: s.ops[id].sid in s.sessions && s.sessions[s.ops[id].sid].shared)
  }

  /** A step that leaves the registry, all removals under way and the set of disconnected sessions alone. */
  ghost predicate RegistryFrame(s: State, r: State) {
    && r.sessions.Keys == s.sessions.Keys
    && (forall sid | sid in s.sessions ::
          && r.sessions[sid].registered == s.sessions[sid].registered
          && r.sessions[sid].shared == s.sessions[sid].shared
          && (r.sessions[sid].recvKeep ==> s.sessions[sid].recvKeep || s.sessions[sid].shared))
    && (forall t | t in s.threads && s.threads[t].Removing? :: t in r.threads && r.threads[t] == s.threads[t])
    && (forall t | t in r.threads && (t !in s.threads || r.threads[t] != s.threads[t]) ::
          var pc := r.threads[t];
          pc.sid in s.sessions && s.sessions[pc.sid].shared && !pc.Created? && !pc.Removing?)
    && (forall id | id in r.ops :: r.ops[id].sid in s.sessions && s.sessions[r.ops[id].sid].shared)
  }

  lemma FrameKeepsReg(s: State, r: State, gone: set<SessionId>)
    requires Reg(s, gone) && RegistryFrame(s, r)
    ensures Reg(r, gone)
  {
    forall sid | sid in r.sessions
      ensures SessionReg(r, gone, sid)
    {
      assert SessionReg(s, gone, sid);
      if BeingRemoved(s, sid) {
        var t :| t in s.threads && s.threads[t] == Removing(sid);
        assert r.threads[t] == Removing(sid);
      }
    }
  }

  lemma KeepRecvFrame(s: State, gone: set<SessionId>, t: ThreadId)
    requires Reg(s, gone) && DoKeepRecv(s, t).Some?
    ensures RegistryFrame(s, DoKeepRecv(s, t).value)
  {
  }

  lemma WsaRecvFrame(s: State, gone: set<SessionId>, t: ThreadId, ok: bool, id: OpId)
    requires Reg(s, gone) && DoWsaRecv(s, t, ok, id).Some?
    ensures RegistryFrame(s, DoWsaRecv(s, t, ok, id).value)
  {
  }

  lemma OsReceivesFrame(s: State, gone: set<SessionId>, id: OpId, chunk: seq<byte>)
    requires Reg(s, gone) && DoOsReceives(s, id, chunk).Some?
    ensures RegistryFrame(s, DoOsReceives(s, id, chunk).value)
  {
  }

  lemma HandleRecvFrame(s: State, gone: set<SessionId>, t: ThreadId)
    requires Reg(s, gone) && DoHandleRecv(s, t).Some?
    ensures RegistryFrame(s, DoHandleRecv(s, t).value)
  {
  }

  lemma StartPostFrame(s: State, gone: set<SessionId>, t: ThreadId, sid: SessionId)
    requires Reg(s, gone) && DoStartPost(s, t, sid).Some?
    ensures RegistryFrame(s, DoStartPost(s, t, sid).value)
  {
  }

  lemma IssueSendFrame(s: State, gone: set<SessionId>, t: ThreadId, ok: bool, id: OpId)
    requires Reg(s, gone) && DoIssueSend(s, t, ok, id).Some?
    ensures RegistryFrame(s, DoIssueSend(s, t, ok, id).value)
  {
  }

  lemma SkipSendFrame(s: State, gone: set<SessionId>, t: ThreadId)
    requires Reg(s, gone) && DoSkipSend(s, t).Some?
    ensures RegistryFrame(s, DoSkipSend(s, t).value)
  {
  }

  lemma OsSendsFrame(s: State, gone: set<SessionId>, id: OpId, n: nat)
    requires Reg(s, gone) && DoOsSends(s, id, n).Some?
    ensures RegistryFrame(s, DoOsSends(s, id, n).value)
  {
  }

  lemma DropFrame(s: State, gone: set<SessionId>, t: ThreadId)
    requires Reg(s, gone) && DoDrop(s, t).Some?
    ensures RegistryFrame(s, DoDrop(s, t).value)
  {
  }

  lemma TakeFrame(s: State, own: Owners, gone: set<SessionId>, t: ThreadId, id: OpId)
    requires Inv(s, own) && Reg(s, gone) && DoTake(s, t, id).Some? && s.ops[id].done != Some(0)
    ensures RegistryFrame(s, DoTake(s, t, id).value)
  {
    assert OpOk(s, own, id);
  }

  lemma TakeDisconnects(s: State, own: Owners, gone: set<SessionId>, t: ThreadId, id: OpId)
    requires Inv(s, own) && Reg(s, gone) && DoTake(s, t, id).Some? && s.ops[id].done == Some(0)
    ensures Reg(DoTake(s, t, id).value, gone + {s.ops[id].sid})
  {
    assert OpOk(s, own, id);
    var r, now := DoTake(s, t, id).value, gone + {s.ops[id].sid};
    assert r.threads[t] == Removing(s.ops[id].sid);
    forall sid | sid in r.sessions
      ensures SessionReg(r, now, sid)
    {
      assert SessionReg(s, gone, sid);
      if sid != s.ops[id].sid && BeingRemoved(s, sid) {
        var u :| u in s.threads && s.threads[u] == Removing(sid);
        assert r.threads[u] == Removing(sid);
      }
    }
  }

  lemma AcceptReg(s: State, own: Owners, gone: set<SessionId>, t: ThreadId)
    requires Inv(s, own) && Reg(s, gone) && DoAccept(s, t).Some?
    ensures Reg(DoAccept(s, t).value, gone)
  {
    var r := DoAccept(s, t).value;
    IdsAreOld(s, own);
    forall sid | sid in r.sessions
      ensures SessionReg(r, gone, sid)
    {
      if sid in s.sessions {
        assert SessionReg(s, gone, sid);
        if BeingRemoved(s, sid) {
          var u :| u in s.threads && s.threads[u] == Removing(sid);
          assert r.threads[u] == Removing(sid);
        }
      }
    }
  }

  lemma AddSessionReg(s: State, own: Owners, gone: set<SessionId>, t: ThreadId)
    requires Inv(s, own) && Reg(s, gone) && DoAddSession(s, t).Some?
    ensures Reg(DoAddSession(s, t).value, gone)
  {
    var r, added := DoAddSession(s, t).value, s.threads[t].sid;
    assert ThreadReg(s, gone, t);
    assert SessionReg(s, gone, added);
    forall u | u in r.threads
      ensures r.threads[u].sid in r.sessions && ThreadReg(r, gone, u)
    {
      if u != t {
        assert ThreadReg(s, gone, u);
        assert ThreadOk(s, own, u) && ThreadOk(s, own, t);
      }
    }
    forall sid | sid in r.sessions
      ensures SessionReg(r, gone, sid)
    {
      assert SessionReg(s, gone, sid);
      if BeingRemoved(s, sid) {
        var u :| u in s.threads && s.threads[u] == Removing(sid);
        assert r.threads[u] == Removing(sid);
      }
    }
  }

  lemma RemoveSessionReg(s: State, gone: set<SessionId>, t: ThreadId)
    requires Reg(s, gone) && DoRemoveSession(s, t).Some?
    ensures Reg(DoRemoveSession(s, t).value, gone)
  {
    var r, removed := DoRemoveSession(s, t).value, s.threads[t].sid;
    assert ThreadReg(s, gone, t);
    forall sid | sid in r.sessions
      ensures SessionReg(r, gone, sid)
    {
      assert SessionReg(s, gone, sid);
      if sid != removed && BeingRemoved(s, sid) {
        var u :| u in s.threads && s.threads[u] == Removing(sid);
        assert r.threads[u] == Removing(sid);
      }
    }
  }

  /** The steps that neither add nor remove nor disconnect. */
  lemma OtherFrame(s: State, own: Owners, gone: set<SessionId>, e: Step)
    requires Inv(s, own) && Reg(s, gone) && Next(s, e).Some?
    requires !e.Accept? && !e.AddSession? && !e.RemoveSession? && Disconnects(s, e) == {}
    ensures RegistryFrame(s, Next(s, e).value)
  {
    match e
    case KeepRecv(t) => KeepRecvFrame(s, gone, t);
    case WsaRecv(t, ok, id) => WsaRecvFrame(s, gone, t, ok, id);
    case OsReceives(id, chunk) => OsReceivesFrame(s, gone, id, chunk);
    case Take(t, id) => assert s.ops[id].sid !in Disconnects(s, e); TakeFrame(s, own, gone, t, id);
    case HandleRecv(t) => HandleRecvFrame(s, gone, t);
    case StartPost(t, sid) => StartPostFrame(s, gone, t, sid);
    case IssueSend(t, ok, id) => IssueSendFrame(s, gone, t, ok, id);
    case SkipSend(t) => SkipSendFrame(s, gone, t);
    case OsSends(id, n) => OsSendsFrame(s, gone, id, n);
    case Drop(t) => DropFrame(s, gone, t);
  }

  lemma StepReg(s: State, own: Owners, gone: set<SessionId>, e: Step)
    requires Inv(s, own) && Reg(s, gone) && Next(s, e).Some?
    ensures Reg(Next(s, e).value, gone + Disconnects(s, e))
  {
    if e.Accept? {
      AcceptReg(s, own, gone, e.t);
    } else if e.AddSession? {
      AddSessionReg(s, own, gone, e.t);
    } else if e.RemoveSession? {
      RemoveSessionReg(s, gone, e.t);
    } else if e.Take? && s.ops[e.id].done == Some(0) {
      TakeDisconnects(s, own, gone, e.t, e.id);
      return;
    } else {
      OtherFrame(s, own, gone, e);
      FrameKeepsReg(s, Next(s, e).value, gone);
    }
    assert gone + Disconnects(s, e) == gone;
  }

  lemma {:induction false} RunReg(steps: seq<Step>)
    requires Exec(steps).Some?
    ensures Reg(Exec(steps).value, Disconnected(steps))
  {
    if steps != [] {
      var before := steps[..|steps| - 1];
      RunReg(before);
      var own := RunKeeps(before);
      StepReg(Exec(before).value, own, Disconnected(before), steps[|steps| - 1]);
    }
  }

  /**
   The registry over every run: a session is in it if and only if no completion of it without bytes was
   taken, except while a thread is on its way to add or to remove it.
   */
  lemma RegisteredUntilDisconnected(steps: seq<Step>, sid: SessionId)
    requires Exec(steps).Some? && sid in Exec(steps).value.sessions
    requires var s := Exec(steps).value;
             forall t | t in s.threads :: s.threads[t] != Created(sid) && s.threads[t] != Removing(sid)
    ensures Exec(steps).value.sessions[sid].registered <==> sid !in Disconnected(steps)
  {
    RunReg(steps);
    var s := Exec(steps).value;
    assert SessionReg(s, Disconnected(steps), sid);
    if !s.sessions[sid].shared {
      var own := RunKeeps(steps);
      var t := AcceptingThread(s, own, Disconnected(steps), sid);
    }
  }

  lemma AcceptingThread(s: State, own: Owners, gone: set<SessionId>, sid: SessionId) returns (t: ThreadId)
    requires Inv(s, own) && Reg(s, gone) && sid in s.sessions && !s.sessions[sid].shared
    ensures t in s.threads && s.threads[t] == Created(sid)
  {
    assert SessionOk(s, own, sid) && SessionReg(s, gone, sid);
    t := own[sid].t;
    assert ThreadReg(s, gone, t);
  }
}
