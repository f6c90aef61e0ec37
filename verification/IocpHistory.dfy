/** What the receive side of a session knows of the steps that led to it. */
module IocpHistory {
  import opened Bytes
  import opened Iocp
  import opened IocpInvariant

  /** The chunk that the step receives for the session. */
  predicate ReceivesFor(s: State, e: Step, sid: SessionId) {
    e.OsReceives? && e.chunk != [] && e.id in s.ops && s.ops[e.id].sid == sid
  }

  predicate HandlesFor(s: State, e: Step, sid: SessionId) {
    e.HandleRecv? && e.t in s.threads && s.threads[e.t].sid == sid
  }

  /** The chunks that the OS has received for a session, in order. */
  function ReceivedBy(steps: seq<Step>, sid: SessionId): seq<seq<byte>>
    requires Exec(steps).Some?
  {
    if steps == [] then []
    else
      var before, e := steps[..|steps| - 1], steps[|steps| - 1];
      if ReceivesFor(Exec(before).value, e, sid) then ReceivedBy(before, sid) + [e.chunk] else ReceivedBy(before, sid)
  }

  /** How often OnRecvCompleted has run for it. */
  function HandledBy(steps: seq<Step>, sid: SessionId): nat
    requires Exec(steps).Some?
  {
    if steps == [] then 0
    else
      var before := steps[..|steps| - 1];
      HandledBy(before, sid) + if HandlesFor(Exec(before).value, steps[|steps| - 1], sid) then 1 else 0
  }

  lemma SidesStay(s: State, e: Step, sid: SessionId)
    requires Next(s, e).Some? && !e.Accept? && !e.OsReceives? && !e.HandleRecv? && sid in s.sessions
    ensures sid in Next(s, e).value.sessions && Next(s, e).value.sessions[sid].data == s.sessions[sid].data
  {
  }

  lemma ReceiveStep(s: State, id: OpId, chunk: seq<byte>, sid: SessionId)
    requires DoOsReceives(s, id, chunk).Some? && sid in s.sessions
    ensures var d, d' := s.sessions[sid].data, DoOsReceives(s, id, chunk).value.sessions[sid].data;
            && d'.arrived == (if ReceivesFor(s, OsReceives(id, chunk), sid) then d.arrived + [chunk] else d.arrived)
            && d'.processed == d.processed
  {
  }

  lemma HandleStep(s: State, t: ThreadId, sid: SessionId)
    requires DoHandleRecv(s, t).Some? && sid in s.sessions
    ensures var d, d' := s.sessions[sid].data, DoHandleRecv(s, t).value.sessions[sid].data;
            && d'.arrived == d.arrived
            && |d'.processed| == |d.processed| + if HandlesFor(s, HandleRecv(t), sid) then 1 else 0
  {
  }

  lemma SessionsOnlyFromAccept(s: State, e: Step, sid: SessionId)
    requires Next(s, e).Some? && sid !in s.sessions
    ensures !ReceivesFor(s, e, sid) && !HandlesFor(s, e, sid)
    ensures sid in Next(s, e).value.sessions ==> e.Accept? && Next(s, e).value.sessions[sid] == NewSession()
  {
  }

  lemma AcceptStep(s: State, own: Owners, t: ThreadId, sid: SessionId)
    requires Inv(s, own) && DoAccept(s, t).Some? && sid in s.sessions
    ensures DoAccept(s, t).value.sessions[sid] == s.sessions[sid]
  {
    assert SessionOk(s, own, sid);
  }

  /** What the state remembers of the run, for a session that exists or not yet. */
  predicate DataRecorded(s: State, chunks: seq<seq<byte>>, n: nat, sid: SessionId) {
    if sid in s.sessions then s.sessions[sid].data.arrived == chunks && |s.sessions[sid].data.processed| == n
    else chunks == [] && n == 0
  }

  lemma {:induction false} DataIsRecorded(steps: seq<Step>, sid: SessionId)
    requires Exec(steps).Some?
    ensures DataRecorded(Exec(steps).value, ReceivedBy(steps, sid), HandledBy(steps, sid), sid)
  {
    if steps != [] {
      var before, e := steps[..|steps| - 1], steps[|steps| - 1];
      var s := Exec(before).value;
      DataIsRecorded(before, sid);
      if sid !in s.sessions {
        SessionsOnlyFromAccept(s, e, sid);
      } else if e.Accept? {
        var own := RunKeeps(before);
        AcceptStep(s, own, e.t, sid);
      } else if e.OsReceives? {
        ReceiveStep(s, e.id, e.chunk, sid);
      } else if e.HandleRecv? {
        HandleStep(s, e.t, sid);
      } else {
        SidesStay(s, e, sid);
      }
    }
  }

  /** A WSARecv or WSASend that was accepted under this number. */
  predicate Issues(e: Step, id: OpId, kind: Kind) {
    if kind == Recv then e.WsaRecv? && e.ok && e.id == id else e.IssueSend? && e.ok && e.id == id
  }

  lemma OpStep(s: State, e: Step, id: OpId)
    requires Next(s, e).Some? && id in Next(s, e).value.ops
    ensures var op := Next(s, e).value.ops[id];
            (id in s.ops && s.ops[id].kind == op.kind && s.ops[id].sid == op.sid) || Issues(e, id, op.kind)
  {
  }

  /** Nothing is outstanding or queued but what an accepted call of the run has put there. */
  lemma {:induction false} OperationsWereIssued(steps: seq<Step>, id: OpId)
    requires Exec(steps).Some? && id in Exec(steps).value.ops
    ensures exists i :: 0 <= i < |steps| && Issues(steps[i], id, Exec(steps).value.ops[id].kind)
  {
    if steps != [] {
      var before, e := steps[..|steps| - 1], steps[|steps| - 1];
      OpStep(Exec(before).value, e, id);
      if id in Exec(before).value.ops && Exec(before).value.ops[id].kind == Exec(steps).value.ops[id].kind {
        OperationsWereIssued(before, id);
        var i :| 0 <= i < |before| && Issues(before[i], id, Exec(before).value.ops[id].kind);
        assert steps[i] == before[i];
      }
    }
  }
}
