/**
 The completion port: any number of workers and posting threads over any number of sessions,
 from accept to disconnect, interleaved with the operating system. Of a session the model keeps
 its references, its receive buffer and what its receive path has done with the bytes.
 */
module Iocp {
  import opened Bytes
  import opened Framing

  type ThreadId = nat
  type SessionId = nat
  type OpId = nat

  datatype Kind = Recv | Send

  /** An overlapped operation: with the OS while `done` is None, then a queued completion of that many bytes. */
  datatype Op = Op(kind: Kind, sid: SessionId, done: Option<nat>)

  /** The part of a session that no two threads may use at once. */
  datatype ReceiveSide = ReceiveSide(
    recvBuffer: seq<byte>,
    receiver: Receiver,          // the packet handler's log and the ring buffer
    // history
    arrived: seq<seq<byte>>,     // what the OS wrote into recvBuffer, in order
    processed: seq<seq<byte>>)   // what OnRecvCompleted read from it, in order

  datatype Session = Session(
    registered: bool,            // in the SessionManager's map
    shared: bool,                // a reference has left OnAcceptCompleted, for the map, a room or an operation
    recvKeep: bool,              // keepAlive of the receive operation is set
    sendKeep: bool,              // keepAlive of the send operation is set
    data: ReceiveSide)

  /** Where a thread stands; it holds a reference to session `sid` all the while. */
  datatype Pc =
    | Created(sid: SessionId)            // OnAcceptCompleted has made the session
    | Registered(sid: SessionId)         // and added it to the manager
    | Handling(sid: SessionId, n: nat)   // took a receive completion of n bytes
    | Handled(sid: SessionId)            // OnRecvCompleted is done, PostRecv comes next
    | Arming(sid: SessionId)             // PostRecv has set keepAlive, WSARecv comes next
    | SendHandling(sid: SessionId)       // took a send completion
    | Posting(sid: SessionId)            // in PostSend
    | Removing(sid: SessionId)           // took a completion without bytes
    | Leaving(sid: SessionId)            // about to drop its reference

  datatype State = State(
    lastId: SessionId,
    sessions: map<SessionId, Session>,   // every session ever created
    threads: map<ThreadId, Pc>,
    ops: map<OpId, Op>)

  const INIT: State := State(0, map[], map[], map[])

  function NewSession(): Session {
    Session(false, false, false, false, ReceiveSide(seq(RECV_SIZE, _ => 0), FRESH, [], []))
  }

  datatype Step =
    | Accept(t: ThreadId)
    | AddSession(t: ThreadId)
    | KeepRecv(t: ThreadId)
    | WsaRecv(t: ThreadId, ok: bool, id: OpId)
    | OsReceives(id: OpId, chunk: seq<byte>)
    | Take(t: ThreadId, id: OpId)
    | HandleRecv(t: ThreadId)
    | StartPost(t: ThreadId, sid: SessionId)
    | IssueSend(t: ThreadId, ok: bool, id: OpId)
    | SkipSend(t: ThreadId)
    | OsSends(id: OpId, n: nat)
    | RemoveSession(t: ThreadId)
    | Drop(t: ThreadId)

  function Move(s: State, t: ThreadId, pc: Pc): State {
    s.(threads := s.threads[t := pc])
  }

  function Put(s: State, sid: SessionId, x: Session): State {
    s.(sessions := s.sessions[sid := x])
  }

  function PutOp(s: State, id: OpId, op: Op): State {
    s.(ops := s.ops[id := op])
  }

  /** In the map, where others find it. */
  function Added(x: Session): Session {
    x.(registered := true, shared := true)
  }

  function Erased(x: Session): Session {
    x.(registered := false)
  }

  function WithRecvKeep(x: Session): Session {
    x.(recvKeep := true)
  }

  function WithSendKeep(x: Session): Session {
    x.(sendKeep := true)
  }

  function WithData(x: Session, data: ReceiveSide): Session {
    x.(data := data)
  }

  /** The OS overwrites the head of the receive buffer. */
  function Fill(d: ReceiveSide, chunk: seq<byte>): ReceiveSide
    requires |chunk| <= |d.recvBuffer|
  {
    d.(recvBuffer := chunk + d.recvBuffer[|chunk|..],
       arrived := if chunk == [] then d.arrived else d.arrived + [chunk])
  }

  /** OnRecvCompleted on the first `n` bytes of the receive buffer. */
  function Process(d: ReceiveSide, n: nat): ReceiveSide
    requires n <= |d.recvBuffer|
  {
    var chunk := d.recvBuffer[..n];
    d.(receiver := Receive(d.receiver, chunk, BUFFER_SIZE), processed := d.processed + [chunk])
  }

  /** Thread `t` is at work on a session that exists. */
  predicate Stands(s: State, t: ThreadId) {
    t in s.threads && s.threads[t].sid in s.sessions
  }

  /** OnAcceptCompleted makes a session with a new id. */
  function DoAccept(s: State, t: ThreadId): Option<State> {
    if t in s.threads then None
    else
      var sid := s.lastId + 1;
      Some(Put(Move(s, t, Created(sid)), sid, NewSession()).(lastId := sid))
  }

  function DoAddSession(s: State, t: ThreadId): Option<State> {
    if !Stands(s, t) || !s.threads[t].Created? then None
    else
      var sid := s.threads[t].sid;
      Some(Put(Move(s, t, Registered(sid)), sid, Added(s.sessions[sid])))
  }

  /** The part of PostRecv that prepares the operation. */
  function DoKeepRecv(s: State, t: ThreadId): Option<State> {
    if !Stands(s, t) || !(s.threads[t].Registered? || s.threads[t].Handled?) then None
    else
      var sid := s.threads[t].sid;
      Some(Put(Move(s, t, Arming(sid)), sid, WithRecvKeep(s.sessions[sid])))
  }

  /** WSARecv: on success the OS owns the receive buffer, possibly at once. */
  function DoWsaRecv(s: State, t: ThreadId, ok: bool, id: OpId): Option<State> {
    if !Stands(s, t) || !s.threads[t].Arming? || id in s.ops then None
    else
      var sid := s.threads[t].sid;
      if ok then Some(PutOp(Move(s, t, Leaving(sid)), id, Op(Recv, sid, None)))
      else Some(Move(s, t, Leaving(sid)))
  }

  /** The OS completes a receive; no bytes means the peer is gone. */
  function DoOsReceives(s: State, id: OpId, chunk: seq<byte>): Option<State> {
    if id !in s.ops || s.ops[id].kind != Recv || s.ops[id].done.Some? || s.ops[id].sid !in s.sessions
       || |chunk| > RECV_SIZE || |s.sessions[s.ops[id].sid].data.recvBuffer| != RECV_SIZE then None
    else
      var sid := s.ops[id].sid;
      Some(Put(PutOp(s, id, Op(Recv, sid, Some(|chunk|))), sid,
               WithData(s.sessions[sid], Fill(s.sessions[sid].data, chunk))))
  }

  function KeepAlive(s: State, op: Op): bool {
    op.sid in s.sessions && if op.kind == Recv then s.sessions[op.sid].recvKeep else s.sessions[op.sid].sendKeep
  }

  /** A worker takes a completion and dispatches on its bytes and kind. */
  function DoTake(s: State, t: ThreadId, id: OpId): Option<State> {
    if t in s.threads || id !in s.ops || s.ops[id].done.None? then None
    else
      var op := s.ops[id];
      var taken := s.(ops := s.ops - {id});
      if !KeepAlive(s, op) then Some(taken)
      else if op.done.value == 0 then Some(Move(taken, t, Removing(op.sid)))
      else if op.kind == Recv then Some(Move(taken, t, Handling(op.sid, op.done.value)))
      else Some(Move(taken, t, SendHandling(op.sid)))
  }

  /** OnRecvCompleted: reads the receive buffer and drains the ring buffer. */
  function DoHandleRecv(s: State, t: ThreadId): Option<State> {
    if !Stands(s, t) || !s.threads[t].Handling?
       || s.threads[t].n > |s.sessions[s.threads[t].sid].data.recvBuffer| then None
    else
      var sid := s.threads[t].sid;
      Some(Put(Move(s, t, Handled(sid)), sid, WithData(s.sessions[sid], Process(s.sessions[sid].data, s.threads[t].n))))
  }

  /** A thread that has a reference to the session, from the manager, a room or a handler, calls PostSend. */
  function DoStartPost(s: State, t: ThreadId, sid: SessionId): Option<State> {
    if t in s.threads || sid !in s.sessions || !s.sessions[sid].shared then None
    else Some(Move(s, t, Posting(sid)))
  }

  predicate MaySend(s: State, t: ThreadId) {
    Stands(s, t) && (s.threads[t].Posting? || s.threads[t].SendHandling?)
  }

  /** RegisterSend sets keepAlive and calls WSASend. */
  function DoIssueSend(s: State, t: ThreadId, ok: bool, id: OpId): Option<State> {
    if !MaySend(s, t) || id in s.ops then None
    else
      var sid := s.threads[t].sid;
      var kept := Put(Move(s, t, Leaving(sid)), sid, WithSendKeep(s.sessions[sid]));
      if ok then Some(PutOp(kept, id, Op(Send, sid, None))) else Some(kept)
  }

  /** PostSend or SendCompleted finds nothing to register. */
  function DoSkipSend(s: State, t: ThreadId): Option<State> {
    if !MaySend(s, t) then None else Some(Move(s, t, Leaving(s.threads[t].sid)))
  }

  function DoOsSends(s: State, id: OpId, n: nat): Option<State> {
    if id !in s.ops || s.ops[id].kind != Send || s.ops[id].done.Some? then None
    else Some(PutOp(s, id, Op(Send, s.ops[id].sid, Some(n))))
  }

  function DoRemoveSession(s: State, t: ThreadId): Option<State> {
    if !Stands(s, t) || !s.threads[t].Removing? then None
    else
      var sid := s.threads[t].sid;
      Some(Put(Move(s, t, Leaving(sid)), sid, Erased(s.sessions[sid])))
  }

  function DoDrop(s: State, t: ThreadId): Option<State> {
    if t !in s.threads || !s.threads[t].Leaving? then None
    else Some(s.(threads := s.threads - {t}))
  }

  function Next(s: State, e: Step): Option<State> {
    match e
    case Accept(t) => DoAccept(s, t)
    case AddSession(t) => DoAddSession(s, t)
    case KeepRecv(t) => DoKeepRecv(s, t)
    case WsaRecv(t, ok, id) => DoWsaRecv(s, t, ok, id)
    case OsReceives(id, chunk) => DoOsReceives(s, id, chunk)
    case Take(t, id) => DoTake(s, t, id)
    case HandleRecv(t) => DoHandleRecv(s, t)
    case StartPost(t, sid) => DoStartPost(s, t, sid)
    case IssueSend(t, ok, id) => DoIssueSend(s, t, ok, id)
    case SkipSend(t) => DoSkipSend(s, t)
    case OsSends(id, n) => DoOsSends(s, id, n)
    case RemoveSession(t) => DoRemoveSession(s, t)
    case Drop(t) => DoDrop(s, t)
  }

  function Exec(steps: seq<Step>): Option<State> {
    if steps == [] then Some(INIT)
    else
      var before := Exec(steps[..|steps| - 1]);
      if before.None? then None else Next(before.value, steps[|steps| - 1])
  }

  // ------------------------------------------------------------------
  // Invariant
  // ------------------------------------------------------------------

  /** The thread uses the session's receive buffer or ring buffer, or is the next to. */
  predicate OwnsReceive(pc: Pc) {
    pc.Created? || pc.Registered? || pc.Handling? || pc.Handled? || pc.Arming?
  }

  /** Who has the receive side of a session. */
  datatype Owner = Nobody | Thread(t: ThreadId) | Operation(id: OpId)

  type Owners = map<SessionId, Owner>

  /** The last `n` bytes to arrive lie in the receive buffer and have not been processed yet. */
  predicate Waiting(d: ReceiveSide, n: nat) {
    if n == 0 then d.arrived == d.processed
    else n <= |d.recvBuffer| && d.arrived == d.processed + [d.recvBuffer[..n]]
  }

  /** What is true of a receive side whoever has it. */
  predicate Consistent(d: ReceiveSide) {
    && |d.recvBuffer| == RECV_SIZE
    && d.processed <= d.arrived && |d.arrived| <= |d.processed| + 1
    && ChunksOf(d.arrived, RECV_SIZE)
    && d.receiver == ReceiveAll(d.processed, BUFFER_SIZE)
  }

  predicate ThreadHas(x: Session, pc: Pc) {
    match pc
    case Created(_) => Waiting(x.data, 0)
    case Registered(_) => Waiting(x.data, 0)
    case Handling(_, n) => x.recvKeep && n > 0 && Waiting(x.data, n)
    case Handled(_) => x.recvKeep && Waiting(x.data, 0)
    case Arming(_) => x.recvKeep && Waiting(x.data, 0)
    case _ => false
  }

  predicate OperationHas(x: Session, op: Op) {
    op.kind == Recv && x.recvKeep && Waiting(x.data, if op.done.Some? then op.done.value else 0)
  }

  /** The owner of the receive side exists; without one the session still keeps itself alive. */
  predicate OwnerOk(s: State, owner: Owner, sid: SessionId)
    requires sid in s.sessions
  {
    match owner
    case Nobody => s.sessions[sid].recvKeep
    case Thread(t) => t in s.threads && s.threads[t].sid == sid && ThreadHas(s.sessions[sid], s.threads[t])
    case Operation(id) => id in s.ops && s.ops[id].sid == sid && OperationHas(s.sessions[sid], s.ops[id])
  }

  predicate SessionOk(s: State, own: Owners, sid: SessionId)
    requires sid in s.sessions
  {
    sid <= s.lastId && sid in own && Consistent(s.sessions[sid].data) && OwnerOk(s, own[sid], sid)
  }

  predicate ThreadOk(s: State, own: Owners, t: ThreadId)
    requires t in s.threads
  {
    var pc := s.threads[t];
    pc.sid in s.sessions && (OwnsReceive(pc) ==> pc.sid in own && own[pc.sid] == Thread(t))
  }

  predicate OpOk(s: State, own: Owners, id: OpId)
    requires id in s.ops
  {
    var op := s.ops[id];
    KeepAlive(s, op) && (op.kind == Recv ==> op.sid in own && own[op.sid] == Operation(id))
  }

  ghost predicate SessionsOk(s: State, own: Owners) {
    forall sid | sid in s.sessions :: SessionOk(s, own, sid)
  }

  ghost predicate ThreadsOk(s: State, own: Owners) {
    forall t | t in s.threads :: ThreadOk(s, own, t)
  }

  ghost predicate OpsOk(s: State, own: Owners) {
    forall id | id in s.ops :: OpOk(s, own, id)
  }

  ghost predicate Inv(s: State, own: Owners) {
    SessionsOk(s, own) && ThreadsOk(s, own) && OpsOk(s, own)
  }

  /** How a receive side changes hands. */
  function NextOwners(s: State, e: Step, own: Owners): Owners {
    match e
    case Accept(t) => own[s.lastId + 1 := Thread(t)]
    case WsaRecv(t, ok, id) =>
      if t !in s.threads then own else own[s.threads[t].sid := if ok then Operation(id) else Nobody]
    case Take(t, id) =>
      if id !in s.ops || s.ops[id].kind == Send || s.ops[id].done.None? then own
      else own[s.ops[id].sid := if s.ops[id].done.value == 0 then Nobody else Thread(t)]
    case _ => own
  }
}
