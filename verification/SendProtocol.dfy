/**
 The send side of one session as a transition system: any number of threads inside PostSend,
 any number of workers running send completions, and the operating system, interleaved at every
 access to the lock, the queue and the sending flag.
 */
module SendProtocol {
  import opened Bytes

  type ThreadId = nat
  type Message = seq<byte>

  /** Where a thread stands. A thread that is in none of these calls is not in the map. */
  datatype Pc =
    | Posting(data: Message)      // in PostSend, wants the lock
    | PushLocked(data: Message)   // holds the lock, about to push
    | Pushed                      // holds the lock, about to release it
    | BeforeExchange              // about to exchange the flag
    | BeforeRegister              // calls RegisterSend, wants the lock
    | RegisterLocked              // holds the lock, about to test the queue
    | FoundEmpty                  // holds the lock, about to clear the flag
    | Sending                     // holds the lock, about to call WSASend
    | SendFailed                  // holds the lock, about to clear the flag
    | Unlocking                   // holds the lock, about to leave RegisterSend
    | BeforePop(index: nat)       // runs the completion of message `index`, wants the lock
    | PopLocked(index: nat)       // holds the lock, about to pop
    | Popped                      // holds the lock, about to release it

  datatype State = State(
    queue: seq<Message>,
    flag: bool,
    lock: Option<ThreadId>,
    threads: map<ThreadId, Pc>,
    // numbers, in push order, of the messages whose buffer the OS owns
    outstanding: seq<nat>,
    // the same for completions no worker has taken yet
    completions: seq<nat>,
    // history
    pushed: seq<Message>,     // every message, in lock order
    completed: seq<Message>,  // popped messages
    wire: seq<Message>,       // buffers of the successful WSASend calls, in order
    stalled: bool,            // the last registration failed and no poster has won the flag since
    lost: bool)               // a zero-byte completion went to the disconnect path

  const INIT: State := State([], false, None, map[], [], [], [], [], [], false, false)

  datatype Step =
    | Post(t: ThreadId, data: Message)
    | Lock(t: ThreadId)
    | Push(t: ThreadId)
    | Unlock(t: ThreadId)
    | Exchange(t: ThreadId)
    | TestQueue(t: ThreadId)
    | WsaSend(t: ThreadId, ok: bool)
    | ClearFlag(t: ThreadId)
    | OsCompletes(i: nat)
    | Deliver(t: ThreadId, i: nat)
    | DeliverZeroBytes(i: nat)
    | Pop(t: ThreadId)

  predicate At(s: State, t: ThreadId) {
    t in s.threads
  }

  function Move(s: State, t: ThreadId, pc: Pc): State {
    s.(threads := s.threads[t := pc])
  }

  function Leave(s: State, t: ThreadId): State {
    s.(threads := s.threads - {t})
  }

  function Without<T>(q: seq<T>, i: nat): seq<T>
    requires i < |q|
  {
    q[..i] + q[i + 1..]
  }

  /** A thread calls PostSend. */
  function DoPost(s: State, t: ThreadId, data: Message): Option<State> {
    if At(s, t) then None else Some(Move(s, t, Posting(data)))
  }

  /** A thread that waits for the lock gets it. */
  function DoLock(s: State, t: ThreadId): Option<State> {
    if !At(s, t) || s.lock.Some? then None
    else
      match s.threads[t]
      case Posting(data) => Some(Move(s, t, PushLocked(data)).(lock := Some(t)))
      case BeforeRegister => Some(Move(s, t, RegisterLocked).(lock := Some(t)))
      case BeforePop(i) => Some(Move(s, t, PopLocked(i)).(lock := Some(t)))
      case _ => None
  }

  function DoPush(s: State, t: ThreadId): Option<State> {
    if !At(s, t) || !s.threads[t].PushLocked? then None
    else
      var data := s.threads[t].data;
      Some(Move(s, t, Pushed).(queue := s.queue + [data], pushed := s.pushed + [data]))
  }

  function DoUnlock(s: State, t: ThreadId): Option<State> {
    if !At(s, t) then None
    else
      match s.threads[t]
      case Pushed => Some(Move(s, t, BeforeExchange).(lock := None))
      case Popped => Some(Move(s, t, BeforeRegister).(lock := None))
      case Unlocking => Some(Leave(s, t).(lock := None))
      case _ => None
  }

  /** The exchange outside the lock; the thread that finds the flag clear goes on to register. */
  function DoExchange(s: State, t: ThreadId): Option<State> {
    if !At(s, t) || !s.threads[t].BeforeExchange? then None
    else if s.flag then Some(Leave(s, t))
    else Some(Move(s, t, BeforeRegister).(flag := true, stalled := false))
  }

  function DoTestQueue(s: State, t: ThreadId): Option<State> {
    if !At(s, t) || !s.threads[t].RegisterLocked? then None
    else Some(Move(s, t, if s.queue == [] then FoundEmpty else Sending))
  }

  /** WSASend on the front of the queue; on success the OS owns that buffer. */
  function DoWsaSend(s: State, t: ThreadId, ok: bool): Option<State> {
    if !At(s, t) || !s.threads[t].Sending? || s.queue == [] then None
    else if ok then
      Some(Move(s, t, Unlocking).(outstanding := s.outstanding + [|s.completed|], wire := s.wire + [s.queue[0]]))
    else Some(Move(s, t, SendFailed))
  }

  /** The two places where RegisterSend clears the flag: the queue was empty, or WSASend failed. */
  function DoClearFlag(s: State, t: ThreadId): Option<State> {
    if !At(s, t) then None
    else if s.threads[t].FoundEmpty? then Some(Move(s, t, Unlocking).(flag := false))
    else if s.threads[t].SendFailed? then Some(Move(s, t, Unlocking).(flag := false, stalled := true))
    else None
  }

  function DoOsCompletes(s: State, i: nat): Option<State> {
    if i >= |s.outstanding| then None
    else Some(s.(outstanding := Without(s.outstanding, i), completions := s.completions + [s.outstanding[i]]))
  }

  /** A worker takes a completion with bytes and calls SendCompleted. */
  function DoDeliver(s: State, t: ThreadId, i: nat): Option<State> {
    if At(s, t) || i >= |s.completions| then None
    else Some(Move(s, t, BeforePop(s.completions[i])).(completions := Without(s.completions, i)))
  }

  /** A completion without bytes takes the disconnect path and never reaches SendCompleted. */
  function DoDeliverZeroBytes(s: State, i: nat): Option<State> {
    if i >= |s.completions| then None
    else Some(s.(completions := Without(s.completions, i), lost := true))
  }

  function DoPop(s: State, t: ThreadId): Option<State> {
    if !At(s, t) || !s.threads[t].PopLocked? then None
    else if s.queue == [] then Some(Move(s, t, Popped))
    else Some(Move(s, t, Popped).(queue := s.queue[1..], completed := s.completed + [s.queue[0]]))
  }

  /** One step, or None where it is not enabled. */
  function Next(s: State, e: Step): Option<State> {
    match e
    case Post(t, data) => DoPost(s, t, data)
    case Lock(t) => DoLock(s, t)
    case Push(t) => DoPush(s, t)
    case Unlock(t) => DoUnlock(s, t)
    case Exchange(t) => DoExchange(s, t)
    case TestQueue(t) => DoTestQueue(s, t)
    case WsaSend(t, ok) => DoWsaSend(s, t, ok)
    case ClearFlag(t) => DoClearFlag(s, t)
    case OsCompletes(i) => DoOsCompletes(s, i)
    case Deliver(t, i) => DoDeliver(s, t, i)
    case DeliverZeroBytes(i) => DoDeliverZeroBytes(s, i)
    case Pop(t) => DoPop(s, t)
  }

  /** A run, or None if some step of it is not enabled. */
  function Exec(steps: seq<Step>): Option<State> {
    if steps == [] then Some(INIT)
    else
      var before := Exec(steps[..|steps| - 1]);
      if before.None? then None else Next(before.value, steps[|steps| - 1])
  }

  // ------------------------------------------------------------------
  // Invariant
  // ------------------------------------------------------------------

  predicate HoldsLock(pc: Pc) {
    pc.PushLocked? || pc.Pushed? || pc.RegisterLocked? || pc.FoundEmpty? || pc.Sending? || pc.SendFailed?
    || pc.Unlocking? || pc.PopLocked? || pc.Popped?
  }

  /** The thread is the one that may register the next send. */
  predicate OwnsFlag(pc: Pc) {
    pc.BeforeRegister? || pc.RegisterLocked? || pc.FoundEmpty? || pc.Sending? || pc.SendFailed?
    || Completing(pc) || pc.Popped?
  }

  predicate Completing(pc: Pc) {
    pc.BeforePop? || pc.PopLocked?
  }

  /** A poster that has pushed and not yet exchanged the flag. */
  predicate AboutToExchange(pc: Pc) {
    pc.Pushed? || pc.BeforeExchange?
  }

  /** Who is responsible for the next send. */
  datatype Owner = Nobody | Thread(t: ThreadId) | Os | Queued | Gone

  ghost predicate LockInv(s: State) {
    && (forall t | t in s.threads :: HoldsLock(s.threads[t]) <==> s.lock == Some(t))
    && (s.lock.Some? ==> s.lock.value in s.threads)
  }

  /** There is one owner at a time, and one exactly while the flag is set. */
  ghost predicate OwnerInv(s: State, owner: Owner) {
    && (forall t | t in s.threads :: OwnsFlag(s.threads[t]) <==> owner == Thread(t))
    && (owner.Thread? ==> owner.t in s.threads)
    && |s.outstanding| == (if owner.Os? then 1 else 0)
    && |s.completions| == (if owner.Queued? then 1 else 0)
    && (s.lost <==> owner.Gone?)
    && (s.flag <==> owner != Nobody)
    && (s.stalled ==> !s.flag)
  }

  /** The front message is with the OS, or back from it and not yet popped. */
  ghost predicate FrontInTransit(s: State, owner: Owner) {
    owner.Os? || owner.Queued? || owner.Gone?
    || (owner.Thread? && owner.t in s.threads && Completing(s.threads[owner.t]))
  }

  ghost predicate QueueInv(s: State, owner: Owner) {
    && s.pushed == s.completed + s.queue
    && (forall i | 0 <= i < |s.outstanding| :: s.outstanding[i] == |s.completed|)
    && (forall i | 0 <= i < |s.completions| :: s.completions[i] == |s.completed|)
    && (forall t | t in s.threads && Completing(s.threads[t]) :: s.threads[t].index == |s.completed|)
    && (forall t | t in s.threads && s.threads[t].FoundEmpty? :: s.queue == [])
    && (forall t | t in s.threads && (s.threads[t].Sending? || s.threads[t].SendFailed?) :: s.queue != [])
    && (FrontInTransit(s, owner) ==> s.queue != [])
    && s.wire == if FrontInTransit(s, owner) then s.completed + [s.queue[0]] else s.completed
  }

  ghost predicate SomeoneAboutToExchange(s: State) {
    exists t :: t in s.threads && AboutToExchange(s.threads[t])
  }

  ghost predicate WakeupInv(s: State) {
    && (s.queue != [] && !s.flag ==> s.stalled || SomeoneAboutToExchange(s))
    && (s.stalled ==> s.queue != [])
  }

  ghost predicate Inv(s: State, owner: Owner) {
    LockInv(s) && OwnerInv(s, owner) && QueueInv(s, owner) && WakeupInv(s)
  }

  /** How the responsibility moves. */
  function NextOwner(s: State, e: Step, owner: Owner): Owner {
    match e
    case Exchange(t) => if s.flag then owner else Thread(t)
    case WsaSend(_, ok) => if ok then Os else owner
    case ClearFlag(_) => Nobody
    case OsCompletes(_) => Queued
    case Deliver(t, _) => Thread(t)
    case DeliverZeroBytes(_) => Gone
    case _ => owner
  }
}
