/** Every step of the send protocol keeps its invariant. */
module SendInvariant {
  import opened SendProtocol

  lemma PostKeeps(s: State, owner: Owner, t: ThreadId, data: Message)
    requires Inv(s, owner) && DoPost(s, t, data).Some?
    ensures Inv(DoPost(s, t, data).value, NextOwner(s, Post(t, data), owner))
  {
  }

  lemma PosterLockKeeps(s: State, owner: Owner, t: ThreadId)
    requires Inv(s, owner) && t in s.threads && s.threads[t].Posting? && DoLock(s, t).Some?
    ensures Inv(DoLock(s, t).value, owner)
  {
  }

  lemma RegisterLockKeeps(s: State, owner: Owner, t: ThreadId)
    requires Inv(s, owner) && t in s.threads && s.threads[t].BeforeRegister? && DoLock(s, t).Some?
    ensures Inv(DoLock(s, t).value, owner)
  {
  }

  lemma PopLockKeeps(s: State, owner: Owner, t: ThreadId)
    requires Inv(s, owner) && t in s.threads && s.threads[t].BeforePop? && DoLock(s, t).Some?
    ensures Inv(DoLock(s, t).value, owner)
  {
  }

  lemma LockKeeps(s: State, owner: Owner, t: ThreadId)
    requires Inv(s, owner) && DoLock(s, t).Some?
    ensures Inv(DoLock(s, t).value, NextOwner(s, Lock(t), owner))
  {
    if s.threads[t].Posting? {
      PosterLockKeeps(s, owner, t);
    } else if s.threads[t].BeforeRegister? {
      RegisterLockKeeps(s, owner, t);
    } else {
      PopLockKeeps(s, owner, t);
    }
  }

  lemma PushKeeps(s: State, owner: Owner, t: ThreadId)
    requires Inv(s, owner) && DoPush(s, t).Some?
    ensures Inv(DoPush(s, t).value, NextOwner(s, Push(t), owner))
  {
  }

  lemma PosterUnlockKeeps(s: State, owner: Owner, t: ThreadId)
    requires Inv(s, owner) && t in s.threads && s.threads[t].Pushed? && DoUnlock(s, t).Some?
    ensures Inv(DoUnlock(s, t).value, owner)
  {
  }

  lemma PopUnlockKeeps(s: State, owner: Owner, t: ThreadId)
    requires Inv(s, owner) && t in s.threads && s.threads[t].Popped? && DoUnlock(s, t).Some?
    ensures Inv(DoUnlock(s, t).value, owner)
  {
  }

  lemma RegisterUnlockKeeps(s: State, owner: Owner, t: ThreadId)
    requires Inv(s, owner) && t in s.threads && s.threads[t].Unlocking? && DoUnlock(s, t).Some?
    ensures Inv(DoUnlock(s, t).value, owner)
  {
  }

  lemma UnlockKeeps(s: State, owner: Owner, t: ThreadId)
    requires Inv(s, owner) && DoUnlock(s, t).Some?
    ensures Inv(DoUnlock(s, t).value, NextOwner(s, Unlock(t), owner))
  {
    if s.threads[t].Pushed? {
      PosterUnlockKeeps(s, owner, t);
    } else if s.threads[t].Popped? {
      PopUnlockKeeps(s, owner, t);
    } else {
      RegisterUnlockKeeps(s, owner, t);
    }
  }

  lemma ExchangeKeeps(s: State, owner: Owner, t: ThreadId)
    requires Inv(s, owner) && DoExchange(s, t).Some?
    ensures Inv(DoExchange(s, t).value, NextOwner(s, Exchange(t), owner))
  {
  }

  lemma TestQueueKeeps(s: State, owner: Owner, t: ThreadId)
    requires Inv(s, owner) && DoTestQueue(s, t).Some?
    ensures Inv(DoTestQueue(s, t).value, NextOwner(s, TestQueue(t), owner))
  {
  }

  lemma WsaSendKeeps(s: State, owner: Owner, t: ThreadId, ok: bool)
    requires Inv(s, owner) && DoWsaSend(s, t, ok).Some?
    ensures Inv(DoWsaSend(s, t, ok).value, NextOwner(s, WsaSend(t, ok), owner))
  {
  }

  lemma ClearFlagKeeps(s: State, owner: Owner, t: ThreadId)
    requires Inv(s, owner) && DoClearFlag(s, t).Some?
    ensures Inv(DoClearFlag(s, t).value, NextOwner(s, ClearFlag(t), owner))
  {
  }

  lemma OsCompletesKeeps(s: State, owner: Owner, i: nat)
    requires Inv(s, owner) && DoOsCompletes(s, i).Some?
    ensures Inv(DoOsCompletes(s, i).value, NextOwner(s, OsCompletes(i), owner))
  {
  }

  lemma DeliverKeeps(s: State, owner: Owner, t: ThreadId, i: nat)
    requires Inv(s, owner) && DoDeliver(s, t, i).Some?
    ensures Inv(DoDeliver(s, t, i).value, NextOwner(s, Deliver(t, i), owner))
  {
  }

  lemma DeliverZeroBytesKeeps(s: State, owner: Owner, i: nat)
    requires Inv(s, owner) && DoDeliverZeroBytes(s, i).Some?
    ensures Inv(DoDeliverZeroBytes(s, i).value, NextOwner(s, DeliverZeroBytes(i), owner))
  {
  }

  lemma PopKeeps(s: State, owner: Owner, t: ThreadId)
    requires Inv(s, owner) && DoPop(s, t).Some?
    ensures Inv(DoPop(s, t).value, NextOwner(s, Pop(t), owner))
  {
  }

  lemma StepKeeps(s: State, owner: Owner, e: Step)
    requires Inv(s, owner) && Next(s, e).Some?
    ensures Inv(Next(s, e).value, NextOwner(s, e, owner))
  {
    match e
    case Post(t, data) => PostKeeps(s, owner, t, data);
    case Lock(t) => LockKeeps(s, owner, t);
    case Push(t) => PushKeeps(s, owner, t);
    case Unlock(t) => UnlockKeeps(s, owner, t);
    case Exchange(t) => ExchangeKeeps(s, owner, t);
    case TestQueue(t) => TestQueueKeeps(s, owner, t);
    case WsaSend(t, ok) => WsaSendKeeps(s, owner, t, ok);
    case ClearFlag(t) => ClearFlagKeeps(s, owner, t);
    case OsCompletes(i) => OsCompletesKeeps(s, owner, i);
    case Deliver(t, i) => DeliverKeeps(s, owner, t, i);
    case DeliverZeroBytes(i) => DeliverZeroBytesKeeps(s, owner, i);
    case Pop(t) => PopKeeps(s, owner, t);
  }

  /** So it holds after every run, for some owner. */
  lemma {:induction false} RunKeeps(steps: seq<Step>) returns (owner: Owner)
    requires Exec(steps).Some?
    ensures Inv(Exec(steps).value, owner)
  {
    if steps == [] {
      owner := Nobody;
    } else {
      var before, e := steps[..|steps| - 1], steps[|steps| - 1];
      var o := RunKeeps(before);
      StepKeeps(Exec(before).value, o, e);
      owner := NextOwner(Exec(before).value, e, o);
    }
  }
}
