/**
 The two phases of the load client: every worker makes the connection attempts of its slice, counts
 the latch down for each, waits for the latch and only then sends.
 */
module ConnectLatch {
  import opened Bytes

  /** `total` connections shared by `workers` threads. */
  datatype Config = Config(total: nat, workers: nat)

  function SliceStart(cfg: Config, w: nat): nat
    requires cfg.workers > 0
  {
    w * (cfg.total / cfg.workers)
  }

  function SliceEnd(cfg: Config, w: nat): nat
    requires cfg.workers > 0
  {
    if w == cfg.workers - 1 then cfg.total else SliceStart(cfg, w) + cfg.total / cfg.workers
  }

  predicate InSlice(cfg: Config, id: nat, w: nat)
    requires cfg.workers > 0
  {
    w < cfg.workers && SliceStart(cfg, w) <= id < SliceEnd(cfg, w)
  }

  lemma MultiplyMonotone(a: nat, b: nat, n: nat)
    requires a <= b
    ensures a * n <= b * n
  {
  }

  /** Slices are intervals inside [0, total), each ending where the next begins. */
  lemma SlicesAreIntervals(cfg: Config, w: nat)
    requires w < cfg.workers
    ensures SliceStart(cfg, w) <= SliceEnd(cfg, w) <= cfg.total
    ensures w + 1 < cfg.workers ==> SliceEnd(cfg, w) == SliceStart(cfg, w + 1)
  {
    var n := cfg.total / cfg.workers;
    assert cfg.workers * n <= cfg.total;
    MultiplyMonotone(w + 1, cfg.workers, n);
    assert (w + 1) * n == w * n + n;
  }

  /** All slices but the last have the same size, the quotient of the division; the last takes what is left over. */
  lemma SlicesAreEven(cfg: Config, w: nat)
    requires w < cfg.workers
    ensures var size := SliceEnd(cfg, 0) - SliceStart(cfg, 0);
            var last := SliceEnd(cfg, cfg.workers - 1) - SliceStart(cfg, cfg.workers - 1);
            && (w + 1 < cfg.workers ==>
                  SliceEnd(cfg, w) - SliceStart(cfg, w) == size
                  && size * cfg.workers <= cfg.total < (size + 1) * cfg.workers)
            && (cfg.workers > 1 ==> last == cfg.total - (cfg.workers - 1) * size < size + cfg.workers)
            && SliceStart(cfg, 0) == 0
  {
    var n, m := cfg.total / cfg.workers, cfg.workers;
    assert cfg.total == m * n + cfg.total % m;
    assert (n + 1) * m == n * m + m && (m - 1) * n == m * n - n;
  }

  /** A later slice begins where or after an earlier one ends. */
  lemma SlicesAreOrdered(cfg: Config, v: nat, w: nat)
    requires v < w < cfg.workers
    ensures SliceEnd(cfg, v) <= SliceStart(cfg, w)
  {
    var n := cfg.total / cfg.workers;
    MultiplyMonotone(v + 1, w, n);
    assert (v + 1) * n == v * n + n;
  }

  /** The worker that attempts connection `id`. */
  function WorkerOf(cfg: Config, id: nat): nat
    requires cfg.workers > 0
  {
    var n := cfg.total / cfg.workers;
    if n == 0 || id / n >= cfg.workers then cfg.workers - 1 else id / n
  }

  lemma InOwnSlice(cfg: Config, id: nat)
    requires cfg.workers > 0 && id < cfg.total
    ensures InSlice(cfg, id, WorkerOf(cfg, id))
  {
    var n, v := cfg.total / cfg.workers, WorkerOf(cfg, id);
    if n > 0 {
      assert id == id / n * n + id % n;
      MultiplyMonotone(v, id / n, n);
    }
  }

  /** The slices partition the connections: every id lies in exactly one of them. */
  lemma SlicesPartition(cfg: Config, id: nat, w: nat)
    requires cfg.workers > 0 && id < cfg.total
    ensures InSlice(cfg, id, w) <==> w == WorkerOf(cfg, id)
  {
    var v := WorkerOf(cfg, id);
    InOwnSlice(cfg, id);
    if w < v {
      SlicesAreOrdered(cfg, w, v);
    } else if v < w < cfg.workers {
      SlicesAreOrdered(cfg, v, w);
    }
  }

  /** The first phase of one worker; `accepts(id)` is whether the server takes connection `id`. */
  method ConnectSlice(cfg: Config, w: nat, accepts: nat -> bool)
    returns (clients: seq<nat>, failed: nat, counted: nat)
    requires w < cfg.workers
    ensures counted == SliceEnd(cfg, w) - SliceStart(cfg, w) && |clients| + failed == counted
    ensures forall id: nat :: id in clients <==> InSlice(cfg, id, w) && accepts(id)
    ensures forall i, j | 0 <= i < j < |clients| :: clients[i] < clients[j]
  {
    SlicesAreIntervals(cfg, w);
    clients, failed, counted := [], 0, 0;
    for id := SliceStart(cfg, w) to SliceEnd(cfg, w)
      invariant counted == id - SliceStart(cfg, w) && |clients| + failed == counted
      invariant forall jd: nat :: jd in clients <==> SliceStart(cfg, w) <= jd < id && accepts(jd)
      invariant forall i, j | 0 <= i < j < |clients| :: clients[i] < clients[j]
    {
      if accepts(id) {
        assert forall i | 0 <= i < |clients| :: clients[i] in clients;
        clients := clients + [id];
      } else {
        failed := failed + 1;
      }
      counted := counted + 1;
    }
  }

  // ------------------------------------------------------------------
  // The phases as a transition system
  // ------------------------------------------------------------------

  datatype Pc =
    | Connecting(next: nat)   // about to attempt `next`, or at the end of the slice
    | Counting(next: nat)     // has attempted `next`, about to count down
    | AtLatch
    | Sending
    | Done

  datatype State = State(workers: seq<Pc>, latch: int, connected: nat, failed: nat)

  datatype Step =
    | Attempt(w: nat, ok: bool)
    | CountDown(w: nat)
    | EndLoop(w: nat)
    | PassLatch(w: nat)
    | Finish(w: nat)

  function Init(cfg: Config): State
    requires cfg.workers > 0
  {
    State(seq(cfg.workers, w requires 0 <= w < cfg.workers => Connecting(SliceStart(cfg, w))), cfg.total, 0, 0)
  }

  function Move(s: State, w: nat, pc: Pc): State
    requires w < |s.workers|
  {
    s.(workers := s.workers[w := pc])
  }

  function Next(cfg: Config, s: State, e: Step): Option<State>
    requires cfg.workers > 0
  {
    if e.w >= |s.workers| then None
    else
      match (e, s.workers[e.w])
      case (Attempt(w, ok), Connecting(next)) =>
        if next >= SliceEnd(cfg, w) then None
        else if ok then Some(Move(s, w, Counting(next)).(connected := s.connected + 1))
        else Some(Move(s, w, Counting(next)).(failed := s.failed + 1))
      case (CountDown(w), Counting(next)) => Some(Move(s, w, Connecting(next + 1)).(latch := s.latch - 1))
      case (EndLoop(w), Connecting(next)) => if next < SliceEnd(cfg, w) then None else Some(Move(s, w, AtLatch))
      case (PassLatch(w), AtLatch) => if s.latch != 0 then None else Some(Move(s, w, Sending))
      case (Finish(w), Sending) => Some(Move(s, w, Done))
      case _ => None
  }

  function Exec(cfg: Config, steps: seq<Step>): Option<State>
    requires cfg.workers > 0
  {
    if steps == [] then Some(Init(cfg))
    else
      var before := Exec(cfg, steps[..|steps| - 1]);
      if before.None? then None else Next(cfg, before.value, steps[|steps| - 1])
  }

  // ------------------------------------------------------------------
  // Sums over the workers
  // ------------------------------------------------------------------

  function Sum(ws: seq<Pc>, f: (nat, Pc) -> int): int {
    if ws == [] then 0 else Sum(ws[..|ws| - 1], f) + f(|ws| - 1, ws[|ws| - 1])
  }

  lemma {:induction false} SumMoved(ws: seq<Pc>, f: (nat, Pc) -> int, w: nat, pc: Pc)
    requires w < |ws|
    ensures Sum(ws[w := pc], f) == Sum(ws, f) - f(w, ws[w]) + f(w, pc)
  {
    var last := |ws| - 1;
    if w == last {
      assert ws[w := pc][..last] == ws[..last];
    } else {
      SumMoved(ws[..last], f, w, pc);
      assert ws[w := pc][..last] == ws[..last][w := pc];
    }
  }

  lemma {:induction false} SumOfNone(ws: seq<Pc>, f: (nat, Pc) -> int)
    requires forall w | 0 <= w < |ws| :: f(w, ws[w]) >= 0
    ensures Sum(ws, f) >= 0
    ensures Sum(ws, f) == 0 <==> forall w | 0 <= w < |ws| :: f(w, ws[w]) == 0
  {
    if ws != [] {
      SumOfNone(ws[..|ws| - 1], f);
      assert forall w | 0 <= w < |ws| - 1 :: ws[..|ws| - 1][w] == ws[w];
    }
  }

  /** Count-downs a worker still owes. */
  function Owed(cfg: Config): (nat, Pc) -> int
    requires cfg.workers > 0
  {
    (w: nat, pc: Pc) => match pc
      case Connecting(next) => SliceEnd(cfg, w) - next
      case Counting(next) => SliceEnd(cfg, w) - next
      case _ => 0
  }

  /** Attempts a worker still has to make. */
  function ToAttempt(cfg: Config): (nat, Pc) -> int
    requires cfg.workers > 0
  {
    (w: nat, pc: Pc) => match pc
      case Connecting(next) => SliceEnd(cfg, w) - next
      case Counting(next) => SliceEnd(cfg, w) - next - 1
      case _ => 0
  }

  /** Steps a worker can still make. */
  function StepsLeft(cfg: Config): (nat, Pc) -> int
    requires cfg.workers > 0
  {
    (w: nat, pc: Pc) => match pc
      case Connecting(next) => 2 * (SliceEnd(cfg, w) - next) + 3
      case Counting(next) => 2 * (SliceEnd(cfg, w) - next) + 2
      case AtLatch => 2
      case Sending => 1
      case Done => 0
  }

  lemma {:induction false} InitSums(cfg: Config, k: nat)
    requires 0 < k <= cfg.workers
    ensures Sum(Init(cfg).workers[..k], Owed(cfg)) == SliceEnd(cfg, k - 1)
    ensures Sum(Init(cfg).workers[..k], ToAttempt(cfg)) == SliceEnd(cfg, k - 1)
    ensures Sum(Init(cfg).workers[..k], StepsLeft(cfg)) == 2 * SliceEnd(cfg, k - 1) + 3 * k
  {
    var ws := Init(cfg).workers[..k];
    assert ws[..k - 1] == Init(cfg).workers[..k - 1];
    if k > 1 {
      InitSums(cfg, k - 1);
      SlicesAreIntervals(cfg, k - 2);
    } else {
      assert ws[..0] == [];
    }
  }

  // ------------------------------------------------------------------
  // Guarantees
  // ------------------------------------------------------------------

  predicate InRange(cfg: Config, w: nat, pc: Pc)
    requires cfg.workers > 0
  {
    match pc
    case Connecting(next) => next <= SliceEnd(cfg, w)
    case Counting(next) => next < SliceEnd(cfg, w)
    case _ => true
  }

  predicate PastLatch(pc: Pc) {
    pc.Sending? || pc.Done?
  }

  ghost predicate Inv(cfg: Config, s: State)
    requires cfg.workers > 0
  {
    && |s.workers| == cfg.workers
    && (forall w | 0 <= w < |s.workers| :: InRange(cfg, w, s.workers[w]))
    && s.latch == Sum(s.workers, Owed(cfg))
    && s.connected + s.failed + Sum(s.workers, ToAttempt(cfg)) == cfg.total
    && (forall w | 0 <= w < |s.workers| && PastLatch(s.workers[w]) :: s.latch == 0)
  }

  lemma InvInit(cfg: Config)
    requires cfg.workers > 0
    ensures Inv(cfg, Init(cfg))
  {
    InitSums(cfg, cfg.workers);
    assert Init(cfg).workers[..cfg.workers] == Init(cfg).workers;
    forall w | 0 <= w < cfg.workers
      ensures InRange(cfg, w, Init(cfg).workers[w])
    {
      SlicesAreIntervals(cfg, w);
    }
  }

  lemma CountDownNotAtZero(cfg: Config, s: State, w: nat)
    requires cfg.workers > 0 && Inv(cfg, s) && w < |s.workers| && s.workers[w].Counting?
    ensures s.latch > 0
  {
    forall v | 0 <= v < |s.workers|
      ensures Owed(cfg)(v, s.workers[v]) >= 0
    {
      assert InRange(cfg, v, s.workers[v]);
    }
    assert Owed(cfg)(w, s.workers[w]) > 0;
    SumOfNone(s.workers, Owed(cfg));
  }

  lemma InvStep(cfg: Config, s: State, e: Step)
    requires cfg.workers > 0 && Inv(cfg, s) && Next(cfg, s, e).Some?
    ensures Inv(cfg, Next(cfg, s, e).value)
  {
    var w, pc := e.w, Next(cfg, s, e).value.workers[e.w];
    assert Next(cfg, s, e).value.workers == s.workers[w := pc];
    SumMoved(s.workers, Owed(cfg), w, pc);
    SumMoved(s.workers, ToAttempt(cfg), w, pc);
    if e.CountDown? {
      CountDownNotAtZero(cfg, s, w);
    }
  }

  lemma StepsLeftStep(cfg: Config, s: State, e: Step)
    requires cfg.workers > 0 && Inv(cfg, s) && Next(cfg, s, e).Some?
    ensures Sum(Next(cfg, s, e).value.workers, StepsLeft(cfg)) == Sum(s.workers, StepsLeft(cfg)) - 1
  {
    var w, pc := e.w, Next(cfg, s, e).value.workers[e.w];
    assert Next(cfg, s, e).value.workers == s.workers[w := pc];
    SumMoved(s.workers, StepsLeft(cfg), w, pc);
  }

  /** How many attempts of the run came out like this, and how many count-downs there were. */
  function Attempts(steps: seq<Step>, ok: bool): nat {
    if steps == [] then 0
    else
      var e := steps[|steps| - 1];
      Attempts(steps[..|steps| - 1], ok) + if e.Attempt? && e.ok == ok then 1 else 0
  }

  function CountDowns(steps: seq<Step>): nat {
    if steps == [] then 0 else CountDowns(steps[..|steps| - 1]) + if steps[|steps| - 1].CountDown? then 1 else 0
  }

  lemma {:induction false} CountersCount(cfg: Config, steps: seq<Step>)
    requires cfg.workers > 0 && Exec(cfg, steps).Some?
    ensures var s := Exec(cfg, steps).value;
            && s.connected == Attempts(steps, true) && s.failed == Attempts(steps, false)
            && s.latch == cfg.total - CountDowns(steps)
  {
    if steps != [] {
      CountersCount(cfg, steps[..|steps| - 1]);
    }
  }

  lemma {:induction false} InvRun(cfg: Config, steps: seq<Step>)
    requires cfg.workers > 0 && Exec(cfg, steps).Some?
    ensures Inv(cfg, Exec(cfg, steps).value)
    ensures |steps| + Sum(Exec(cfg, steps).value.workers, StepsLeft(cfg)) == 2 * cfg.total + 3 * cfg.workers
  {
    if steps == [] {
      InvInit(cfg);
      InitSums(cfg, cfg.workers);
      assert Init(cfg).workers[..cfg.workers] == Init(cfg).workers;
    } else {
      var before := steps[..|steps| - 1];
      InvRun(cfg, before);
      InvStep(cfg, Exec(cfg, before).value, steps[|steps| - 1]);
      StepsLeftStep(cfg, Exec(cfg, before).value, steps[|steps| - 1]);
    }
  }

  /** The worker has made and counted all its attempts. */
  predicate Through(cfg: Config, w: nat, pc: Pc)
    requires cfg.workers > 0
  {
    match pc
    case Connecting(next) => next >= SliceEnd(cfg, w)
    case Counting(_) => false
    case _ => true
  }

  /**
   The barrier: the latch never goes below zero, is zero exactly when every worker has made and
   counted all its attempts, and nobody sends before; then every connection succeeded or failed.
   */
  lemma LatchIsABarrier(cfg: Config, steps: seq<Step>)
    requires cfg.workers > 0 && Exec(cfg, steps).Some?
    ensures var s := Exec(cfg, steps).value;
            && |s.workers| == cfg.workers
            && s.latch == cfg.total - CountDowns(steps) >= 0
            && s.connected == Attempts(steps, true) && s.failed == Attempts(steps, false)
            && (s.latch == 0 <==> forall w | 0 <= w < |s.workers| :: Through(cfg, w, s.workers[w]))
            && (s.latch == 0 ==> s.connected + s.failed == cfg.total)
            && s.connected + s.failed <= cfg.total
            && (forall w | 0 <= w < |s.workers| && PastLatch(s.workers[w]) :: s.latch == 0)
  {
    InvRun(cfg, steps);
    CountersCount(cfg, steps);
    var s := Exec(cfg, steps).value;
    assert forall w | 0 <= w < |s.workers| :: InRange(cfg, w, s.workers[w]);
    SumOfNone(s.workers, Owed(cfg));
    SumOfNone(s.workers, ToAttempt(cfg));
    if s.latch == 0 {
      forall w | 0 <= w < |s.workers|
        ensures ToAttempt(cfg)(w, s.workers[w]) == 0 && Through(cfg, w, s.workers[w])
      {
        assert Owed(cfg)(w, s.workers[w]) == 0;
      }
    }
    if forall w | 0 <= w < |s.workers| :: Through(cfg, w, s.workers[w]) {
      forall w | 0 <= w < |s.workers|
        ensures Owed(cfg)(w, s.workers[w]) == 0
      {
        assert Through(cfg, w, s.workers[w]);
      }
    }
  }

  /** Nobody waits forever: until all workers are done some step is enabled, and a whole run has a fixed length. */
  lemma NobodyWaitsForever(cfg: Config, steps: seq<Step>)
    requires cfg.workers > 0 && Exec(cfg, steps).Some?
    ensures |steps| <= 2 * cfg.total + 3 * cfg.workers
    ensures (forall w | 0 <= w < |Exec(cfg, steps).value.workers| :: Exec(cfg, steps).value.workers[w].Done?)
         || exists e :: Next(cfg, Exec(cfg, steps).value, e).Some?
  {
    InvRun(cfg, steps);
    LatchIsABarrier(cfg, steps);
    var s := Exec(cfg, steps).value;
    forall w | 0 <= w < |s.workers|
      ensures StepsLeft(cfg)(w, s.workers[w]) >= 0
    {
      assert InRange(cfg, w, s.workers[w]);
    }
    SumOfNone(s.workers, StepsLeft(cfg));
    if w :| 0 <= w < |s.workers| && !s.workers[w].Done? {
      var v := w;
      if s.workers[w].AtLatch? && s.latch != 0 {
        v :| 0 <= v < |s.workers| && !Through(cfg, v, s.workers[v]);
      }
      var e := match s.workers[v]
        case Connecting(next) => if next < SliceEnd(cfg, v) then Attempt(v, true) else EndLoop(v)
        case Counting(_) => CountDown(v)
        case AtLatch => PassLatch(v)
        case _ => Finish(v);
      assert Next(cfg, s, e).Some?;
    }
  }
}
