/**
 The Reactor_v4 echo server as one machine (TestTcpServer.cc): the IO thread reads a message and pushes a
 task on the bounded queue, a pool worker takes it and posts a functor back to the IO thread's loop, and the loop
 sends it. The queue and the pool are a `TaskPool.Pool` whose only producer is the IO thread; the way back is a
 `TaskHandoff.Handoff` whose posting threads are the workers.
 */
module Pipeline {
  import Pool = TaskPool
  import Loop = TaskHandoff

  datatype Pipe<T> = Pipe(pool: Pool.Pool<T>, loop: Loop.Handoff<T>, received: seq<T>)

  datatype Act<T> =
    | Receive(message: T)                 // onMessage: the IO thread calls addTask
    | Enqueue(step: Pool.Act<T>)          // the IO thread inside TaskQueue::push
    | Turn(move: Loop.Act<T>)             // the IO thread inside its event loop
    | Work(step: Pool.Act<T>)             // a worker inside doTask and TaskQueue::pop
    | Respond(worker: nat)                // a worker runs its task: pushes the functor ...
    | Ring(worker: nat)                   // ... and writes the eventfd

  ghost function Initial<T>(capacity: nat, workers: nat): Pipe<T> {
    Pipe(Pool.Initial(capacity, workers, 1), Loop.Initial(true, workers), [])
  }

  ghost predicate IoFree<T>(s: Pipe<T>) { |s.pool.producers| > 0 && s.pool.producers[0].Idle? }

  ghost predicate LoopAct<T>(a: Loop.Act<T>) { !a.Push? && !a.Ring? }

  ghost predicate Enabled<T>(s: Pipe<T>, a: Act<T>) {
    match a
    case Receive(m) => IoFree(s) && s.loop.pc.Dispatching?
    case Enqueue(b) => (b.LockPush? || b.Push? || b.SpuriousProducer?) && Pool.Enabled(s.pool, b)
    case Turn(b) => LoopAct(b) && IoFree(s) && Loop.Enabled(s.loop, b)
    case Work(b) =>
      && (b.Check? || b.Lock? || b.Look? || b.Sleep? || b.Take? || b.SpuriousWorker?)
      && Pool.Enabled(s.pool, b) && b.i < |s.loop.ringing| && !s.loop.ringing[b.i]
    case Respond(i) => i < |s.pool.workers| && s.pool.workers[i].Holding? && i < |s.loop.ringing| && !s.loop.ringing[i]
    case Ring(i) => Loop.Enabled(s.loop, Loop.Ring(i))
  }

  ghost function Apply<T>(s: Pipe<T>, a: Act<T>): Pipe<T>
    requires Enabled(s, a)
  {
    match a
    case Receive(m) => s.(pool := Pool.Apply(s.pool, Pool.AddTask(0, m)), received := s.received + [m])
    case Enqueue(b) => s.(pool := Pool.Apply(s.pool, b))
    case Turn(b) => s.(loop := Loop.Apply(s.loop, b))
    case Work(b) => s.(pool := Pool.Apply(s.pool, b))
    case Respond(i) =>
      s.(pool := Pool.Apply(s.pool, Pool.Execute(i)),
         loop := Loop.Apply(s.loop, Loop.Push(i, s.pool.workers[i].task)))
    case Ring(i) => s.(loop := Loop.Apply(s.loop, Loop.Ring(i)))
  }

  ghost predicate ValidRun<T>(s: Pipe<T>, acts: seq<Act<T>>)
    decreases |acts|
  {
    |acts| > 0 ==> Enabled(s, acts[0]) && ValidRun(Apply(s, acts[0]), acts[1..])
  }

  ghost function Run<T>(s: Pipe<T>, acts: seq<Act<T>>): Pipe<T>
    requires ValidRun(s, acts)
    decreases |acts|
  {
    if |acts| == 0 then s else Run(Apply(s, acts[0]), acts[1..])
  }

  // ---------------------------------------------------------------- invariant

  /** The message the IO thread is trying to enqueue. */
  ghost function InHand<T>(s: Pipe<T>): seq<T> {
    if |s.pool.producers| > 0 && !s.pool.producers[0].Idle? then [s.pool.producers[0].task] else []
  }

  /** What the two halves have in common. */
  ghost predicate Joined<T>(s: Pipe<T>) {
    && |s.pool.producers| == 1 && |s.loop.ringing| == |s.pool.workers|
    && s.loop.v4 && s.pool.stopper.NotStopping?
    && s.received == s.pool.accepted + InHand(s)
    && s.loop.posted == s.pool.executed
  }

  ghost predicate Inv<T>(s: Pipe<T>) {
    Joined(s) && Pool.Inv(s.pool) && Pool.TaskInv(s.pool) && Loop.Inv(s.loop)
  }

  lemma JoinedKeeps<T>(s: Pipe<T>, a: Act<T>)
    requires Joined(s) && Enabled(s, a)
    ensures Joined(Apply(s, a))
  {
  }

  lemma ApplyKeeps<T>(s: Pipe<T>, a: Act<T>)
    requires Inv(s) && Enabled(s, a)
    ensures Inv(Apply(s, a))
  {
    JoinedKeeps(s, a);
    match a {
      case Receive(m) => Pool.ApplyKeeps(s.pool, Pool.AddTask(0, m)); Pool.ApplyConserves(s.pool, Pool.AddTask(0, m));
      case Enqueue(b) => Pool.ApplyKeeps(s.pool, b); Pool.ApplyConserves(s.pool, b);
      case Turn(b) => Loop.ApplyKeeps(s.loop, b);
      case Work(b) => Pool.ApplyKeeps(s.pool, b); Pool.ApplyConserves(s.pool, b);
      case Respond(i) =>
        Pool.ApplyKeeps(s.pool, Pool.Execute(i));
        Pool.ApplyConserves(s.pool, Pool.Execute(i));
        Loop.ApplyKeeps(s.loop, Loop.Push(i, s.pool.workers[i].task));
      case Ring(i) => Loop.ApplyKeeps(s.loop, Loop.Ring(i));
    }
  }

  lemma {:induction false} RunKeeps<T>(s: Pipe<T>, acts: seq<Act<T>>)
    requires Inv(s) && ValidRun(s, acts)
    ensures Inv(Run(s, acts))
    decreases |acts|
  {
    if |acts| > 0 {
      ApplyKeeps(s, acts[0]);
      RunKeeps(Apply(s, acts[0]), acts[1..]);
    }
  }

  lemma InitialInv<T>(capacity: nat, workers: nat)
    ensures Inv(Initial<T>(capacity, workers))
  {
    Pool.InitialInv<T>(capacity, workers, 1);
    Loop.InitialInv<T>(true, workers);
  }

  // ---------------------------------------------------------------- conservation

  /** Everything that is somewhere between the IO thread's read and its send. */
  ghost function InFlight<T>(s: Pipe<T>): multiset<T> {
    multiset(InHand(s)) + multiset(s.pool.queue) + Pool.Held(s.pool.workers) +
    multiset(s.loop.pending) + multiset(s.loop.batch)
  }

  lemma Conserved<T>(s: Pipe<T>)
    requires Inv(s)
    ensures multiset(s.received) == InFlight(s) + multiset(s.loop.executed)
  {
    assert multiset(s.received) == multiset(s.pool.accepted) + multiset(InHand(s));
    assert multiset(s.pool.accepted) == multiset(s.pool.popped) + multiset(s.pool.queue);
    assert multiset(s.loop.posted) ==
           multiset(s.loop.executed) + multiset(s.loop.batch) + multiset(s.loop.pending);
    assert multiset(s.pool.popped) == multiset(s.loop.posted) + Pool.Held(s.pool.workers);
  }

  /** At every interleaving step, each message received is in exactly one place or was handed to `send` once. */
  lemma MessageConservation<T>(capacity: nat, workers: nat, acts: seq<Act<T>>)
    requires ValidRun(Initial<T>(capacity, workers), acts)
    ensures var s := Run(Initial<T>(capacity, workers), acts);
            multiset(s.received) == InFlight(s) + multiset(s.loop.executed)
  {
    InitialInv<T>(capacity, workers);
    RunKeeps(Initial<T>(capacity, workers), acts);
    Conserved(Run(Initial<T>(capacity, workers), acts));
  }

  // ---------------------------------------------------------------- deadlock freedom

  lemma PostedBound<T>(s: Pipe<T>)
    requires Inv(s)
    ensures |s.loop.posted| <= |s.received|
  {
    assert |multiset(s.pool.popped)| == |multiset(s.pool.executed)| + |Pool.Held(s.pool.workers)|;
  }

  /** What a worker that can move in the pool can do in the pipeline. */
  lemma WorkerMoves<T>(s: Pipe<T>, b: Pool.Act<T>) returns (a: Act<T>)
    requires Inv(s) && Pool.WorkerAct(b) && Pool.Enabled(s.pool, b) && |s.received| <= Loop.COUNTER_MAX
    ensures Enabled(s, a)
    ensures if s.loop.ringing[b.i] then a == Ring(b.i) else if b.Execute? then a == Respond(b.i) else a == Work(b)
  {
    if s.loop.ringing[b.i] {
      PostedBound(s);
      Loop.RingNeverBlocks(s.loop, b.i);
      a := Ring(b.i);
    } else if b.Execute? {
      a := Respond(b.i);
    } else {
      a := Work(b);
    }
  }

  /** Whenever the IO thread is blocked in `push` on the full queue, some worker can take a step. */
  lemma BlockedIoMeansWorkerMoves<T>(s: Pipe<T>) returns (a: Act<T>)
    requires Inv(s) && 0 < s.pool.capacity && 0 < |s.pool.workers| && |s.received| <= Loop.COUNTER_MAX
    requires s.pool.producers[0].Blocked?
    ensures Enabled(s, a) && (a.Work? || a.Respond? || a.Ring?)
  {
    var b := Pool.BlockedMeansWorkerMoves(s.pool);
    a := WorkerMoves(s, b);
  }

  // ---------------------------------------------------------------- what is left to do

  /** Steps a worker has left before it sleeps, with what its task costs the way back. */
  ghost function WorkLeft<T>(w: Pool.Worker<T>): nat {
    if w.Holding? then 13 else Pool.ToSleep(w)
  }

  /** Steps the IO thread has left in `push`, with what its message costs everybody else. */
  ghost function PushLeft<T>(p: Pool.Producer<T>): nat {
    match p
    case Idle => 0
    case Blocked(_) => 18
    case Pushing(_) => 19
    case _ => 20
  }

  ghost function StepsLeft<T>(s: Pipe<T>): nat
    requires |s.pool.producers| == 1
  {
    PushLeft(s.pool.producers[0]) + 14 * |s.pool.queue| + Pool.Sum(WorkLeft<T>, s.pool.workers) + Loop.StepsLeft(s.loop)
  }

  /** New input, spurious wakeups, and returns of epoll_wait without the alarm. */
  ghost predicate Unforced<T>(a: Act<T>) {
    match a
    case Receive(_) => true
    case Enqueue(b) => b.SpuriousProducer?
    case Work(b) => b.SpuriousWorker?
    case Turn(b) => Loop.Unforced(b)
    case _ => false
  }

  ghost function CountUnforced<T>(acts: seq<Act<T>>): nat {
    if |acts| == 0 then 0 else (if Unforced(acts[0]) then 1 else 0) + CountUnforced(acts[1..])
  }

  lemma PoolWorkDrops<T>(s: Pool.Pool<T>, b: Pool.Act<T>)
    requires s.flag && !s.isExit && |s.producers| == 1
    requires Pool.Enabled(s, b) && (b.Check? || b.Lock? || b.Look? || b.Sleep? || b.Take? || b.SpuriousWorker?)
    ensures var d := Pool.Apply(s, b);
            && |d.producers| == 1
            && PushLeft(d.producers[0]) + 14 * |d.queue| + Pool.Sum(WorkLeft<T>, d.workers) + 1 <=
               PushLeft(s.producers[0]) + 14 * |s.queue| + Pool.Sum(WorkLeft<T>, s.workers) +
               (if b.SpuriousWorker? then 5 else 0)
  {
    var d := Pool.Apply(s, b);
    var w := d.workers[b.i];
    assert d.workers == s.workers[b.i := w];
    Pool.SumUpdate(WorkLeft<T>, s.workers, b.i, w);
  }

  lemma WorkDrops<T>(s: Pipe<T>, b: Pool.Act<T>)
    requires Inv(s) && Enabled(s, Work(b))
    ensures Joined(Apply(s, Work(b)))
    ensures StepsLeft(Apply(s, Work(b))) + 1 <= StepsLeft(s) + (if b.SpuriousWorker? then 5 else 0)
  {
    JoinedKeeps(s, Work(b));
    PoolWorkDrops(s.pool, b);
  }

  lemma EnqueueDrops<T>(s: Pipe<T>, b: Pool.Act<T>)
    requires Inv(s) && Enabled(s, Enqueue(b))
    ensures Joined(Apply(s, Enqueue(b)))
    ensures StepsLeft(Apply(s, Enqueue(b))) + 1 <= StepsLeft(s) + (if b.SpuriousProducer? then 3 else 0)
  {
    JoinedKeeps(s, Enqueue(b));
    if b.Push? && !Pool.Full(s.pool) && b.wake.Some? {
      Pool.SumUpdate(WorkLeft<T>, s.pool.workers, b.wake.value, Pool.Notified);
    }
  }

  lemma RespondDrops<T>(s: Pipe<T>, i: nat)
    requires Inv(s) && Enabled(s, Respond(i))
    ensures Joined(Apply(s, Respond(i))) && StepsLeft(Apply(s, Respond(i))) + 1 <= StepsLeft(s)
  {
    JoinedKeeps(s, Respond(i));
    Pool.SumUpdate(WorkLeft<T>, s.pool.workers, i, Pool.Top);
    Loop.StepsLeftDrops(s.loop, Loop.Push(i, s.pool.workers[i].task));
  }

  lemma StepsLeftDrops<T>(s: Pipe<T>, a: Act<T>)
    requires Inv(s) && Enabled(s, a)
    ensures Joined(Apply(s, a)) && StepsLeft(Apply(s, a)) + 1 <= StepsLeft(s) + (if Unforced(a) then 21 else 0)
  {
    match a {
      case Receive(m) => JoinedKeeps(s, a);
      case Enqueue(b) => EnqueueDrops(s, b);
      case Turn(b) => JoinedKeeps(s, a); Loop.StepsLeftDrops(s.loop, b);
      case Work(b) => WorkDrops(s, b);
      case Respond(i) => RespondDrops(s, i);
      case Ring(i) => JoinedKeeps(s, a); Loop.StepsLeftDrops(s.loop, Loop.Ring(i));
    }
  }

  lemma {:induction false} RunBounded<T>(s: Pipe<T>, acts: seq<Act<T>>)
    requires Inv(s) && ValidRun(s, acts)
    ensures Inv(Run(s, acts))
    ensures |acts| + StepsLeft(Run(s, acts)) <= StepsLeft(s) + 21 * CountUnforced(acts)
    decreases |acts|
  {
    if |acts| > 0 {
      StepsLeftDrops(s, acts[0]);
      ApplyKeeps(s, acts[0]);
      RunBounded(Apply(s, acts[0]), acts[1..]);
    }
  }

  ghost predicate Quiescent<T>(s: Pipe<T>) {
    && |InHand(s)| == 0 && |s.pool.queue| == 0 && |s.loop.pending| == 0 && |s.loop.batch| == 0
    && forall i :: 0 <= i < |s.pool.workers| ==> s.pool.workers[i].Sleeping?
  }

  lemma QuiescentIsDone<T>(s: Pipe<T>)
    requires Inv(s) && Quiescent(s)
    ensures multiset(s.loop.executed) == multiset(s.received)
  {
    Conserved(s);
    Pool.HeldNone(s.pool.workers);
  }

  ghost predicate Forced<T>(s: Pipe<T>, a: Act<T>) { Enabled(s, a) && !Unforced(a) }

  /** If every worker sleeps and the mutex is free, the queue is empty and the IO thread is not in `push`. */
  lemma AllAsleep<T>(s: Pipe<T>)
    requires Inv(s) && 0 < s.pool.capacity && 0 < |s.pool.workers|
    requires s.pool.owner.Free? && (s.pool.producers[0].Idle? || s.pool.producers[0].Blocked?)
    requires forall j :: 0 <= j < |s.pool.workers| ==> s.pool.workers[j].Sleeping?
    ensures |s.pool.queue| == 0 && s.pool.producers[0].Idle?
  {
    Pool.SumZero(Pool.IsNotified<T>, s.pool.workers);
    Pool.SumZero(Pool.IsSignalled<T>, s.pool.producers);
    assert s.pool.workers[0].Sleeping?;
    assert Pool.SomeSleeps(s.pool);
  }

  /**
   While something is in flight, some thread has a step that does not depend on the outside; if it is the IO
   thread's, it is one that it can take only outside `receive` and `send`.
   */
  lemma SomeStep<T>(s: Pipe<T>) returns (a: Act<T>)
    requires Inv(s) && 0 < s.pool.capacity && 0 < |s.pool.workers| && |s.received| <= Loop.COUNTER_MAX
    requires !Quiescent(s)
    ensures Forced(s, a)
  {
    var p := s.pool.producers[0];
    if i :| 0 <= i < |s.loop.ringing| && s.loop.ringing[i] {
      PostedBound(s);
      Loop.RingNeverBlocks(s.loop, i);
      a := Ring(i);
    } else if p.Pushing? {
      var wake := Pool.WorkerTargetExists(s.pool);
      a := Enqueue(Pool.Push(0, wake));
    } else if s.pool.owner.Free? && !p.Idle? && !p.Blocked? {
      a := Enqueue(Pool.LockPush(0));
    } else if s.pool.owner.ByWorker? {
      var b := Pool.AwakeWorkerMoves(s.pool, s.pool.owner.i);
      a := WorkerMoves(s, b);
    } else if j :| 0 <= j < |s.pool.workers| && !s.pool.workers[j].Sleeping? {
      var b := Pool.AwakeWorkerMoves(s.pool, j);
      a := WorkerMoves(s, b);
    } else {
      AllAsleep(s);
      PostedBound(s);
      var b := Loop.DueStep(s.loop);
      a := Turn(b);
    }
  }

  lemma StepShape<T>(s: Pipe<T>, a: Act<T>)
    requires Enabled(s, a)
    ensures Apply(s, a).pool.capacity == s.pool.capacity && |Apply(s, a).pool.workers| == |s.pool.workers|
    ensures !a.Receive? ==> Apply(s, a).received == s.received
  {
    match a {
      case Work(b) => Pool.SameShape(s.pool, b);
      case Enqueue(b) => Pool.SameShape(s.pool, b);
      case _ =>
    }
  }

  lemma {:induction false} RunShape<T>(s: Pipe<T>, acts: seq<Act<T>>)
    requires ValidRun(s, acts)
    ensures Run(s, acts).pool.capacity == s.pool.capacity && |Run(s, acts).pool.workers| == |s.pool.workers|
    decreases |acts|
  {
    if |acts| > 0 {
      StepShape(s, acts[0]);
      RunShape(Apply(s, acts[0]), acts[1..]);
    }
  }

  lemma {:induction false} InitialSum<T>(workers: nat)
    ensures Pool.Sum(WorkLeft<T>, seq(workers, _ => Pool.Top)) == 5 * workers
  {
    if workers > 0 {
      InitialSum<T>(workers - 1);
      assert seq<Pool.Worker<T>>(workers, _ => Pool.Top)[1..] == seq(workers - 1, _ => Pool.Top);
    }
  }

  /** What is in store in the empty server. */
  lemma InitialStepsLeft<T>(capacity: nat, workers: nat)
    ensures StepsLeft(Initial<T>(capacity, workers)) == 5 * workers + 1
  {
    InitialSum<T>(workers);
    assert true !in Initial<T>(capacity, workers).loop.ringing;
  }
}
