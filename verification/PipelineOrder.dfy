/**
 In what order the Reactor_v4 server answers. The queue and the way back are FIFO, but between them each worker
 may hold one task for as long as it likes: one worker answers in order, several need not.
 */
module PipelineOrder {
  import opened Bytes
  import opened Pipeline
  import Pool = TaskPool
  import Loop = TaskHandoff

  // ---------------------------------------------------------------- one worker

  /** The task in the hands of the only worker. */
  ghost function InWork<T>(ws: seq<Pool.Worker<T>>): seq<T> {
    if |ws| == 1 && ws[0].Holding? then [ws[0].task] else []
  }

  ghost predicate InLine<T>(s: Pipe<T>) {
    |s.pool.workers| == 1 && s.pool.popped == s.pool.executed + InWork(s.pool.workers)
  }

  lemma WorksInLine<T>(s: Pool.Pool<T>, b: Pool.Act<T>)
    requires |s.workers| == 1 && s.popped == s.executed + InWork(s.workers)
    requires Pool.Enabled(s, b) && (Pool.WorkerAct(b) || b.SpuriousWorker?)
    ensures var d := Pool.Apply(s, b); |d.workers| == 1 && d.popped == d.executed + InWork(d.workers)
  {
  }

  lemma PushesInLine<T>(s: Pool.Pool<T>, b: Pool.Act<T>)
    requires |s.workers| == 1 && Pool.Enabled(s, b) && (b.LockPush? || b.Push? || b.SpuriousProducer?)
    ensures var d := Pool.Apply(s, b);
            |d.workers| == 1 && d.popped == s.popped && d.executed == s.executed && InWork(d.workers) == InWork(s.workers)
  {
  }

  lemma StaysInLine<T>(s: Pipe<T>, a: Act<T>)
    requires Joined(s) && InLine(s) && Enabled(s, a)
    ensures InLine(Apply(s, a))
  {
    match a {
      case Work(b) => WorksInLine(s.pool, b);
      case Respond(i) => WorksInLine(s.pool, Pool.Execute(i));
      case Enqueue(b) => PushesInLine(s.pool, b);
      case _ =>
    }
  }

  lemma {:induction false} RunStaysInLine<T>(s: Pipe<T>, acts: seq<Act<T>>)
    requires Inv(s) && InLine(s) && ValidRun(s, acts)
    ensures Inv(Run(s, acts)) && InLine(Run(s, acts))
    decreases |acts|
  {
    if |acts| > 0 {
      ApplyKeeps(s, acts[0]);
      StaysInLine(s, acts[0]);
      RunStaysInLine(Apply(s, acts[0]), acts[1..]);
    }
  }

  /**
   With one worker nothing overtakes: at every step the messages handed to `send`, those on the way back, the one
   being worked on, the queue, and the one in the IO thread's hand are, in this order, the messages received.
   */
  lemma OneWorkerKeepsOrder<T>(capacity: nat, acts: seq<Act<T>>)
    requires ValidRun(Initial<T>(capacity, 1), acts)
    ensures var s := Run(Initial<T>(capacity, 1), acts);
            s.received == s.loop.executed + s.loop.batch + s.loop.pending +
                          InWork(s.pool.workers) + s.pool.queue + InHand(s)
  {
    InitialInv<T>(capacity, 1);
    RunStaysInLine(Initial<T>(capacity, 1), acts);
  }

  // ---------------------------------------------------------------- several workers: a bound

  /** The first `k` answers are among the first `k + workers - 1` messages. */
  ghost predicate NearAt<T>(posted: seq<T>, received: seq<T>, workers: nat, k: nat)
    requires 0 < k <= |posted|
  {
    multiset(posted[..k]) <= multiset(received[..Min(k + workers - 1, |received|)])
  }

  ghost predicate NearOrder<T>(posted: seq<T>, received: seq<T>, workers: nat) {
    forall k: nat :: 0 < k <= |posted| ==> NearAt(posted, received, workers, k)
  }

  lemma PrefixWithin<T>(a: seq<T>, b: seq<T>)
    requires a <= b
    ensures multiset(a) <= multiset(b)
  {
    assert b == a + b[|a|..];
  }

  lemma {:induction false} HeldCount<T>(ws: seq<Pool.Worker<T>>)
    ensures |Pool.Held(ws)| <= |ws|
    ensures (exists i :: 0 <= i < |ws| && !ws[i].Holding?) ==> |Pool.Held(ws)| < |ws|
  {
    if |ws| > 0 {
      HeldCount(ws[1..]);
      assert |Pool.Held(ws)| == |Pool.HeldBy(ws[0])| + |Pool.Held(ws[1..])|;
      if i :| 0 <= i < |ws| && !ws[i].Holding? {
        assert i > 0 ==> !ws[1..][i - 1].Holding?;
      }
    }
  }

  lemma AllButHeld<T>(posted: seq<T>, held: multiset<T>, popped: seq<T>, received: seq<T>, workers: nat)
    requires multiset(posted) + held == multiset(popped) && popped <= received && |held| < workers && |posted| > 0
    ensures NearAt(posted, received, workers, |posted|)
  {
    assert |multiset(popped)| == |multiset(posted)| + |held|;
    PrefixWithin(popped, received[..Min(|posted| + workers - 1, |received|)]);
    assert multiset(posted) <= multiset(popped);
    assert posted[..|posted|] == posted;
  }

  /** What has been posted so far was popped, and what was popped and not posted is in some worker's hands. */
  lemma LastPostIsNear<T>(s: Pipe<T>, i: nat)
    requires Inv(s) && i < |s.pool.workers| && !s.pool.workers[i].Holding? && |s.loop.posted| > 0
    ensures NearAt(s.loop.posted, s.received, |s.pool.workers|, |s.loop.posted|)
  {
    HeldCount(s.pool.workers);
    assert s.received == s.pool.popped + (s.pool.queue + InHand(s));
    AllButHeld(s.loop.posted, Pool.Held(s.pool.workers), s.pool.popped, s.received, |s.pool.workers|);
  }

  lemma StepGrows<T>(s: Pipe<T>, a: Act<T>)
    requires Enabled(s, a)
    ensures s.received <= Apply(s, a).received
    ensures if a.Respond? then |Apply(s, a).loop.posted| == |s.loop.posted| + 1 && s.loop.posted <= Apply(s, a).loop.posted
            else Apply(s, a).loop.posted == s.loop.posted
    ensures a.Respond? ==> Apply(s, a).pool.workers[a.worker].Top?
  {
  }

  /** More may have been received, and at most one more message posted. */
  lemma StillNear<T>(posted: seq<T>, received: seq<T>, posted': seq<T>, received': seq<T>, workers: nat)
    requires posted <= posted' && received <= received' && |posted'| <= |posted| + 1
    requires NearOrder(posted, received, workers)
    requires |posted| < |posted'| ==> NearAt(posted', received', workers, |posted'|)
    ensures NearOrder(posted', received', workers)
  {
    forall k: nat | 0 < k <= |posted| ensures NearAt(posted', received', workers, k) {
      assert NearAt(posted, received, workers, k);
      assert posted'[..k] == posted[..k];
      PrefixWithin(received[..Min(k + workers - 1, |received|)], received'[..Min(k + workers - 1, |received'|)]);
    }
  }

  ghost predicate Near<T>(s: Pipe<T>) { NearOrder(s.loop.posted, s.received, |s.pool.workers|) }

  lemma StaysNear<T>(s: Pipe<T>, a: Act<T>)
    requires Inv(s) && Near(s) && Enabled(s, a)
    ensures Near(Apply(s, a))
  {
    var d := Apply(s, a);
    ApplyKeeps(s, a);
    StepShape(s, a);
    StepGrows(s, a);
    if a.Respond? {
      LastPostIsNear(d, a.worker);
    }
    StillNear(s.loop.posted, s.received, d.loop.posted, d.received, |s.pool.workers|);
  }

  lemma {:induction false} RunStaysNear<T>(s: Pipe<T>, acts: seq<Act<T>>)
    requires Inv(s) && Near(s) && ValidRun(s, acts)
    ensures Inv(Run(s, acts)) && Near(Run(s, acts))
    decreases |acts|
  {
    if |acts| > 0 {
      ApplyKeeps(s, acts[0]);
      StaysNear(s, acts[0]);
      RunStaysNear(Apply(s, acts[0]), acts[1..]);
    }
  }

  lemma ExecutedIsNear<T>(s: Pipe<T>, k: nat)
    requires Inv(s) && Near(s) && 0 < k <= |s.loop.executed|
    ensures NearAt(s.loop.executed, s.received, |s.pool.workers|, k)
  {
    assert s.loop.posted == s.loop.executed + (s.loop.batch + s.loop.pending);
    assert s.loop.posted[..k] == s.loop.executed[..k];
    assert NearAt(s.loop.posted, s.received, |s.pool.workers|, k);
  }

  /** In every run the first `k` messages handed to `send` are among the first `k + workers - 1` received. */
  lemma OvertakingIsBounded<T>(capacity: nat, workers: nat, acts: seq<Act<T>>, k: nat)
    requires ValidRun(Initial<T>(capacity, workers), acts)
    requires 0 < k <= |Run(Initial<T>(capacity, workers), acts).loop.executed|
    ensures var s := Run(Initial<T>(capacity, workers), acts);
            NearAt(s.loop.executed, s.received, workers, k)
  {
    var s := Run(Initial<T>(capacity, workers), acts);
    InitialInv<T>(capacity, workers);
    RunStaysNear(Initial<T>(capacity, workers), acts);
    RunShape(Initial<T>(capacity, workers), acts);
    ExecutedIsNear(s, k);
  }

  // ---------------------------------------------------------------- several workers: overtaking

  lemma Cons<T>(s: Pipe<T>, a: Act<T>, rest: seq<Act<T>>) returns (acts: seq<Act<T>>)
    requires Enabled(s, a) && ValidRun(Apply(s, a), rest)
    ensures ValidRun(s, acts) && Run(s, acts) == Run(Apply(s, a), rest)
  {
    acts := [a] + rest;
    assert acts[1..] == rest;
  }

  /** The loop is handling events, the queue is empty, nobody sleeps, and worker `i` has nothing to do. */
  ghost predicate Ready<T>(s: Pipe<T>, i: nat) {
    && s.pool.producers == [Pool.Idle] && s.pool.owner.Free? && s.pool.queue == [] && 0 < s.pool.capacity
    && s.pool.flag && !s.pool.isExit
    && (forall j :: 0 <= j < |s.pool.workers| ==> !s.pool.workers[j].Sleeping?)
    && i < |s.pool.workers| == |s.loop.ringing| && s.pool.workers[i].Top? && !s.loop.ringing[i]
    && s.loop.pc == Loop.Dispatching(false)
  }

  ghost function Fetched<T>(s: Pipe<T>, i: nat, m: T): Pipe<T>
    requires i < |s.pool.workers|
  {
    s.(pool := s.pool.(workers := s.pool.workers[i := Pool.Holding(m)], accepted := s.pool.accepted + [m],
                       popped := s.pool.popped + [m]),
       received := s.received + [m])
  }

  ghost function Queued<T>(s: Pipe<T>, m: T): Pipe<T> {
    s.(pool := s.pool.(queue := [m], accepted := s.pool.accepted + [m]), received := s.received + [m])
  }

  /** A message arrives and is queued; then whatever `rest` does. */
  lemma Arrive<T>(s: Pipe<T>, i: nat, m: T, rest: seq<Act<T>>) returns (acts: seq<Act<T>>)
    requires Ready(s, i) && ValidRun(Queued(s, m), rest)
    ensures ValidRun(s, acts) && Run(s, acts) == Run(Queued(s, m), rest)
  {
    var s1 := Apply(s, Receive(m));
    var s2 := Apply(s1, Enqueue(Pool.LockPush(0)));
    var s3 := Apply(s2, Enqueue(Pool.Push(0, None)));
    assert s3.pool.producers == [Pool.Idle] && s3.pool.queue == [m];
    assert s3 == Queued(s, m);
    acts := Cons(s2, Enqueue(Pool.Push(0, None)), rest);
    acts := Cons(s1, Enqueue(Pool.LockPush(0)), acts);
    acts := Cons(s, Receive(m), acts);
  }

  /** Worker `i` takes the queued task; then whatever `rest` does. */
  lemma TakeUp<T>(s: Pipe<T>, i: nat, m: T, rest: seq<Act<T>>) returns (acts: seq<Act<T>>)
    requires Ready(s, i) && ValidRun(Fetched(s, i, m), rest)
    ensures ValidRun(Queued(s, m), acts) && Run(Queued(s, m), acts) == Run(Fetched(s, i, m), rest)
  {
    var s3 := Queued(s, m);
    var s4 := Apply(s3, Work(Pool.Check(i)));
    var s5 := Apply(s4, Work(Pool.Lock(i)));
    var s6 := Apply(s5, Work(Pool.Look(i)));
    var s7 := Apply(s6, Work(Pool.Take(i, None)));
    assert s7.pool.workers == s.pool.workers[i := Pool.Holding(m)];
    assert s7 == Fetched(s, i, m);
    acts := Cons(s6, Work(Pool.Take(i, None)), rest);
    acts := Cons(s5, Work(Pool.Look(i)), acts);
    acts := Cons(s4, Work(Pool.Lock(i)), acts);
    acts := Cons(s3, Work(Pool.Check(i)), acts);
  }

  lemma Fetch<T>(s: Pipe<T>, i: nat, m: T, rest: seq<Act<T>>) returns (acts: seq<Act<T>>)
    requires Ready(s, i) && ValidRun(Fetched(s, i, m), rest)
    ensures ValidRun(s, acts) && Run(s, acts) == Run(Fetched(s, i, m), rest)
  {
    acts := TakeUp(s, i, m, rest);
    acts := Arrive(s, i, m, acts);
  }

  /** Worker `i` answers, and the loop sends the answer. */
  lemma Answer<T>(s: Pipe<T>, i: nat) returns (acts: seq<Act<T>>)
    requires s.pool.producers == [Pool.Idle] && i < |s.pool.workers| == |s.loop.ringing|
    requires s.pool.workers[i].Holding? && !s.loop.ringing[i]
    requires s.loop.v4 && s.loop.pc == Loop.Dispatching(false) && s.loop.counter == 0 && s.loop.pending == []
    ensures ValidRun(s, acts)
    ensures Run(s, acts).loop.executed == s.loop.executed + [s.pool.workers[i].task]
    ensures Run(s, acts).received == s.received
  {
    var s1 := Apply(s, Respond(i));
    var s2 := Apply(s1, Ring(i));
    var s3 := Apply(s2, Turn(Loop.EndDispatch));
    var s4 := Apply(s3, Turn(Loop.Wake(true)));
    var s5 := Apply(s4, Turn(Loop.ReadAlarm));
    var s6 := Apply(s5, Turn(Loop.Swap));
    assert s6.loop.batch == [s.pool.workers[i].task];
    acts := Cons(s6, Turn(Loop.RunOne), []);
    acts := Cons(s5, Turn(Loop.Swap), acts);
    acts := Cons(s4, Turn(Loop.ReadAlarm), acts);
    acts := Cons(s3, Turn(Loop.Wake(true)), acts);
    acts := Cons(s2, Turn(Loop.EndDispatch), acts);
    acts := Cons(s1, Ring(i), acts);
    acts := Cons(s, Respond(i), acts);
  }

  /** With two workers the second message may be sent while the first is still being worked on. */
  lemma SecondOvertakesFirst<T>(capacity: nat, workers: nat, a: T, b: T) returns (acts: seq<Act<T>>)
    requires 0 < capacity && 2 <= workers
    ensures ValidRun(Initial<T>(capacity, workers), acts)
    ensures var s := Run(Initial<T>(capacity, workers), acts); s.received == [a, b] && s.loop.executed == [b]
  {
    var s0 := Initial<T>(capacity, workers);
    var s1 := Apply(s0, Turn(Loop.Wake(false)));
    var s2 := Fetched(s1, 0, a);
    var s3 := Fetched(s2, 1, b);
    assert s3.received == [a, b];
    acts := Answer(s3, 1);
    acts := Fetch(s2, 1, b, acts);
    acts := Fetch(s1, 0, a, acts);
    acts := Cons(s0, Turn(Loop.Wake(false)), acts);
  }

  // ---------------------------------------------------------------- exactly when

  /** No task was ever taken out of the queue. */
  ghost predicate NothingTaken<T>(s: Pipe<T>) {
    (|s.pool.workers| == 0 || s.pool.capacity == 0) && s.pool.popped == []
  }

  lemma TakesNothing<T>(s: Pool.Pool<T>, b: Pool.Act<T>)
    requires Pool.Inv(s) && s.stopper.NotStopping? && Pool.Enabled(s, b) && (|s.workers| == 0 || s.capacity == 0)
    ensures Pool.Apply(s, b).popped == s.popped
  {
    assert !b.Take?;
  }

  lemma NothingTakenYet<T>(s: Pipe<T>, a: Act<T>)
    requires Inv(s) && NothingTaken(s) && Enabled(s, a)
    ensures Apply(s, a).pool.popped == []
  {
    match a {
      case Receive(m) => TakesNothing(s.pool, Pool.AddTask(0, m));
      case Work(b) => TakesNothing(s.pool, b);
      case Enqueue(b) => TakesNothing(s.pool, b);
      case Respond(i) => TakesNothing(s.pool, Pool.Execute(i));
      case _ => assert Apply(s, a).pool == s.pool;
    }
  }

  /** Without workers, or with a queue that holds nothing, no message is ever answered. */
  lemma {:induction false} NothingEverSent<T>(s: Pipe<T>, acts: seq<Act<T>>)
    requires Inv(s) && NothingTaken(s) && ValidRun(s, acts)
    ensures Run(s, acts).loop.executed == []
    decreases |acts|
  {
    if |acts| > 0 {
      ApplyKeeps(s, acts[0]);
      StepShape(s, acts[0]);
      NothingTakenYet(s, acts[0]);
      NothingEverSent(Apply(s, acts[0]), acts[1..]);
    } else {
      assert |multiset(s.pool.executed)| <= |multiset(s.pool.popped)|;
    }
  }

  ghost predicate AnswersInOrder<T>(capacity: nat, workers: nat, acts: seq<Act<T>>) {
    ValidRun(Initial<T>(capacity, workers), acts) ==>
      var s := Run(Initial<T>(capacity, workers), acts); s.loop.executed <= s.received
  }

  /**
   Messages are sent back in the order of their arrival, in every run, if and only if there is no second worker
   (or the queue has no room, and no message is sent at all).
   */
  lemma OrderKeptIff<T>(capacity: nat, workers: nat, a: T, b: T)
    requires a != b
    ensures (forall acts: seq<Act<T>> :: AnswersInOrder(capacity, workers, acts)) <==> workers <= 1 || capacity == 0
  {
    if workers == 0 || capacity == 0 {
      forall acts: seq<Act<T>> ensures AnswersInOrder(capacity, workers, acts) {
        if ValidRun(Initial<T>(capacity, workers), acts) {
          InitialInv<T>(capacity, workers);
          NothingEverSent(Initial<T>(capacity, workers), acts);
        }
      }
    } else if workers == 1 {
      forall acts: seq<Act<T>> ensures AnswersInOrder(capacity, workers, acts) {
        if ValidRun(Initial<T>(capacity, workers), acts) {
          OneWorkerKeepsOrder(capacity, acts);
        }
      }
    } else {
      var acts := SecondOvertakesFirst(capacity, workers, a, b);
      var s := Run(Initial<T>(capacity, workers), acts);
      assert s.loop.executed[0] != s.received[0];
      assert !AnswersInOrder(capacity, workers, acts);
    }
  }
}
