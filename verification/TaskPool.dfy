/**
 The bounded task queue and the thread pool of Reactor_v4 (TaskQueue.cc, ThreadPool.cc) as one machine over
 interleaved threads. Taking the mutex is a step of its own, and so are the test of the wait loop, the wait
 itself (which releases the mutex and joins the wait set in one step), and what follows the loop. A waiting
 thread can be picked by `notify_one`, which wakes any one waiter and nobody if there is none, can be woken by
 `notify_all`, or can wake spuriously; a newly arriving thread may take the mutex before a notified one.
 The flags `m_flag` and `m_isExit` are written without the mutex, so those writes fall between any two steps.
 */
module TaskPool {
  import opened Bytes

  /** A pool thread: `doTask`, with `TaskQueue::pop` inlined. */
  datatype Worker<T> =
    | Top                 // at `while(!m_isExit)`
    | Calling             // about to lock in pop
    | Locked              // holds the mutex, before the loop test
    | Committed           // holds the mutex, saw `empty() && m_flag`, about to wait
    | Leaving             // holds the mutex, past the loop
    | Sleeping
    | Notified
    | Spurious
    | Holding(task: T)    // about to run the task
    | Exited

  /** A thread calling `addTask` with a callable task, with `TaskQueue::push` inlined. */
  datatype Producer<T> =
    | Idle
    | Wanting(task: T)
    | Pushing(task: T)    // holds the mutex
    | Blocked(task: T)
    | Signalled(task: T)
    | Awake(task: T)      // spuriously

  /** Progress of `ThreadPool::stop`. */
  datatype Stopper = NotStopping | Polling | Drained | ExitSet | FlagCleared | Joining | Stopped {
    function Rank(): nat {
      match this
      case NotStopping => 0
      case Polling => 1
      case Drained => 2
      case ExitSet => 3
      case FlagCleared => 4
      case Joining => 5
      case Stopped => 6
    }
  }

  datatype Owner = Free | ByWorker(i: nat) | ByProducer(p: nat)

  datatype Pool<T> = Pool(
    capacity: nat,
    queue: seq<T>,
    flag: bool,
    isExit: bool,
    owner: Owner,
    workers: seq<Worker<T>>,
    producers: seq<Producer<T>>,
    stopper: Stopper,
    accepted: seq<T>,
    popped: seq<T>,
    executed: seq<T>)

  datatype Act<T> =
    | Check(i: nat)
    | Lock(i: nat)
    | Look(i: nat)
    | Sleep(i: nat)
    | Take(i: nat, wake: Option<nat>)
    | Execute(i: nat)
    | SpuriousWorker(i: nat)
    | AddTask(p: nat, task: T)
    | LockPush(p: nat)
    | Push(p: nat, wake: Option<nat>)
    | SpuriousProducer(p: nat)
    | StopStep

  ghost function Initial<T>(capacity: nat, workers: nat, producers: nat): Pool<T> {
    Pool(capacity, [], true, false, Free, seq(workers, _ => Top), seq(producers, _ => Idle), NotStopping, [], [], [])
  }

  // ---------------------------------------------------------------- steps

  ghost predicate Waiting<T>(w: Worker<T>) { w.Calling? || w.Notified? || w.Spurious? }

  ghost predicate HoldsLock<T>(w: Worker<T>) { w.Locked? || w.Committed? || w.Leaving? }

  ghost predicate SomeSleeps<T>(s: Pool<T>) { exists i :: 0 <= i < |s.workers| && s.workers[i].Sleeping? }

  ghost predicate SomeBlocked<T>(s: Pool<T>) { exists p :: 0 <= p < |s.producers| && s.producers[p].Blocked? }

  /** `notify_one` on m_notEmpty wakes one sleeping worker, and nobody only if none sleeps. */
  ghost predicate WorkerTarget<T>(s: Pool<T>, wake: Option<nat>) {
    match wake
    case None => !SomeSleeps(s)
    case Some(j) => j < |s.workers| && s.workers[j].Sleeping?
  }

  ghost predicate ProducerTarget<T>(s: Pool<T>, wake: Option<nat>) {
    match wake
    case None => !SomeBlocked(s)
    case Some(j) => j < |s.producers| && s.producers[j].Blocked?
  }

  ghost predicate Full<T>(s: Pool<T>) { |s.queue| == s.capacity }

  ghost predicate AllExited<T>(s: Pool<T>) { forall i :: 0 <= i < |s.workers| ==> s.workers[i].Exited? }

  ghost predicate Enabled<T>(s: Pool<T>, a: Act<T>) {
    match a
    case Check(i) => i < |s.workers| && s.workers[i].Top?
    case Lock(i) => i < |s.workers| && Waiting(s.workers[i]) && s.owner.Free?
    case Look(i) => i < |s.workers| && s.workers[i].Locked?
    case Sleep(i) => i < |s.workers| && s.workers[i].Committed?
    case Take(i, wake) =>
      i < |s.workers| && s.workers[i].Leaving? && (s.flag ==> |s.queue| > 0 && ProducerTarget(s, wake))
    case Execute(i) => i < |s.workers| && s.workers[i].Holding?
    case SpuriousWorker(i) => i < |s.workers| && s.workers[i].Sleeping?
    case AddTask(p, t) => p < |s.producers| && s.producers[p].Idle?
    case LockPush(p) =>
      p < |s.producers| && s.owner.Free? &&
      (s.producers[p].Wanting? || s.producers[p].Signalled? || s.producers[p].Awake?)
    case Push(p, wake) => p < |s.producers| && s.producers[p].Pushing? && (!Full(s) ==> WorkerTarget(s, wake))
    case SpuriousProducer(p) => p < |s.producers| && s.producers[p].Blocked?
    case StopStep => !s.stopper.Stopped? && (s.stopper.Joining? ==> AllExited(s))
  }

  ghost function At<T>(s: Pool<T>, i: nat, w: Worker<T>): Pool<T>
    requires i < |s.workers|
  {
    s.(workers := s.workers[i := w])
  }

  ghost function PAt<T>(s: Pool<T>, p: nat, x: Producer<T>): Pool<T>
    requires p < |s.producers|
  {
    s.(producers := s.producers[p := x])
  }

  ghost function WakeWorker<T>(s: Pool<T>, wake: Option<nat>): Pool<T>
    requires WorkerTarget(s, wake)
  {
    if wake.Some? then At(s, wake.value, Notified) else s
  }

  ghost function WakeProducer<T>(s: Pool<T>, wake: Option<nat>): Pool<T>
    requires ProducerTarget(s, wake)
  {
    if wake.Some? then PAt(s, wake.value, Signalled(s.producers[wake.value].task)) else s
  }

  ghost function Roused<T>(ws: seq<Worker<T>>): (r: seq<Worker<T>>)
    ensures |r| == |ws|
    ensures forall k :: 0 <= k < |ws| ==> r[k] == if ws[k].Sleeping? then Notified else ws[k]
  {
    seq(|ws|, k requires 0 <= k < |ws| => if ws[k].Sleeping? then Notified else ws[k])
  }

  ghost function Stop<T>(s: Pool<T>): Pool<T> {
    match s.stopper
    case NotStopping => s.(stopper := Polling)
    case Polling => if |s.queue| == 0 then s.(stopper := Drained) else s
    case Drained => s.(stopper := ExitSet, isExit := true)
    case ExitSet => s.(stopper := FlagCleared, flag := false)
    case FlagCleared => s.(stopper := Joining, workers := Roused(s.workers))
    case Joining => s.(stopper := Stopped)
    case Stopped => s
  }

  ghost function Apply<T>(s: Pool<T>, a: Act<T>): Pool<T>
    requires Enabled(s, a)
  {
    match a
    case Check(i) => At(s, i, if s.isExit then Exited else Calling)
    case Lock(i) => At(s, i, Locked).(owner := ByWorker(i))
    case Look(i) => At(s, i, if |s.queue| == 0 && s.flag then Committed else Leaving)
    case Sleep(i) => At(s, i, Sleeping).(owner := Free)
    case Take(i, wake) =>
      if s.flag then
        WakeProducer(At(s, i, Holding(s.queue[0])).(owner := Free, queue := s.queue[1..],
                                                    popped := s.popped + [s.queue[0]]), wake)
      else At(s, i, Top).(owner := Free)  // an empty function: the worker only prints a line
    case Execute(i) => At(s, i, Top).(executed := s.executed + [s.workers[i].task])
    case SpuriousWorker(i) => At(s, i, Spurious)
    case AddTask(p, t) => PAt(s, p, Wanting(t))
    case LockPush(p) => PAt(s, p, Pushing(s.producers[p].task)).(owner := ByProducer(p))
    case Push(p, wake) =>
      var t := s.producers[p].task;
      if Full(s) then PAt(s, p, Blocked(t)).(owner := Free)
      else WakeWorker(PAt(s, p, Idle).(owner := Free, queue := s.queue + [t], accepted := s.accepted + [t]), wake)
    case SpuriousProducer(p) => PAt(s, p, Awake(s.producers[p].task))
    case StopStep => Stop(s)
  }

  ghost predicate ValidRun<T>(s: Pool<T>, acts: seq<Act<T>>)
    decreases |acts|
  {
    |acts| > 0 ==> Enabled(s, acts[0]) && ValidRun(Apply(s, acts[0]), acts[1..])
  }

  ghost function Run<T>(s: Pool<T>, acts: seq<Act<T>>): Pool<T>
    requires ValidRun(s, acts)
    decreases |acts|
  {
    if |acts| == 0 then s else Run(Apply(s, acts[0]), acts[1..])
  }

  // ---------------------------------------------------------------- the invariant, in four parts

  /** The mutex has at most one holder, and the field names it. */
  ghost predicate LockInv<T>(s: Pool<T>) {
    && (forall i :: 0 <= i < |s.workers| ==> (HoldsLock(s.workers[i]) <==> s.owner == ByWorker(i)))
    && (forall p :: 0 <= p < |s.producers| ==> (s.producers[p].Pushing? <==> s.owner == ByProducer(p)))
    && (s.owner.ByWorker? ==> s.owner.i < |s.workers|)
    && (s.owner.ByProducer? ==> s.owner.p < |s.producers|)
  }

  /** What a lock holder has learnt stays true while it holds the lock. */
  ghost predicate KnowledgeInv<T>(s: Pool<T>) {
    && |s.queue| <= s.capacity
    && (forall i :: 0 <= i < |s.workers| && s.workers[i].Committed? ==> |s.queue| == 0)
    && (forall i :: 0 <= i < |s.workers| && s.workers[i].Leaving? && s.flag ==> |s.queue| > 0)
    && (s.flag <==> s.stopper.Rank() < 4)
    && (s.isExit <==> 3 <= s.stopper.Rank())
    && (forall i :: 0 <= i < |s.workers| && s.workers[i].Exited? ==> s.isExit)
    && (s.stopper.Stopped? ==> AllExited(s))
  }

  /** A worker that holds the mutex and may still take a task. */
  ghost function ComingToTake<T>(s: Pool<T>): nat {
    if s.owner.ByWorker? && s.owner.i < |s.workers| && !s.workers[s.owner.i].Committed? then 1 else 0
  }

  ghost function ComingToPush<T>(s: Pool<T>): nat {
    if s.owner.ByProducer? then 1 else 0
  }

  ghost function Sum<A>(weight: A -> nat, xs: seq<A>): nat {
    if |xs| == 0 then 0 else weight(xs[0]) + Sum(weight, xs[1..])
  }

  ghost function IsNotified<T>(w: Worker<T>): nat { if w.Notified? then 1 else 0 }

  ghost function IsSignalled<T>(p: Producer<T>): nat { if p.Signalled? then 1 else 0 }

  /** No wakeup is lost: every task a sleeper could take has an awake taker, every free slot an awake filler. */
  ghost predicate WakeupInv<T>(s: Pool<T>) {
    && (s.flag && SomeSleeps(s) ==> |s.queue| <= Sum(IsNotified<T>, s.workers) + ComingToTake(s))
    && (SomeBlocked(s) ==> s.capacity - |s.queue| <= Sum(IsSignalled<T>, s.producers) + ComingToPush(s))
  }

  ghost function HeldBy<T>(w: Worker<T>): multiset<T> {
    if w.Holding? then multiset{w.task} else multiset{}
  }

  /** The tasks that workers have taken and not yet run. */
  ghost function Held<T>(ws: seq<Worker<T>>): multiset<T> {
    if |ws| == 0 then multiset{} else HeldBy(ws[0]) + Held(ws[1..])
  }

  ghost predicate Inv<T>(s: Pool<T>) {
    && LockInv(s) && KnowledgeInv(s) && WakeupInv(s)
    && s.popped + s.queue == s.accepted  // tasks are handed out in FIFO order
  }

  /** Every task handed out is held by one worker or was executed once. */
  ghost predicate TaskInv<T>(s: Pool<T>) {
    multiset(s.executed) + Held(s.workers) == multiset(s.popped)
  }

  // ---------------------------------------------------------------- counting lemmas

  lemma {:induction false} SumUpdate<A>(weight: A -> nat, xs: seq<A>, i: nat, x: A)
    requires i < |xs|
    ensures Sum(weight, xs[i := x]) == Sum(weight, xs) - weight(xs[i]) + weight(x)
  {
    if i == 0 {
      assert xs[i := x][1..] == xs[1..];
    } else {
      SumUpdate(weight, xs[1..], i - 1, x);
      assert xs[i := x][1..] == xs[1..][i - 1 := x];
    }
  }

  lemma {:induction false} SumZero<A>(weight: A -> nat, xs: seq<A>)
    requires forall k :: 0 <= k < |xs| ==> weight(xs[k]) == 0
    ensures Sum(weight, xs) == 0
  {
    if |xs| > 0 {
      SumZero(weight, xs[1..]);
    }
  }

  lemma Exchange<T>(h: multiset<T>, x: multiset<T>, b: multiset<T>, y: multiset<T>, c: multiset<T>)
    requires x + b == y + c
    ensures h + x + b == h + y + c
  {
    forall t ensures (h + x + b)[t] == (h + y + c)[t] {
      assert (x + b)[t] == (y + c)[t];
    }
  }

  lemma Reverse<T>(x: multiset<T>, y: multiset<T>, z: multiset<T>)
    ensures x + y + z == z + y + x
  {
  }

  lemma {:induction false} HeldUpdate<T>(ws: seq<Worker<T>>, i: nat, w: Worker<T>)
    requires i < |ws|
    ensures Held(ws[i := w]) + HeldBy(ws[i]) == Held(ws) + HeldBy(w)
  {
    if i == 0 {
      assert ws[i := w][1..] == ws[1..];
      Reverse(HeldBy(w), Held(ws[1..]), HeldBy(ws[0]));
    } else {
      HeldUpdate(ws[1..], i - 1, w);
      assert ws[i := w][0] == ws[0] && ws[i := w][1..] == ws[1..][i - 1 := w];
      Exchange(HeldBy(ws[0]), Held(ws[1..][i - 1 := w]), HeldBy(ws[i]), Held(ws[1..]), HeldBy(w));
    }
  }

  lemma {:induction false} HeldSame<T>(ws: seq<Worker<T>>, vs: seq<Worker<T>>)
    requires |ws| == |vs| && forall k :: 0 <= k < |ws| ==> HeldBy(ws[k]) == HeldBy(vs[k])
    ensures Held(ws) == Held(vs)
  {
    if |ws| > 0 {
      HeldSame(ws[1..], vs[1..]);
      assert HeldBy(ws[0]) == HeldBy(vs[0]);
    }
  }

  // ---------------------------------------------------------------- every step keeps the invariant

  lemma CheckKeeps<T>(s: Pool<T>, i: nat)
    requires Inv(s) && Enabled(s, Check(i))
    ensures Inv(Apply(s, Check(i)))
  {
    SumUpdate(IsNotified<T>, s.workers, i, if s.isExit then Exited else Calling);
  }

  lemma LockKeeps<T>(s: Pool<T>, i: nat)
    requires Inv(s) && Enabled(s, Lock(i))
    ensures Inv(Apply(s, Lock(i)))
  {
    SumUpdate(IsNotified<T>, s.workers, i, Locked);
  }

  lemma LookKeeps<T>(s: Pool<T>, i: nat)
    requires Inv(s) && Enabled(s, Look(i))
    ensures Inv(Apply(s, Look(i)))
  {
    SumUpdate(IsNotified<T>, s.workers, i, if |s.queue| == 0 && s.flag then Committed else Leaving);
  }

  lemma SleepKeeps<T>(s: Pool<T>, i: nat)
    requires Inv(s) && Enabled(s, Sleep(i))
    ensures Inv(Apply(s, Sleep(i)))
  {
    SumUpdate(IsNotified<T>, s.workers, i, Sleeping);
  }

  lemma SpuriousWorkerKeeps<T>(s: Pool<T>, i: nat)
    requires Inv(s) && Enabled(s, SpuriousWorker(i))
    ensures Inv(Apply(s, SpuriousWorker(i)))
  {
    SumUpdate(IsNotified<T>, s.workers, i, Spurious);
  }

  lemma ExecuteKeeps<T>(s: Pool<T>, i: nat)
    requires Inv(s) && Enabled(s, Execute(i))
    ensures Inv(Apply(s, Execute(i)))
  {
    SumUpdate(IsNotified<T>, s.workers, i, Top);
  }

  lemma AddTaskKeeps<T>(s: Pool<T>, p: nat, t: T)
    requires Inv(s) && Enabled(s, AddTask(p, t))
    ensures Inv(Apply(s, AddTask(p, t)))
  {
    SumUpdate(IsSignalled<T>, s.producers, p, Wanting(t));
  }

  lemma LockPushKeeps<T>(s: Pool<T>, p: nat)
    requires Inv(s) && Enabled(s, LockPush(p))
    ensures Inv(Apply(s, LockPush(p)))
  {
    SumUpdate(IsSignalled<T>, s.producers, p, Pushing(s.producers[p].task));
  }

  lemma SpuriousProducerKeeps<T>(s: Pool<T>, p: nat)
    requires Inv(s) && Enabled(s, SpuriousProducer(p))
    ensures Inv(Apply(s, SpuriousProducer(p)))
  {
    SumUpdate(IsSignalled<T>, s.producers, p, Awake(s.producers[p].task));
  }

  lemma StopKeeps<T>(s: Pool<T>)
    requires Inv(s) && Enabled(s, StopStep)
    ensures Inv(Apply(s, StopStep))
  {
    if s.stopper.FlagCleared? {
      RouseKeeps(s);
    }
  }

  lemma RouseKeeps<T>(s: Pool<T>)
    requires Inv(s) && s.stopper.FlagCleared?
    ensures Inv(Stop(s))
  {
  }

  lemma TakeKeeps<T>(s: Pool<T>, i: nat, wake: Option<nat>)
    requires Inv(s) && Enabled(s, Take(i, wake))
    ensures Inv(Apply(s, Take(i, wake)))
  {
    if s.flag {
      var t := s.queue[0];
      SumUpdate(IsNotified<T>, s.workers, i, Holding(t));
      assert s.popped + [t] + s.queue[1..] == s.popped + s.queue;
      if wake.Some? {
        SumUpdate(IsSignalled<T>, s.producers, wake.value, Signalled(s.producers[wake.value].task));
      }
    }
  }

  lemma BlockKeeps<T>(s: Pool<T>, p: nat, wake: Option<nat>)
    requires Inv(s) && Enabled(s, Push(p, wake)) && Full(s)
    ensures Inv(Apply(s, Push(p, wake)))
  {
    SumUpdate(IsSignalled<T>, s.producers, p, Blocked(s.producers[p].task));
  }

  lemma PushKeeps<T>(s: Pool<T>, p: nat, wake: Option<nat>)
    requires Inv(s) && Enabled(s, Push(p, wake)) && !Full(s)
    ensures Inv(Apply(s, Push(p, wake)))
  {
    var t := s.producers[p].task;
    SumUpdate(IsSignalled<T>, s.producers, p, Idle);
    assert s.popped + (s.queue + [t]) == s.popped + s.queue + [t];
    if wake.Some? {
      SumUpdate(IsNotified<T>, s.workers, wake.value, Notified);
    }
  }

  lemma ApplyKeeps<T>(s: Pool<T>, a: Act<T>)
    requires Inv(s) && Enabled(s, a)
    ensures Inv(Apply(s, a))
  {
    match a {
      case Check(i) => CheckKeeps(s, i);
      case Lock(i) => LockKeeps(s, i);
      case Look(i) => LookKeeps(s, i);
      case Sleep(i) => SleepKeeps(s, i);
      case Take(i, wake) => TakeKeeps(s, i, wake);
      case Execute(i) => ExecuteKeeps(s, i);
      case SpuriousWorker(i) => SpuriousWorkerKeeps(s, i);
      case AddTask(p, t) => AddTaskKeeps(s, p, t);
      case LockPush(p) => LockPushKeeps(s, p);
      case Push(p, wake) => if Full(s) { BlockKeeps(s, p, wake); } else { PushKeeps(s, p, wake); }
      case SpuriousProducer(p) => SpuriousProducerKeeps(s, p);
      case StopStep => StopKeeps(s);
    }
  }

  lemma OneMore<T>(e: multiset<T>, h: multiset<T>, g: multiset<T>, p: multiset<T>, t: T)
    requires e + h == p && g == h + multiset{t}
    ensures e + g == p + multiset{t}
  {
  }

  lemma OneDone<T>(e: multiset<T>, h: multiset<T>, g: multiset<T>, p: multiset<T>, t: T)
    requires e + h == p && g + multiset{t} == h
    ensures e + multiset{t} + g == p
  {
  }

  lemma TakeConserves<T>(s: Pool<T>, i: nat, wake: Option<nat>)
    requires TaskInv(s) && Enabled(s, Take(i, wake)) && s.flag
    ensures TaskInv(Apply(s, Take(i, wake)))
  {
    var t := s.queue[0];
    var ws := s.workers[i := Holding(t)];
    HeldUpdate(s.workers, i, Holding(t));
    assert HeldBy<T>(Holding(t)) == multiset{t} && HeldBy(s.workers[i]) == multiset{};
    assert Held(ws) == Held(s.workers) + multiset{t};
    OneMore(multiset(s.executed), Held(s.workers), Held(ws), multiset(s.popped), t);
    assert multiset(s.popped + [t]) == multiset(s.popped) + multiset{t};
    assert Apply(s, Take(i, wake)).workers == ws;
  }

  lemma ExecuteConserves<T>(s: Pool<T>, i: nat)
    requires TaskInv(s) && Enabled(s, Execute(i))
    ensures TaskInv(Apply(s, Execute(i)))
  {
    var t := s.workers[i].task;
    var ws := s.workers[i := Top];
    HeldUpdate(s.workers, i, Top);
    assert HeldBy(s.workers[i]) == multiset{t} && HeldBy<T>(Top) == multiset{};
    assert Held(ws) + multiset{t} == Held(s.workers);
    OneDone(multiset(s.executed), Held(s.workers), Held(ws), multiset(s.popped), t);
    assert multiset(s.executed + [t]) == multiset(s.executed) + multiset{t};
  }

  ghost predicate HeldAlike<T>(s: Pool<T>, d: Pool<T>) {
    && d.executed == s.executed && d.popped == s.popped && |d.workers| == |s.workers|
    && forall k :: 0 <= k < |s.workers| ==> HeldBy(s.workers[k]) == HeldBy(d.workers[k])
  }

  /** The other steps move no task between queue, workers and the executed ones. */
  lemma OtherWorkerStepsHold<T>(s: Pool<T>, a: Act<T>)
    requires Enabled(s, a) && (a.Check? || a.Lock? || a.Look? || a.Sleep? || a.SpuriousWorker? || (a.Take? && !s.flag))
    ensures HeldAlike(s, Apply(s, a))
  {
  }

  lemma ProducerStepsHold<T>(s: Pool<T>, a: Act<T>)
    requires Enabled(s, a) && (a.AddTask? || a.LockPush? || a.SpuriousProducer?)
    ensures HeldAlike(s, Apply(s, a))
  {
    assert Apply(s, a).workers == s.workers;
  }

  lemma PushHolds<T>(s: Pool<T>, p: nat, wake: Option<nat>)
    requires Enabled(s, Push(p, wake))
    ensures HeldAlike(s, Apply(s, Push(p, wake)))
  {
    assert Apply(s, Push(p, wake)).workers ==
           if !Full(s) && wake.Some? then s.workers[wake.value := Notified] else s.workers;
  }

  lemma StopHolds<T>(s: Pool<T>)
    requires Enabled(s, StopStep)
    ensures HeldAlike(s, Apply(s, StopStep))
  {
    var d := Apply(s, StopStep);
    if s.stopper.FlagCleared? {
      forall k | 0 <= k < |s.workers| ensures HeldBy(s.workers[k]) == HeldBy(d.workers[k]) {
        assert d.workers[k] == if s.workers[k].Sleeping? then Notified else s.workers[k];
      }
    } else {
      assert d.workers == s.workers;
    }
  }

  /** No step loses or repeats a task. */
  lemma ApplyConserves<T>(s: Pool<T>, a: Act<T>)
    requires TaskInv(s) && Enabled(s, a)
    ensures TaskInv(Apply(s, a))
  {
    if a.Execute? {
      ExecuteConserves(s, a.i);
    } else if a.Take? && s.flag {
      TakeConserves(s, a.i, a.wake);
    } else {
      match a {
        case StopStep => StopHolds(s);
        case AddTask(_, _) => ProducerStepsHold(s, a);
        case LockPush(_) => ProducerStepsHold(s, a);
        case Push(p, wake) => PushHolds(s, p, wake);
        case SpuriousProducer(_) => ProducerStepsHold(s, a);
        case _ => OtherWorkerStepsHold(s, a);
      }
      HeldSame(s.workers, Apply(s, a).workers);
    }
  }

  lemma {:induction false} HeldNone<T>(ws: seq<Worker<T>>)
    requires forall k :: 0 <= k < |ws| ==> !ws[k].Holding?
    ensures Held(ws) == multiset{}
  {
    if |ws| > 0 {
      HeldNone(ws[1..]);
    }
  }

  lemma InitialInv<T>(capacity: nat, workers: nat, producers: nat)
    ensures Inv(Initial<T>(capacity, workers, producers)) && TaskInv(Initial<T>(capacity, workers, producers))
  {
    HeldNone(Initial<T>(capacity, workers, producers).workers);
  }

  lemma {:induction false} RunKeeps<T>(s: Pool<T>, acts: seq<Act<T>>)
    requires Inv(s) && TaskInv(s) && ValidRun(s, acts)
    ensures Inv(Run(s, acts)) && TaskInv(Run(s, acts))
    decreases |acts|
  {
    if |acts| > 0 {
      ApplyKeeps(s, acts[0]);
      ApplyConserves(s, acts[0]);
      RunKeeps(Apply(s, acts[0]), acts[1..]);
    }
  }

  // ---------------------------------------------------------------- theorems: before shutdown

  /**
   No lost wakeup, in every reachable state before `wakeup()`: while a worker sleeps, each queued task has a
   notified worker, or one that holds the mutex, to take it; while a producer sleeps, each free slot has its filler.
   And the queue hands tasks out in order, each to exactly one worker.
   */
  lemma NoLostWakeup<T>(capacity: nat, workers: nat, producers: nat, acts: seq<Act<T>>)
    requires ValidRun(Initial<T>(capacity, workers, producers), acts)
    ensures var s := Run(Initial<T>(capacity, workers, producers), acts);
            && (s.flag && SomeSleeps(s) ==> |s.queue| <= Sum(IsNotified<T>, s.workers) + ComingToTake(s))
            && (SomeBlocked(s) ==> capacity - |s.queue| <= Sum(IsSignalled<T>, s.producers) + ComingToPush(s))
            && s.popped + s.queue == s.accepted && |s.queue| <= capacity
            && multiset(s.executed) + Held(s.workers) == multiset(s.popped)
  {
    var s0 := Initial<T>(capacity, workers, producers);
    InitialInv<T>(capacity, workers, producers);
    RunKeeps(s0, acts);
    RunSameShape(s0, acts);
  }

  lemma SameShape<T>(s: Pool<T>, a: Act<T>)
    requires Enabled(s, a)
    ensures Apply(s, a).capacity == s.capacity && |Apply(s, a).workers| == |s.workers|
  {
  }

  lemma {:induction false} RunSameShape<T>(s: Pool<T>, acts: seq<Act<T>>)
    requires ValidRun(s, acts)
    ensures Run(s, acts).capacity == s.capacity && |Run(s, acts).workers| == |s.workers|
    decreases |acts|
  {
    if |acts| > 0 {
      SameShape(s, acts[0]);
      RunSameShape(Apply(s, acts[0]), acts[1..]);
    }
  }

  /**
   In every run, a worker about to call `front()` finds the queue non-empty, and gets the oldest accepted task that
   nobody has been given.
   */
  lemma FrontIsSafe<T>(capacity: nat, workers: nat, producers: nat, acts: seq<Act<T>>, i: nat)
    requires ValidRun(Initial<T>(capacity, workers, producers), acts)
    requires var s := Run(Initial<T>(capacity, workers, producers), acts);
             i < |s.workers| && s.workers[i].Leaving? && s.flag
    ensures var s := Run(Initial<T>(capacity, workers, producers), acts);
            |s.queue| > 0 && |s.popped| < |s.accepted| && s.queue[0] == s.accepted[|s.popped|]
  {
    InitialInv<T>(capacity, workers, producers);
    RunKeeps(Initial<T>(capacity, workers, producers), acts);
  }

  ghost predicate WorkerAct<T>(a: Act<T>) {
    a.Check? || a.Lock? || a.Look? || a.Sleep? || a.Take? || a.Execute?
  }

  lemma ProducerTargetExists<T>(s: Pool<T>) returns (wake: Option<nat>)
    ensures ProducerTarget(s, wake)
  {
    if SomeBlocked(s) {
      var p :| 0 <= p < |s.producers| && s.producers[p].Blocked?;
      wake := Some(p);
    } else {
      wake := None;
    }
  }

  lemma WorkerTargetExists<T>(s: Pool<T>) returns (wake: Option<nat>)
    ensures WorkerTarget(s, wake)
  {
    if i :| 0 <= i < |s.workers| && s.workers[i].Sleeping? {
      wake := Some(i);
    } else {
      wake := None;
    }
  }

  /** Whoever holds the mutex can go on, and so can any thread that is not asleep while it is free. */
  lemma AwakeWorkerMoves<T>(s: Pool<T>, i: nat) returns (a: Act<T>)
    requires Inv(s) && i < |s.workers|
    requires !s.workers[i].Sleeping? && !s.workers[i].Exited?
    requires Waiting(s.workers[i]) ==> s.owner.Free?
    ensures WorkerAct(a) && Enabled(s, a) && a.i == i
  {
    match s.workers[i] {
      case Top => a := Check(i);
      case Locked => a := Look(i);
      case Committed => a := Sleep(i);
      case Leaving =>
        var wake := ProducerTargetExists(s);
        a := Take(i, wake);
      case Holding(_) => a := Execute(i);
      case _ => a := Lock(i);
    }
  }

  /**
   With at least one worker and room for a task, a blocked producer that nobody has signalled yet means that some
   worker has a step to take: producers and workers can never all be asleep.
   */
  lemma BlockedMeansWorkerMoves<T>(s: Pool<T>) returns (a: Act<T>)
    requires Inv(s) && !s.isExit && 0 < s.capacity && 0 < |s.workers|
    requires SomeBlocked(s) && !s.owner.ByProducer?
    requires forall p :: 0 <= p < |s.producers| ==> !s.producers[p].Signalled?
    ensures WorkerAct(a) && Enabled(s, a)
  {
    SumZero(IsSignalled<T>, s.producers);
    if s.owner.ByWorker? {
      a := AwakeWorkerMoves(s, s.owner.i);
    } else if j :| 0 <= j < |s.workers| && !s.workers[j].Sleeping? {
      a := AwakeWorkerMoves(s, j);
    } else {
      assert SomeSleeps(s) by { assert s.workers[0].Sleeping?; }
      SumZero(IsNotified<T>, s.workers);
      assert false;
    }
  }

  // ---------------------------------------------------------------- theorems: stop()

  /** No `addTask` overlaps `stop()`. */
  ghost predicate NoOverlap<T>(s: Pool<T>) {
    !s.stopper.NotStopping? ==> forall p :: 0 <= p < |s.producers| ==> s.producers[p].Idle?
  }

  ghost predicate NoOverlapThroughout<T>(s: Pool<T>, acts: seq<Act<T>>)
    requires ValidRun(s, acts)
    decreases |acts|
  {
    NoOverlap(s) && (|acts| > 0 ==> NoOverlapThroughout(Apply(s, acts[0]), acts[1..]))
  }

  /** Once `stop()` has seen the queue empty it stays empty. */
  lemma {:induction false} StaysEmpty<T>(s: Pool<T>, acts: seq<Act<T>>)
    requires ValidRun(s, acts) && NoOverlapThroughout(s, acts)
    requires 2 <= s.stopper.Rank() ==> |s.queue| == 0
    ensures 2 <= Run(s, acts).stopper.Rank() ==> |Run(s, acts).queue| == 0
    decreases |acts|
  {
    if |acts| > 0 {
      StaysEmpty(Apply(s, acts[0]), acts[1..]);
    }
  }

  /**
   Drain on stop. When `stop()` has returned, every task ever accepted was executed exactly once or is still in
   the queue; and if no `addTask` overlapped `stop()`, the queue is empty. Tasks that a worker held when the exit
   flag flipped are among the executed ones.
   */
  lemma DrainOnStop<T>(capacity: nat, workers: nat, producers: nat, acts: seq<Act<T>>)
    requires ValidRun(Initial<T>(capacity, workers, producers), acts)
    requires Run(Initial<T>(capacity, workers, producers), acts).stopper.Stopped?
    ensures var s := Run(Initial<T>(capacity, workers, producers), acts);
            && multiset(s.executed) + multiset(s.queue) == multiset(s.accepted)
            && (NoOverlapThroughout(Initial<T>(capacity, workers, producers), acts) ==>
                  multiset(s.executed) == multiset(s.accepted))
  {
    var s0 := Initial<T>(capacity, workers, producers);
    var s := Run(s0, acts);
    InitialInv<T>(capacity, workers, producers);
    RunKeeps(s0, acts);
    HeldNone(s.workers);
    assert multiset(s.popped + s.queue) == multiset(s.popped) + multiset(s.queue);
    if NoOverlapThroughout(s0, acts) {
      StaysEmpty(s0, acts);
    }
  }

  /** Nobody sleeps or is about to: there is nobody `stop()` could wait for in vain. */
  ghost predicate Calm<T>(s: Pool<T>) {
    forall i :: 0 <= i < |s.workers| ==> !s.workers[i].Sleeping? && !s.workers[i].Committed?
  }

  lemma CalmStays<T>(s: Pool<T>, a: Act<T>)
    requires !s.flag && Calm(s) && Enabled(s, a)
    ensures Calm(Apply(s, a)) && !Apply(s, a).flag
  {
  }

  lemma {:induction false} CalmRun<T>(s: Pool<T>, acts: seq<Act<T>>)
    requires !s.flag && Calm(s) && ValidRun(s, acts)
    ensures Calm(Run(s, acts))
    decreases |acts|
  {
    if |acts| > 0 {
      CalmStays(s, acts[0]);
      CalmRun(Apply(s, acts[0]), acts[1..]);
    }
  }

  /** What `notify_all` leaves behind: at most one worker that has decided to wait, and it holds the mutex. */
  lemma AfterNotifyAll<T>(s: Pool<T>)
    requires Inv(s) && s.stopper.FlagCleared?
    ensures Inv(Stop(s)) && Stop(s).stopper.Joining? && !SomeSleeps(Stop(s))
    ensures Calm(Stop(s)) <==> !(s.owner.ByWorker? && s.workers[s.owner.i].Committed?)
  {
    RouseKeeps(s);
  }

  ghost predicate PutsToSleep<T>(s: Pool<T>, acts: seq<Act<T>>) {
    ValidRun(s, acts) && SomeSleeps(Run(s, acts))
  }

  /**
   `wakeup()` clears the flag and notifies without the mutex, so a worker caught between its test and its wait
   misses both. Exactly then can a worker still fall asleep while `stop()` joins.
   */
  lemma StopCanHang<T>(s: Pool<T>)
    requires Inv(s) && s.stopper.Joining? && !SomeSleeps(s)
    ensures (exists acts :: PutsToSleep(s, acts)) <==> !Calm(s)
  {
    if Calm(s) {
      forall acts | ValidRun(s, acts) ensures !PutsToSleep(s, acts) {
        CalmRun(s, acts);
      }
    } else {
      var i :| 0 <= i < |s.workers| && s.workers[i].Committed?;
      var acts := [Sleep(i)];
      assert acts[1..] == [];
      assert ValidRun(Apply(s, Sleep(i)), []);
      assert Run(s, acts) == Apply(s, Sleep(i));
      assert Run(s, acts).workers[i].Sleeping?;
      assert PutsToSleep(s, acts);
    }
  }

  /**
   And once it sleeps, or is bound to, `stop()` waits for it for ever: only a spurious wakeup or a late push could
   help.
   */
  lemma {:induction false} HangsForever<T>(s: Pool<T>, i: nat, acts: seq<Act<T>>)
    requires s.stopper.Joining? && i < |s.workers| && (s.workers[i].Sleeping? || s.workers[i].Committed?)
    requires ValidRun(s, acts) && forall k :: 0 <= k < |acts| ==> !acts[k].SpuriousWorker? && !acts[k].Push?
    ensures Run(s, acts).stopper.Joining?
    ensures |Run(s, acts).workers| == |s.workers|
    ensures Run(s, acts).workers[i].Sleeping? || Run(s, acts).workers[i].Committed?
    decreases |acts|
  {
    if |acts| > 0 {
      assert !acts[0].SpuriousWorker? && !acts[0].Push?;
      HangsForever(Apply(s, acts[0]), i, acts[1..]);
    }
  }

  lemma RunCons<T>(s: Pool<T>, a: Act<T>, acts: seq<Act<T>>)
    requires Enabled(s, a) && ValidRun(Apply(s, a), acts)
    ensures ValidRun(s, [a] + acts) && Run(s, [a] + acts) == Run(Apply(s, a), acts)
  {
    assert ([a] + acts)[1..] == acts;
  }

  /** The whole of `stop()` up to its join, while worker 0 is between its test and its wait. */
  lemma StopPastCommitted<T>(s: Pool<T>) returns (acts: seq<Act<T>>)
    requires s.stopper.NotStopping? && |s.queue| == 0 && 0 < |s.workers| && s.workers[0].Committed?
    requires forall k :: 0 <= k < |s.workers| ==> !s.workers[k].Sleeping?
    ensures ValidRun(s, acts)
    ensures Run(s, acts).stopper.Joining? && SomeSleeps(Run(s, acts))
  {
    var s4 := s.(stopper := FlagCleared, isExit := true, flag := false);
    assert Stop(Stop(Stop(Stop(s)))) == s4;
    var s5 := Stop(s4);
    assert Roused(s.workers) == s.workers;
    assert Apply(s5, Sleep(0)).workers[0].Sleeping?;
    RunCons(s5, Sleep(0), []);
    acts := [Sleep(0)] + [];
    RunCons(s4, StopStep, acts);
    acts := [StopStep] + acts;
    RunCons(Stop(Stop(Stop(s))), StopStep, acts);
    acts := [StopStep] + acts;
    RunCons(Stop(Stop(s)), StopStep, acts);
    acts := [StopStep] + acts;
    RunCons(Stop(s), StopStep, acts);
    acts := [StopStep] + acts;
    RunCons(s, StopStep, acts);
    acts := [StopStep] + acts;
  }

  /** Such a run exists from the start: one worker tests the flag just before `stop()` clears it. */
  lemma HangIsReachable<T>(capacity: nat, workers: nat, producers: nat) returns (acts: seq<Act<T>>)
    requires 0 < workers
    ensures ValidRun(Initial<T>(capacity, workers, producers), acts)
    ensures var s := Run(Initial<T>(capacity, workers, producers), acts); s.stopper.Joining? && SomeSleeps(s)
  {
    var s0 := Initial<T>(capacity, workers, producers);
    var s1 := Apply(s0, Check(0));
    var s2 := Apply(s1, Lock(0));
    acts := StopPastCommitted(Apply(s2, Look(0)));
    RunCons(s2, Look(0), acts);
    acts := [Look(0)] + acts;
    RunCons(s1, Lock(0), acts);
    acts := [Lock(0)] + acts;
    RunCons(s0, Check(0), acts);
    acts := [Check(0)] + acts;
  }

  ghost predicate Hangs<T>(capacity: nat, workers: nat, producers: nat, acts: seq<Act<T>>) {
    ValidRun(Initial<T>(capacity, workers, producers), acts) &&
    var s := Run(Initial<T>(capacity, workers, producers), acts); s.stopper.Joining? && SomeSleeps(s)
  }

  /** A pool may have `stop()` join a sleeper if and only if it has a worker. */
  lemma HangsIff<T>(capacity: nat, workers: nat, producers: nat)
    ensures (exists acts: seq<Act<T>> :: Hangs(capacity, workers, producers, acts)) <==> 0 < workers
  {
    if 0 < workers {
      var acts := HangIsReachable<T>(capacity, workers, producers);
      assert Hangs(capacity, workers, producers, acts);
    } else {
      forall acts: seq<Act<T>> ensures !Hangs(capacity, workers, producers, acts) {
        if ValidRun(Initial<T>(capacity, workers, producers), acts) {
          RunSameShape(Initial<T>(capacity, workers, producers), acts);
        }
      }
    }
  }

  // ---------------------------------------------------------------- how far stop() gets

  /** `stop()` is under way and no `addTask` overlaps it. */
  ghost predicate Stopping<T>(s: Pool<T>) {
    && Inv(s) && 1 <= s.stopper.Rank()
    && (2 <= s.stopper.Rank() ==> |s.queue| == 0)
    && forall p :: 0 <= p < |s.producers| ==> s.producers[p].Idle?
  }

  ghost predicate QuietAct<T>(a: Act<T>) { !a.AddTask? && !a.SpuriousWorker? }

  /** A run with no new task and no spurious wakeup. */
  ghost predicate QuietRun<T>(s: Pool<T>, acts: seq<Act<T>>) {
    ValidRun(s, acts) && forall k :: 0 <= k < |acts| ==> QuietAct(acts[k])
  }

  /** `stop()` looks at the queue, finds tasks, and goes back to sleep for a second. */
  ghost predicate IdlePoll<T>(s: Pool<T>, a: Act<T>) { a.StopStep? && s.stopper.Polling? && |s.queue| > 0 }

  ghost function IdlePolls<T>(s: Pool<T>, acts: seq<Act<T>>): nat
    requires ValidRun(s, acts)
    decreases |acts|
  {
    if |acts| == 0 then 0
    else (if IdlePoll(s, acts[0]) then 1 else 0) + IdlePolls(Apply(s, acts[0]), acts[1..])
  }

  /** How far a worker is from sleeping, as long as the pool runs ... */
  ghost function ToSleep<T>(w: Worker<T>): nat {
    match w
    case Holding(_) => 6
    case Top => 5
    case Locked => 3
    case Leaving => 2
    case Committed => 1
    case Sleeping => 0
    case Exited => 0
    case _ => 4
  }

  /** ... and from exiting, or from sleeping for good, once the exit flag is set. */
  ghost function ToExit<T>(w: Worker<T>): nat {
    match w
    case Holding(_) => 2
    case Top => 1
    case _ => ToSleep(w)
  }

  ghost function StopLeft(st: Stopper, workers: nat): nat {
    match st
    case NotStopping => 6 * (6 * workers + 1)
    case Polling => 5 * (6 * workers + 1)
    case Drained => 4 * (6 * workers + 1)
    case ExitSet => 3 * (6 * workers + 1)
    case FlagCleared => 2 * (6 * workers + 1)
    case Joining => 6 * workers + 1
    case Stopped => 0
  }

  ghost function WorkersLeft<T>(s: Pool<T>): nat {
    if s.isExit then Sum(ToExit<T>, s.workers) else Sum(ToSleep<T>, s.workers)
  }

  /** A bound on the steps of a run, apart from idle polls. */
  ghost function Left<T>(s: Pool<T>): nat {
    StopLeft(s.stopper, |s.workers|) + 5 * |s.queue| + WorkersLeft(s)
  }

  lemma {:induction false} SumAtMostSix<A>(weight: A -> nat, xs: seq<A>)
    requires forall x :: weight(x) <= 6
    ensures Sum(weight, xs) <= 6 * |xs|
  {
    if |xs| > 0 {
      SumAtMostSix(weight, xs[1..]);
      assert weight(xs[0]) <= 6;
    }
  }

  lemma StopStepLess<T>(s: Pool<T>)
    requires Stopping(s) && Enabled(s, StopStep)
    ensures Stopping(Apply(s, StopStep))
    ensures if IdlePoll(s, StopStep) then Apply(s, StopStep) == s else Left(Apply(s, StopStep)) < Left(s)
  {
    StopKeeps(s);
    SumAtMostSix(ToExit<T>, Apply(s, StopStep).workers);
  }

  /** What a worker does next costs one of the steps it has left; a task taken pays for its own way. */
  lemma WorkerStepLess<T>(s: Pool<T>, a: Act<T>)
    requires Stopping(s) && WorkerAct(a) && Enabled(s, a)
    ensures Left(Apply(s, a)) < Left(s)
  {
    var d := Apply(s, a);
    var v, w := s.workers[a.i], d.workers[a.i];
    assert d.workers == s.workers[a.i := w];
    assert d.stopper == s.stopper && d.isExit == s.isExit;
    if s.isExit {
      SumUpdate(ToExit<T>, s.workers, a.i, w);
      assert |d.queue| == |s.queue| && ToExit(w) < ToExit(v);
    } else {
      SumUpdate(ToSleep<T>, s.workers, a.i, w);
      assert 5 * |d.queue| + ToSleep(w) < 5 * |s.queue| + ToSleep(v);
    }
  }

  lemma QuietStepLess<T>(s: Pool<T>, a: Act<T>)
    requires Stopping(s) && Enabled(s, a) && QuietAct(a)
    ensures Stopping(Apply(s, a)) && |Apply(s, a).queue| <= |s.queue|
    ensures if IdlePoll(s, a) then Apply(s, a) == s else Left(Apply(s, a)) < Left(s)
  {
    if a.StopStep? {
      StopStepLess(s);
    } else {
      ApplyKeeps(s, a);
      WorkerStepLess(s, a);
    }
  }

  /** While `stop()` is under way, a quiet run has a bounded number of steps, idle polls apart. */
  lemma {:induction false} StopRunBounded<T>(s: Pool<T>, acts: seq<Act<T>>)
    requires Stopping(s) && QuietRun(s, acts)
    ensures Stopping(Run(s, acts)) && |Run(s, acts).workers| == |s.workers| && |Run(s, acts).queue| <= |s.queue|
    ensures |acts| + Left(Run(s, acts)) <= Left(s) + IdlePolls(s, acts)
    decreases |acts|
  {
    if |acts| > 0 {
      assert QuietAct(acts[0]);
      QuietStepLess(s, acts[0]);
      StopRunBounded(Apply(s, acts[0]), acts[1..]);
    }
  }

  ghost predicate GoesOn<T>(s: Pool<T>, a: Act<T>) { Enabled(s, a) && QuietAct(a) && !IdlePoll(s, a) }

  /** Where a run of `stop()` can end: it has returned, or it joins a worker that sleeps. */
  ghost predicate Ended<T>(s: Pool<T>) { s.stopper.Stopped? || (s.stopper.Joining? && SomeSleeps(s)) }

  /** If there is a worker to drain the queue, or nothing to drain, `stop()` or a worker can go on until then. */
  lemma StopGoesOn<T>(s: Pool<T>) returns (a: Act<T>)
    requires Stopping(s) && !Ended(s) && (0 < |s.workers| || |s.queue| == 0)
    ensures GoesOn(s, a)
  {
    if !s.stopper.Joining? && !(s.stopper.Polling? && |s.queue| > 0) {
      a := StopStep;
    } else if s.owner.ByWorker? {
      a := AwakeWorkerMoves(s, s.owner.i);
    } else if i :| 0 <= i < |s.workers| && !s.workers[i].Sleeping? && !s.workers[i].Exited? {
      a := AwakeWorkerMoves(s, i);
    } else if s.stopper.Joining? {
      assert AllExited(s);
      a := StopStep;
    } else {
      assert s.workers[0].Sleeping?;
      SumZero(IsNotified<T>, s.workers);
      assert false;
    }
  }

  /**
   The drain: with at least one worker, or nothing queued, and no overlapping `addTask`, `stop()` gets through. Every
   run without spurious wakeups has a bounded number of steps besides idle polls, and until `stop()` has
   returned, or joins a worker that sleeps, some thread has such a step.
   */
  lemma StopGetsThrough<T>(s: Pool<T>, acts: seq<Act<T>>)
    requires Stopping(s) && QuietRun(s, acts) && (0 < |s.workers| || |s.queue| == 0)
    ensures |acts| <= Left(s) + IdlePolls(s, acts)
    ensures Ended(Run(s, acts)) || exists a :: GoesOn(Run(s, acts), a)
  {
    StopRunBounded(s, acts);
    if !Ended(Run(s, acts)) {
      var a := StopGoesOn(Run(s, acts));
    }
  }

  ghost predicate Reaches<T>(s: Pool<T>, acts: seq<Act<T>>, rank: nat) {
    QuietRun(s, acts) && rank <= Run(s, acts).stopper.Rank()
  }

  /** Such a run, carried to its end. */
  lemma {:induction false} CarryOn<T>(s: Pool<T>) returns (acts: seq<Act<T>>)
    requires Stopping(s) && (0 < |s.workers| || |s.queue| == 0)
    ensures QuietRun(s, acts) && Ended(Run(s, acts))
    decreases Left(s)
  {
    if Ended(s) {
      acts := [];
    } else {
      var a := StopGoesOn(s);
      QuietStepLess(s, a);
      SameShape(s, a);
      var rest := CarryOn(Apply(s, a));
      acts := [a] + rest;
      RunCons(s, a, rest);
    }
  }

  /** Without workers, a task left in the queue keeps `stop()` polling in every run whatsoever. */
  lemma {:induction false} PollsForever<T>(s: Pool<T>, acts: seq<Act<T>>)
    requires s.workers == [] && s.queue != [] && s.stopper.Polling? && ValidRun(s, acts)
    ensures Run(s, acts).stopper.Polling?
    decreases |acts|
  {
    if |acts| > 0 {
      PollsForever(Apply(s, acts[0]), acts[1..]);
    }
  }

  /** `stop()` can leave its polling loop if and only if there is a worker, or nothing to drain. */
  lemma PollEndsIff<T>(s: Pool<T>)
    requires Stopping(s) && s.stopper.Polling?
    ensures (exists acts :: Reaches(s, acts, 2)) <==> 0 < |s.workers| || |s.queue| == 0
  {
    if 0 < |s.workers| || |s.queue| == 0 {
      var acts := CarryOn(s);
      assert Reaches(s, acts, 2);
    } else {
      forall acts | QuietRun(s, acts) ensures !Reaches(s, acts, 2) {
        PollsForever(s, acts);
      }
    }
  }

  lemma {:induction false} NoIdlePolls<T>(s: Pool<T>, acts: seq<Act<T>>)
    requires 5 <= s.stopper.Rank() && ValidRun(s, acts)
    ensures IdlePolls(s, acts) == 0
    decreases |acts|
  {
    if |acts| > 0 {
      NoIdlePolls(Apply(s, acts[0]), acts[1..]);
    }
  }

  lemma {:induction false} NoPushes<T>(s: Pool<T>, acts: seq<Act<T>>)
    requires Stopping(s) && QuietRun(s, acts)
    ensures forall k :: 0 <= k < |acts| ==> !acts[k].Push?
    decreases |acts|
  {
    if |acts| > 0 {
      assert QuietAct(acts[0]);
      QuietStepLess(s, acts[0]);
      NoPushes(Apply(s, acts[0]), acts[1..]);
      assert acts == [acts[0]] + acts[1..];
    }
  }

  lemma CalmGoesOn<T>(s: Pool<T>, acts: seq<Act<T>>)
    requires Stopping(s) && s.stopper.Joining? && Calm(s) && QuietRun(s, acts)
    ensures |acts| <= Left(s) && (Run(s, acts).stopper.Stopped? || exists a :: GoesOn(Run(s, acts), a))
  {
    StopGetsThrough(s, acts);
    CalmRun(s, acts);
    NoIdlePolls(s, acts);
  }

  lemma NotCalmHangs<T>(s: Pool<T>, acts: seq<Act<T>>)
    requires Stopping(s) && s.stopper.Joining? && !Calm(s) && QuietRun(s, acts)
    ensures Run(s, acts).stopper.Joining?
  {
    var i :| 0 <= i < |s.workers| && (s.workers[i].Sleeping? || s.workers[i].Committed?);
    NoPushes(s, acts);
    HangsForever(s, i, acts);
  }

  /** Some scheduling lets `stop()` return. */
  ghost predicate CanReturn<T(!new)>(s: Pool<T>) { exists acts :: Reaches(s, acts, 6) }

  /** Every scheduling does: runs are of bounded length, and go on until it has returned. */
  ghost predicate AlwaysReturns<T(!new)>(s: Pool<T>) {
    forall acts :: QuietRun(s, acts) ==>
      |acts| <= Left(s) && (Run(s, acts).stopper.Stopped? || exists a :: GoesOn(Run(s, acts), a))
  }

  lemma CalmReturns<T(!new)>(s: Pool<T>)
    requires Stopping(s) && s.stopper.Joining? && Calm(s)
    ensures CanReturn(s) && AlwaysReturns(s)
  {
    forall acts | QuietRun(s, acts)
      ensures |acts| <= Left(s) && (Run(s, acts).stopper.Stopped? || exists a :: GoesOn(Run(s, acts), a))
    {
      CalmGoesOn(s, acts);
    }
    var acts := CarryOn(s);
    CalmRun(s, acts);
    assert Reaches(s, acts, 6);
  }

  /**
   From its join on, without spurious wakeups and late pushes, `stop()` returns under every scheduling if nobody
   sleeps or is about to, and otherwise under none.
   */
  lemma StopReturnsIff<T(!new)>(s: Pool<T>)
    requires Stopping(s) && s.stopper.Joining?
    ensures CanReturn(s) <==> Calm(s)
    ensures Calm(s) ==> AlwaysReturns(s)
  {
    if Calm(s) {
      CalmReturns(s);
    } else {
      forall acts | QuietRun(s, acts) ensures !Reaches(s, acts, 6) {
        NotCalmHangs(s, acts);
      }
    }
  }

  /** So the moment of `notify_all` decides: `stop()` will return unless the mutex is held by a worker about to wait. */
  lemma NotifyAllDecides<T(!new)>(s: Pool<T>)
    requires Stopping(s) && s.stopper.FlagCleared?
    ensures CanReturn(Stop(s)) <==> !(s.owner.ByWorker? && s.workers[s.owner.i].Committed?)
  {
    AfterNotifyAll(s);
    StopReturnsIff(Stop(s));
  }
}
