/**
 How other threads hand tasks to an event loop: a mutex-protected vector, and an eventfd counter as the only
 alarm. One machine covers both loops of the repository: src/event_loop.cpp, whose `run` drains the vector
 after every return of `epoll_wait` and whose eventfd does not block, and Reactor_v4/EventLoop.cc, which
 drains it only when the eventfd reports, and whose eventfd blocks.

 Steps are labelled; what happens under one hold of the mutex, and each read or write of the eventfd, is one step.
 */
module TaskHandoff {
  /** The largest value an eventfd counter can hold. */
  const COUNTER_MAX: nat := 0xFFFF_FFFF_FFFF_FFFE

  datatype LoopPc =
    | Polling                      // in epoll_wait
    | Dispatching(alarm: bool)     // handling events; `alarm`: the eventfd is one that is still to be handled
    | Draining                     // about to swap the vector out
    | Running                      // executing the batch

  datatype Handoff<T> = Handoff(
    v4: bool,
    pending: seq<T>,
    counter: nat,
    ringing: seq<bool>,            // per posting thread: has pushed but not yet written the eventfd
    pc: LoopPc,
    batch: seq<T>,
    posted: seq<T>,                // in lock order
    executed: seq<T>)

  datatype Act<T> =
    | Push(thread: nat, task: T)
    | Ring(thread: nat)
    | Wake(alarm: bool)
    | ReadAlarm
    | EndDispatch
    | Swap
    | RunOne
    | EndBatch

  ghost function Initial<T>(v4: bool, threads: nat): Handoff<T> {
    Handoff(v4, [], 0, seq(threads, _ => false), Polling, [], [], [])
  }

  /** A blocking eventfd refuses a write that would overflow it and a read while it is zero. */
  ghost predicate Enabled<T>(s: Handoff<T>, a: Act<T>) {
    match a
    case Push(i, _) => i < |s.ringing| && !s.ringing[i]
    case Ring(i) => i < |s.ringing| && s.ringing[i] && (s.v4 ==> s.counter < COUNTER_MAX)
    case Wake(alarm) => s.pc.Polling? && (alarm ==> 0 < s.counter)
    case ReadAlarm => s.pc == Dispatching(true) && (s.v4 ==> 0 < s.counter)
    case EndDispatch => s.pc == Dispatching(false)
    case Swap => s.pc.Draining?
    case RunOne => s.pc.Running? && |s.batch| > 0
    case EndBatch => s.pc.Running? && |s.batch| == 0
  }

  ghost function Apply<T>(s: Handoff<T>, a: Act<T>): Handoff<T>
    requires Enabled(s, a)
  {
    match a
    case Push(i, t) => s.(pending := s.pending + [t], ringing := s.ringing[i := true], posted := s.posted + [t])
    case Ring(i) => s.(counter := if s.counter < COUNTER_MAX then s.counter + 1 else s.counter,
                       ringing := s.ringing[i := false])
    case Wake(alarm) => s.(pc := Dispatching(alarm))
    case ReadAlarm => s.(counter := 0, pc := if s.v4 then Draining else Dispatching(false))
    case EndDispatch => s.(pc := if s.v4 then Polling else Draining)
    case Swap => s.(pc := Running, batch := s.pending, pending := [])
    case RunOne => s.(batch := s.batch[1..], executed := s.executed + [s.batch[0]])
    case EndBatch => s.(pc := if s.v4 then Dispatching(false) else Polling)
  }

  ghost predicate ValidRun<T>(s: Handoff<T>, acts: seq<Act<T>>)
    decreases |acts|
  {
    |acts| > 0 ==> Enabled(s, acts[0]) && ValidRun(Apply(s, acts[0]), acts[1..])
  }

  ghost function Run<T>(s: Handoff<T>, acts: seq<Act<T>>): Handoff<T>
    requires ValidRun(s, acts)
    decreases |acts|
  {
    if |acts| == 0 then s else Run(Apply(s, acts[0]), acts[1..])
  }

  // ---------------------------------------------------------------- the invariant

  ghost predicate Someone<T>(s: Handoff<T>) { exists i :: 0 <= i < |s.ringing| && s.ringing[i] }

  /** The loop will swap the vector out before it sleeps again. */
  ghost predicate WillDrain<T>(s: Handoff<T>) {
    s.pc.Draining? || (!s.v4 && s.pc.Dispatching?)
  }

  ghost predicate Inv<T>(s: Handoff<T>) {
    && s.executed + s.batch + s.pending == s.posted
    && (|s.batch| > 0 ==> s.pc.Running?)
    && (s.pc == Dispatching(true) ==> 0 < s.counter)
    && (|s.pending| > 0 ==> 0 < s.counter || Someone(s) || WillDrain(s))
    && s.counter + multiset(s.ringing)[true] <= |s.posted|
    && s.counter <= COUNTER_MAX
  }

  lemma InitialInv<T>(v4: bool, threads: nat)
    ensures Inv(Initial<T>(v4, threads))
  {
    var s := Initial<T>(v4, threads);
    assert true !in s.ringing;
  }

  lemma PushKeeps<T>(s: Handoff<T>, i: nat, t: T)
    requires Inv(s) && Enabled(s, Push(i, t))
    ensures Inv(Apply(s, Push(i, t)))
  {
    var d := Apply(s, Push(i, t));
    assert d.executed + d.batch + d.pending == s.executed + s.batch + s.pending + [t];
    assert d.ringing[i];
    assert multiset(d.ringing) == multiset(s.ringing) - multiset{false} + multiset{true};
  }

  lemma RingKeeps<T>(s: Handoff<T>, i: nat)
    requires Inv(s) && Enabled(s, Ring(i))
    ensures Inv(Apply(s, Ring(i)))
  {
    assert multiset(Apply(s, Ring(i)).ringing) == multiset(s.ringing) - multiset{true} + multiset{false};
  }

  lemma RunOneKeeps<T>(s: Handoff<T>)
    requires Inv(s) && Enabled(s, RunOne)
    ensures Inv(Apply(s, RunOne))
  {
    var d := Apply(s, RunOne);
    assert d.executed + d.batch == s.executed + s.batch;
  }

  lemma ApplyKeeps<T>(s: Handoff<T>, a: Act<T>)
    requires Inv(s) && Enabled(s, a)
    ensures Inv(Apply(s, a))
  {
    match a {
      case Push(i, t) => PushKeeps(s, i, t);
      case Ring(i) => RingKeeps(s, i);
      case RunOne => RunOneKeeps(s);
      case Swap => assert s.batch == [] && s.executed + s.pending + [] == s.posted;
      case _ =>
    }
  }

  lemma {:induction false} RunKeeps<T>(s: Handoff<T>, acts: seq<Act<T>>)
    requires Inv(s) && ValidRun(s, acts)
    ensures Inv(Run(s, acts))
    ensures s.posted <= Run(s, acts).posted && s.executed <= Run(s, acts).executed
    decreases |acts|
  {
    if |acts| > 0 {
      ApplyKeeps(s, acts[0]);
      RunKeeps(Apply(s, acts[0]), acts[1..]);
    }
  }

  // ---------------------------------------------------------------- theorems about every run

  /**
   Posting is FIFO and at most once; the loop never sleeps on posted work unless the poster has yet to ring;
   and when the eventfd is reported, reading it does not block.
   */
  lemma EveryRun<T>(v4: bool, threads: nat, acts: seq<Act<T>>)
    requires ValidRun(Initial<T>(v4, threads), acts)
    ensures var s := Run(Initial<T>(v4, threads), acts);
            && s.executed + s.batch + s.pending == s.posted
            && (s.pc.Polling? && |s.pending| > 0 && !Someone(s) ==> Enabled(s, Wake(true)))
            && (s.pc == Dispatching(true) ==> Enabled(s, ReadAlarm))
  {
    InitialInv<T>(v4, threads);
    RunKeeps(Initial<T>(v4, threads), acts);
  }

  /** Fewer than 2^64 posts ever made: no write to the eventfd can block. */
  lemma RingNeverBlocks<T>(s: Handoff<T>, i: nat)
    requires Inv(s) && |s.posted| <= COUNTER_MAX && i < |s.ringing| && s.ringing[i]
    ensures Enabled(s, Ring(i))
  {
    assert true in multiset(s.ringing) by { assert s.ringing[i] in s.ringing; }
  }

  // ---------------------------------------------------------------- rounds

  datatype Kind = Wakes | Alarms | Dispatches | Swaps | Batches

  predicate Is<T>(a: Act<T>, kind: Kind) {
    match kind
    case Wakes => a.Wake?
    case Alarms => a.ReadAlarm?
    case Dispatches => a.EndDispatch?
    case Swaps => a.Swap?
    case Batches => a.EndBatch?
  }

  function Count<T>(acts: seq<Act<T>>, kind: Kind): nat {
    if |acts| == 0 then 0 else (if Is(acts[0], kind) then 1 else 0) + Count(acts[1..], kind)
  }

  function One(b: bool): nat { if b then 1 else 0 }

  /** What is open of a round of the loop: the round itself, a drain that is due, a batch that is running. */
  function Open(v4: bool, pc: LoopPc): nat { One(if v4 then !pc.Polling? else pc.Dispatching?) }

  lemma {:induction false} RoundsFrom<T>(s: Handoff<T>, acts: seq<Act<T>>)
    requires ValidRun(s, acts)
    ensures var d := Run(s, acts);
            && Count(acts, Wakes) + Open(s.v4, s.pc) == Count(acts, Dispatches) + Open(s.v4, d.pc)
            && Count(acts, if s.v4 then Alarms else Dispatches) + One(s.pc.Draining?) ==
               Count(acts, Swaps) + One(d.pc.Draining?)
            && Count(acts, Swaps) + One(s.pc.Running?) == Count(acts, Batches) + One(d.pc.Running?)
            && d.v4 == s.v4
    decreases |acts|
  {
    if |acts| > 0 {
      RoundsFrom(Apply(s, acts[0]), acts[1..]);
    }
  }

  /**
   The rounds of the two loops, in every run. Whatever epoll_wait reports is dispatched to its end before the loop waits
   again. The first loop drains once after each dispatch; Reactor_v4 once for each alarm, in the middle of a dispatch
   that goes on behind the batch.
   */
  lemma Rounds<T>(v4: bool, threads: nat, acts: seq<Act<T>>)
    requires ValidRun(Initial<T>(v4, threads), acts)
    ensures var s := Run(Initial<T>(v4, threads), acts);
            && Count(acts, Wakes) == Count(acts, Dispatches) + One(if v4 then !s.pc.Polling? else s.pc.Dispatching?)
            && Count(acts, if v4 then Alarms else Dispatches) == Count(acts, Swaps) + One(s.pc.Draining?)
            && Count(acts, Swaps) == Count(acts, Batches) + One(s.pc.Running?)
  {
    RoundsFrom(Initial<T>(v4, threads), acts);
  }

  // ---------------------------------------------------------------- nothing is left behind

  /** Posters that have yet to ring. */
  ghost function Late<T>(s: Handoff<T>): nat { multiset(s.ringing)[true] }

  /** Steps of the loop until it is back in epoll_wait, when nothing is there to be done. */
  ghost function LoopLeft(v4: bool, pc: LoopPc): nat {
    match pc
    case Dispatching(true) => 0
    case Polling => 1
    case Dispatching(false) => if v4 then 2 else 4
    case Running => if v4 then 3 else 2
    case Draining => if v4 then 4 else 3
  }

  /** What is in store: a late ring may raise the alarm, and an alarm sends the loop round once more. */
  ghost function StepsLeft<T>(s: Handoff<T>): nat {
    6 * Late(s) + (if 0 < s.counter then 5 else 0) + |s.pending| + |s.batch| + LoopLeft(s.v4, s.pc)
  }

  /** The steps that no earlier one has to account for: a new task, and a return of epoll_wait without the alarm. */
  ghost predicate Unforced<T>(a: Act<T>) { a.Push? || (a.Wake? && !a.alarm) }

  ghost function CountUnforced<T>(acts: seq<Act<T>>): nat {
    if |acts| == 0 then 0 else (if Unforced(acts[0]) then 1 else 0) + CountUnforced(acts[1..])
  }

  lemma LateAfter<T>(s: Handoff<T>, i: nat, late: bool)
    requires i < |s.ringing| && s.ringing[i] != late
    ensures multiset(s.ringing[i := late])[true] == Late(s) + (if late then 1 else -1)
  {
    assert multiset(s.ringing[i := late]) == multiset(s.ringing) - multiset{!late} + multiset{late};
    assert s.ringing[i] in s.ringing;
  }

  lemma StepsLeftDrops<T>(s: Handoff<T>, a: Act<T>)
    requires Inv(s) && Enabled(s, a)
    ensures StepsLeft(Apply(s, a)) + 1 <= StepsLeft(s) + (if Unforced(a) then 8 else 0)
  {
    match a {
      case Push(i, _) => LateAfter(s, i, true);
      case Ring(i) => LateAfter(s, i, false);
      case _ =>
    }
  }

  lemma {:induction false} RunBounded<T>(s: Handoff<T>, acts: seq<Act<T>>)
    requires Inv(s) && ValidRun(s, acts)
    ensures |acts| + StepsLeft(Run(s, acts)) <= StepsLeft(s) + 8 * CountUnforced(acts)
    decreases |acts|
  {
    if |acts| > 0 {
      StepsLeftDrops(s, acts[0]);
      ApplyKeeps(s, acts[0]);
      RunBounded(Apply(s, acts[0]), acts[1..]);
    }
  }

  /** The step that is due while something is posted: first the late rings, then the loop. */
  lemma DueStep<T>(s: Handoff<T>) returns (a: Act<T>)
    requires Inv(s) && |s.posted| <= COUNTER_MAX && |s.pending| + |s.batch| > 0
    ensures Enabled(s, a) && !Unforced(a)
    ensures if Someone(s) then a.Ring? else !a.Ring?
  {
    if i :| 0 <= i < |s.ringing| && s.ringing[i] {
      RingNeverBlocks(s, i);
      a := Ring(i);
    } else {
      match s.pc {
        case Polling => a := Wake(true);
        case Dispatching(alarm) => a := if alarm then ReadAlarm else EndDispatch;
        case Draining => a := Swap;
        case Running => a := if |s.batch| > 0 then RunOne else EndBatch;
      }
    }
  }

  /**
   From every reachable state and under every scheduling: the number of steps is bounded but for new posts and for
   returns of epoll_wait without the alarm, and as long as a posted task has not been executed, some other step is
   possible. So every run that does not stop short executes all that was posted.
   */
  lemma Drains<T>(s: Handoff<T>, acts: seq<Act<T>>)
    requires Inv(s) && ValidRun(s, acts) && |Run(s, acts).posted| <= COUNTER_MAX
    ensures |acts| <= StepsLeft(s) + 8 * CountUnforced(acts)
    ensures var d := Run(s, acts); d.executed == d.posted || exists a :: Enabled(d, a) && !Unforced(a)
  {
    RunBounded(s, acts);
    RunKeeps(s, acts);
    var d := Run(s, acts);
    if |d.pending| + |d.batch| > 0 {
      var a := DueStep(d);
    }
  }
}
