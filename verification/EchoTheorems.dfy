/** Theorems about whole runs of one connection, from the moment it is created. */
module EchoTheorems {
  import opened Bytes
  import opened ConnectionSpec
  import opened ConnectionTheorems

  // ---------------------------------------------------------------- any user code, any interleaving

  lemma ForwardTransitive(c: Conn, d: Conn, e: Conn)
    requires Inv(c) && Inv(d) && Inv(e) && Forward(c, d) && Forward(d, e)
    ensures Forward(c, e)
  {
  }

  lemma {:induction false} RunKeeps(c: Conn, events: seq<Event>)
    requires Inv(c) && ShutdownCovered(c)
    ensures Inv(Run(c, events)) && ShutdownCovered(Run(c, events)) && Forward(c, Run(c, events))
    decreases |events|
  {
    if events != [] {
      var d := Step(c, events[0]);
      StepKeeps(c, events[0]);
      RunKeeps(d, events[1..]);
      ForwardTransitive(c, d, Run(d, events[1..]));
    }
  }

  /**
   Order survives re-entrancy: in every run, with callbacks that send, shut down or close in the middle
   of a send, the bytes on the wire followed by the queued ones are the accepted payloads in the order
   of their acceptance. The loop always knows whether there is something to write.
   */
  lemma EveryRun(answers: seq<SendAnswer>, script: seq<seq<Action>>, inline: bool, events: seq<Event>)
    ensures var c := Run(Initial(answers, script, inline), events);
            && c.wire + c.output == Concat(c.accepted)
            && (!c.faulted ==> c.accepted == c.offered)
            && c.input == []
            && (c.state.Open() ==> c.epoll == Some(Interest(true, c.output != [])))
            && (c.writeShut && !c.state.Disconnected? ==> c.state.Disconnecting? && c.output == [])
            && (c.state.Disconnecting? && c.output == [] && !c.writeShut ==>
                  ShutdownTask in c.tasks || ForceCloseTask in c.tasks)
  {
    RunKeeps(Initial(answers, script, inline), events);
  }

  /**
   The state only moves forward, a closed connection has no interest left, a stream that left CONNECTED
   is frozen, and nothing is sent after the write side is shut.
   */
  lemma NeverBack(answers: seq<SendAnswer>, script: seq<seq<Action>>, inline: bool, events: seq<Event>, more: seq<Event>)
    ensures var c := Run(Initial(answers, script, inline), events);
            var d := Run(c, more);
            && c.state.Rank() <= d.state.Rank()
            && (c.state.Disconnected? ==> d.interest == NO_INTEREST)
            && c.wire <= d.wire
            && (2 <= c.state.Rank() ==> d.wire + d.output == c.wire + c.output)
            && (c.writeShut ==> d.writeShut && d.wire == c.wire)
  {
    var c0 := Initial(answers, script, inline);
    RunKeeps(c0, events);
    RunKeeps(Run(c0, events), more);
  }

  // ---------------------------------------------------------------- the write-complete callback

  /**
   The write-complete callback is called (its script advances) exactly when nothing of the output remains: by a
   send whose payload the kernel takes whole with nothing queued before it, and by the write that empties the buffer.
   */
  lemma CallbackFires(c: Conn, data: seq<Byte>)
    requires Inv(c) && c.script != []
    ensures |SendInLoop(c, data).script| < |c.script| <==>
            c.state.Connected? && c.output == [] && Answer(c.answers, |data|) == Wrote(|data|)
    ensures |HandleWrite(c).script| < |c.script| <==>
            c.state.Open() && c.output != [] && Answer(c.answers, |c.output|) == Wrote(|c.output|)
  {
    if c.state.Connected? {
      var f, complete := SendLogs(c, data);
    }
    var a := Answer(c.answers, |c.output|);
    if c.interest.write && a.Wrote? && 0 < a.n {
      assert c.output == c.output[..a.n] + c.output[a.n..];
    }
  }

  // ---------------------------------------------------------------- the loop's handler table

  lemma ClosedTask(c: Conn, t: Task)
    requires c.state.Disconnected?
    ensures RunTask(c, t).state.Disconnected? && RunTask(c, t).epoll == c.epoll
  {
  }

  lemma ClosedEvents(c: Conn, ready: Ready, answer: ReadResult)
    requires c.state.Disconnected? && c.interest == NO_INTEREST
    ensures var d := HandleEvents(c, ready, answer); d.state.Disconnected? && d.epoll == c.epoll
  {
    var c1 := if ready.err then HandleError(c) else c;
    assert c1 == c;
    var c2 := HandleRead(c, answer);
    assert c2.state.Disconnected? && c2.epoll == c.epoll && c2.interest == NO_INTEREST;
  }

  lemma ClosedStep(c: Conn, ev: Event)
    requires Inv(c) && c.state.Disconnected?
    ensures Step(c, ev).state.Disconnected? && Step(c, ev).epoll == c.epoll
  {
    match ev {
      case Polled(ready, answer) => ClosedEvents(c, ready, answer);
      case LoopAction(a) => assert Perform(c, a) == c;
      case RunPosted => if c.tasks != [] { ClosedTask(c.(tasks := c.tasks[1..]), c.tasks[0]); }
      case _ =>
    }
  }

  /** The events that call `destroyConnection` on a CONNECTED connection. */
  predicate RunsDestroy(c: Conn, ev: Event) {
    c.state.Connected? &&
    match ev
    case RunPosted => c.tasks != [] && c.tasks[0].DestroyTask?
    case Polled(ready, answer) =>
      c.inlineRemoval && !(ready.hup && !ready.readable) &&
      (ready.err || ((ready.readable || ready.urgent) && answer.Failed?))
    case _ => false
  }

  /** The read and write parts of a dispatch leave the table alone, except for a failed read with one loop. */
  lemma ReadUnregisters(c: Conn, answer: ReadResult)
    requires Inv(c) && c.epoll.Some?
    ensures HandleRead(c, answer).epoll.None? <==> c.inlineRemoval && c.state.Connected? && answer.Failed?
  {
    if answer.Got? && answer.bytes != [] {
      var e := c.(received := c.received + answer.bytes);
      assert c.input + answer.bytes == answer.bytes;
      assert HandleRead(c, answer) == SendInLoop(e, answer.bytes);
      SendKeeps(e, answer.bytes);
    }
  }

  lemma WriteKeepsTable(c: Conn)
    requires Inv(c)
    ensures HandleWrite(c).epoll.None? <==> c.epoll.None?
  {
    var a := Answer(c.answers, |c.output|);
    if c.interest.write && a.Wrote? && 0 < a.n && a.n == |c.output| {
      var e := c.(answers := Rest(c.answers), wire := c.wire + c.output[..a.n], output := []);
      var f := e.(interest := Interest(true, false), epoll := Some(Interest(true, false)));
      assert c.output[a.n..] == [] && c.output[..a.n] == c.output;
      assert HandleWrite(c) == Finish(f);
      WriteCompleteKeeps(f);
    }
  }

  lemma DispatchUnregisters(c: Conn, ready: Ready, answer: ReadResult)
    requires Inv(c) && c.epoll.Some?
    ensures HandleEvents(c, ready, answer).epoll.None? <==> RunsDestroy(c, Polled(ready, answer))
  {
    if !(ready.hup && !ready.readable) {
      var c1 := if ready.err then HandleError(c) else c;
      var c2 := if ready.readable || ready.urgent then HandleRead(c1, answer) else c1;
      ErrorPartKeeps(c, ready.err);
      ReadPartKeeps(c1, ready.readable || ready.urgent, answer);
      WriteKeepsTable(c2);
      if c1.epoll.Some? {
        ReadUnregisters(c1, answer);
      } else {
        assert c1.state.Disconnected? && c2.epoll.None?;
      }
    }
  }

  /**
   The handler leaves the loop's table in exactly one way: an event that calls `destroyConnection` while the
   connection is CONNECTED.
   */
  lemma HandlerLeavesTable(c: Conn, ev: Event)
    requires Inv(c) && c.epoll.Some?
    ensures Step(c, ev).epoll.None? <==> RunsDestroy(c, ev)
  {
    match ev {
      case Polled(ready, answer) => DispatchUnregisters(c, ready, answer);
      case LoopAction(a) => PerformKeeps(c, a);
      case RunPosted =>
        if c.tasks != [] && c.tasks[0].SendTask? {
          SendKeeps(c.(tasks := c.tasks[1..]), c.tasks[0].data);
        }
      case _ =>
    }
  }

  /** So one that closed in any other way stays registered, whatever happens next. */
  lemma {:induction false} ClosedStaysRegistered(c: Conn, events: seq<Event>)
    requires Inv(c) && c.state.Disconnected?
    ensures Run(c, events).epoll == c.epoll && Run(c, events).state.Disconnected?
    decreases |events|
  {
    if events != [] {
      StepKeeps(c, events[0]);
      ClosedStep(c, events[0]);
      ClosedStaysRegistered(Step(c, events[0]), events[1..]);
    }
  }

  // ---------------------------------------------------------------- half close

  /**
   A shutdown requested while data was pending is performed by the very `handleWrite` that drains it,
   unless the write-complete callback force-closes the connection instead.
   */
  lemma DrainShutsWrite(c: Conn)
    requires Inv(c) && c.state.Disconnecting? && c.output != []
    requires c.answers != [] && c.answers[0].Wrote? && |c.output| <= c.answers[0].n
    ensures HandleWrite(c).output == [] && HandleWrite(c).wire == c.wire + c.output
    ensures HandleWrite(c).writeShut <==> !(c.script != [] && ForceClose in c.script[0])
  {
    var f := c.(answers := c.answers[1..], wire := c.wire + c.output, output := [],
                interest := Interest(true, false), epoll := Some(Interest(true, false)));
    assert c.output[..|c.output|] == c.output && c.output[|c.output|..] == [];
    assert HandleWrite(c) == Finish(f);
    if f.script != [] {
      ClosingCallback(f.(script := f.script[1..]), f.script[0]);
    }
  }

  lemma ClosingAction(c: Conn, a: Action)
    requires 2 <= c.state.Rank()
    ensures Perform(c, a) == if c.state.Disconnecting? && a.ForceClose? then HandleClose(c) else c
  {
  }

  /** In DISCONNECTING a callback can do nothing but force the close. */
  lemma {:induction false} ClosingCallback(c: Conn, actions: seq<Action>)
    requires 2 <= c.state.Rank()
    ensures RunActions(c, actions) == if c.state.Disconnecting? && ForceClose in actions then HandleClose(c) else c
    decreases |actions|
  {
    if actions != [] {
      ClosingAction(c, actions[0]);
      ClosingCallback(Perform(c, actions[0]), actions[1..]);
      assert actions == [actions[0]] + actions[1..];
    }
  }

  lemma ClosedShutsNothing(c: Conn, ready: Ready, answer: ReadResult)
    requires c.state.Disconnected? && c.interest == NO_INTEREST
    ensures HandleEvents(c, ready, answer).writeShut == c.writeShut
  {
    var c1 := if ready.err then HandleError(c) else c;
    assert c1 == c;
    var c2 := HandleRead(c, answer);
    assert c2.writeShut == c.writeShut && c2.interest == NO_INTEREST;
  }

  /**
   The write side is shut over queued bytes in exactly one way: a shutdown another thread has posted is run after
   the connection was closed. (`shutdownInLoop` looks at the interest, which closing has cleared.)
   */
  lemma ShutOverQueued(c: Conn, ev: Event)
    requires Inv(c)
    ensures !c.writeShut && Step(c, ev).writeShut && Step(c, ev).output != [] <==>
            && !c.writeShut && c.output != [] && c.state.Disconnected?
            && ev.RunPosted? && c.tasks != [] && c.tasks[0].ShutdownTask?
  {
    StepKeeps(c, ev);
    if c.state.Disconnected? {
      match ev {
        case Polled(ready, answer) => ClosedShutsNothing(c, ready, answer);
        case LoopAction(a) => assert Perform(c, a) == c;
        case RunPosted => if c.tasks != [] { assert RunTask(c.(tasks := c.tasks[1..]), c.tasks[0]).output == c.output; }
        case _ =>
      }
    }
  }

  lemma Cons(c: Conn, ev: Event, rest: seq<Event>) returns (events: seq<Event>)
    ensures events == [ev] + rest && Run(c, events) == Run(Step(c, ev), rest)
  {
    events := [ev] + rest;
    assert events[1..] == rest;
  }

  /** Shutdown on another thread, forced close, and then the posted task, with `data` in the output buffer. */
  lemma ClosedBeforeShutdown(c: Conn, data: seq<Byte>) returns (events: seq<Event>)
    requires c.state.Connected? && c.output == data && c.wire == [] && c.tasks == []
    ensures Run(c, events).writeShut && Run(c, events).output == data && Run(c, events).wire == []
  {
    var c3 := Step(c, ForeignAction(Shutdown));
    var c4 := Step(c3, LoopAction(ForceClose));
    assert c4 == c.(state := Disconnected, interest := NO_INTEREST, tasks := [ShutdownTask]);
    events := Cons(c4, RunPosted, []);
    events := Cons(c3, LoopAction(ForceClose), events);
    events := Cons(c, ForeignAction(Shutdown), events);
  }

  /** It happens: a payload not taken, a shutdown from another thread, a forced close, and then the posted task. */
  lemma ShutOverQueuedHappens(data: seq<Byte>, inline: bool) returns (events: seq<Event>)
    requires data != []
    ensures var c := Run(Initial([], [], inline), events); c.writeShut && c.output == data && c.wire == []
  {
    var c1 := Step(Initial([], [], inline), Established);
    var c2 := Step(c1, LoopAction(Send(data)));
    assert c2.output == data && c2.wire == [] && c2.state.Connected? && c2.tasks == [];
    events := ClosedBeforeShutdown(c2, data);
    events := Cons(c1, LoopAction(Send(data)), events);
    events := Cons(Initial([], [], inline), Established, events);
  }

  // ---------------------------------------------------------------- sends from another thread

  function Payloads(tasks: seq<Task>): seq<seq<Byte>> {
    if tasks == [] then []
    else (if tasks[0].SendTask? then [tasks[0].data] else []) + Payloads(tasks[1..])
  }

  lemma {:induction false} PayloadsSnoc(tasks: seq<Task>, data: seq<Byte>)
    ensures Payloads(tasks + [SendTask(data)]) == Payloads(tasks) + [data]
  {
    if tasks == [] {
      assert [SendTask(data)][1..] == [];
    } else {
      PayloadsSnoc(tasks[1..], data);
      assert (tasks + [SendTask(data)])[1..] == tasks[1..] + [SendTask(data)];
    }
  }

  lemma EnqueueQueues(c: Conn, rest: seq<Byte>)
    ensures var d := Enqueue(c, rest); d == c.(output := d.output, interest := d.interest, epoll := d.epoll)
  {
  }

  /**
   A send logs its payload, and then either calls the write-complete callback or touches nothing but the
   output buffer and the interest in writing.
   */
  lemma SendLogs(c: Conn, data: seq<Byte>) returns (f: Conn, complete: bool)
    requires c.state.Connected?
    ensures f == c.(offered := c.offered + [data], answers := f.answers, accepted := f.accepted, wire := f.wire,
                    faulted := f.faulted)
    ensures f.answers == if c.output == [] then Rest(c.answers) else c.answers
    ensures (f.accepted == c.accepted && f.faulted) || (f.accepted == c.accepted + [data] && f.faulted == c.faulted)
    ensures complete ==> c.output == [] && f.wire == c.wire + data && f.accepted == c.accepted + [data]
    ensures var d := SendInLoop(c, data);
            d == if complete then WriteComplete(f) else f.(output := d.output, interest := d.interest, epoll := d.epoll)
  {
    var c1 := c.(offered := c.offered + [data]);
    complete := false;
    if c.output != [] {
      f := c1.(accepted := c.accepted + [data]);
      EnqueueQueues(f, data);
    } else {
      match Answer(c.answers, |data|) {
        case Wrote(n) =>
          f, complete := Took(c1, data, n), n == |data|;
          if complete {
            assert data[..n] == data;
          } else {
            EnqueueQueues(f, data[n..]);
          }
        case Broken =>
          f := c1.(answers := Rest(c.answers), faulted := true);
        case _ =>
          f := Took(c1, data, 0);
          EnqueueQueues(f, data);
      }
    }
  }

  predicate Subsequence<T(==)>(a: seq<T>, b: seq<T>) {
    a == [] ||
    (b != [] &&
     (Subsequence(a, b[..|b| - 1]) || (a[|a| - 1] == b[|b| - 1] && Subsequence(a[..|a| - 1], b[..|b| - 1]))))
  }

  lemma {:induction false} SubsequenceExtends<T>(a: seq<T>, b: seq<T>, more: seq<T>)
    requires Subsequence(a, b)
    ensures Subsequence(a, b + more)
    decreases |more|
  {
    if more == [] {
      assert b + more == b;
    } else {
      SubsequenceExtends(a, b, more[..|more| - 1]);
      assert (b + more)[..|b + more| - 1] == b + more[..|more| - 1];
    }
  }

  lemma SubsequencePrefix<T>(a: seq<T>, b: seq<T>, longer: seq<T>)
    requires Subsequence(a, b) && b <= longer
    ensures Subsequence(a, longer)
  {
    SubsequenceExtends(a, b, longer[|b|..]);
    assert b + longer[|b|..] == longer;
  }

  lemma SubsequenceSnoc<T>(a: seq<T>, b: seq<T>, x: T)
    requires Subsequence(a, b)
    ensures Subsequence(a + [x], b + [x])
  {
    assert (a + [x])[..|a + [x]| - 1] == a && (b + [x])[..|b + [x]| - 1] == b;
  }

  /** What `send` on another thread takes on: it posts the payload if it finds the connection CONNECTED. */
  function PostedAt(c: Conn, ev: Event): seq<seq<Byte>> {
    if c.state.Connected? && ev.ForeignAction? && ev.action.Send? then [ev.action.data] else []
  }

  function Posted(c: Conn, events: seq<Event>): seq<seq<Byte>>
    decreases |events|
  {
    if events == [] then [] else PostedAt(c, events[0]) + Posted(Step(c, events[0]), events[1..])
  }

  /** The payload whose task this event runs. */
  function RanAt(c: Conn, ev: Event): seq<seq<Byte>> {
    if ev.RunPosted? && c.tasks != [] && c.tasks[0].SendTask? then [c.tasks[0].data] else []
  }

  lemma {:induction false} PayloadsOfOther(tasks: seq<Task>, t: Task)
    requires !t.SendTask?
    ensures Payloads(tasks + [t]) == Payloads(tasks)
  {
    if tasks == [] {
      assert [t][1..] == [];
    } else {
      PayloadsOfOther(tasks[1..], t);
      assert (tasks + [t])[1..] == tasks[1..] + [t];
    }
  }

  lemma ForeignOrder(c: Conn, a: Action)
    ensures Payloads(c.tasks) + PostedAt(c, ForeignAction(a)) == Payloads(Foreign(c, a).tasks)
  {
    match a {
      case Send(data) => PayloadsSnoc(c.tasks, data);
      case Shutdown => PayloadsOfOther(c.tasks, ShutdownTask);
      case ForceClose => PayloadsOfOther(c.tasks, ForceCloseTask);
    }
  }

  lemma RunPostedOrder(c: Conn)
    requires Inv(c)
    ensures Payloads(c.tasks) == RanAt(c, RunPosted) + Payloads(Step(c, RunPosted).tasks)
  {
    if c.tasks != [] {
      assert c.tasks[0] in c.tasks;
      PostedKeeps(c.(tasks := c.tasks[1..]), c.tasks[0]);
    }
  }

  /** Any step leaves the posted payloads in order: it appends one, runs the first, or does neither. */
  lemma StepOrder(c: Conn, ev: Event)
    requires Inv(c)
    ensures Payloads(c.tasks) + PostedAt(c, ev) == RanAt(c, ev) + Payloads(Step(c, ev).tasks)
  {
    match ev {
      case Polled(ready, answer) => if c.epoll.Some? { EventsKeep(c, ready, answer); }
      case LoopAction(a) => PerformKeeps(c, a);
      case ForeignAction(a) => ForeignOrder(c, a);
      case PostDestroy => PayloadsOfOther(c.tasks, DestroyTask);
      case RunPosted => RunPostedOrder(c);
      case Established =>
    }
  }

  /** While CONNECTED, a posted payload that is run reaches `sendInLoop` behind all that was offered before. */
  lemma StepOffers(c: Conn, ev: Event)
    requires Inv(c)
    ensures c.offered <= Step(c, ev).offered
    ensures c.state.Connected? ==> c.offered + RanAt(c, ev) <= Step(c, ev).offered
  {
    StepKeeps(c, ev);
    if RanAt(c, ev) != [] {
      SendKeeps(c.(tasks := c.tasks[1..]), c.tasks[0].data);
    }
  }

  function ReachedAt(c: Conn, ev: Event): seq<seq<Byte>> {
    if c.state.Connected? then RanAt(c, ev) else []
  }

  /** The posted payloads that were run while the connection was CONNECTED, in the order of their running. */
  function Reached(c: Conn, events: seq<Event>): seq<seq<Byte>>
    decreases |events|
  {
    if events == [] then []
    else ReachedAt(c, events[0]) + Reached(Step(c, events[0]), events[1..])
  }

  /** Those that came to a connection no longer CONNECTED. */
  function Dropped(c: Conn, events: seq<Event>): seq<seq<Byte>>
    decreases |events|
  {
    if events == [] then []
    else (if c.state.Connected? then [] else RanAt(c, events[0])) + Dropped(Step(c, events[0]), events[1..])
  }

  /** Nothing has been posted to a connection that is not yet established. */
  ghost predicate NoneEarly(c: Conn) { c.state.Connecting? ==> Payloads(c.tasks) == [] }

  lemma NextRan<T>(waiting: seq<T>, added: seq<T>, ran: seq<T>, waiting': seq<T>, later: seq<T>, gone: seq<T>,
                   left: seq<T>)
    requires waiting + added == ran + waiting' && waiting' + later == gone + left
    ensures waiting + (added + later) == ran + gone + left
  {
    assert waiting + (added + later) == waiting + added + later == ran + (waiting' + later);
    assert ran + gone + left == ran + (gone + left);
  }

  /** From a closed connection on, every payload that is run is dropped. */
  lemma {:induction false} ClosedDropsAll(c: Conn, events: seq<Event>)
    requires Inv(c) && 2 <= c.state.Rank()
    ensures Reached(c, events) == []
    ensures Payloads(c.tasks) + Posted(c, events) == Dropped(c, events) + Payloads(Run(c, events).tasks)
    decreases |events|
  {
    if events != [] {
      var d := Step(c, events[0]);
      StepKeeps(c, events[0]);
      StepOrder(c, events[0]);
      ClosedDropsAll(d, events[1..]);
      NextRan(Payloads(c.tasks), PostedAt(c, events[0]), RanAt(c, events[0]), Payloads(d.tasks), Posted(d, events[1..]),
              Dropped(d, events[1..]), Payloads(Run(d, events[1..]).tasks));
    }
  }

  lemma {:induction false} AllInOrder(c: Conn, events: seq<Event>)
    requires Inv(c) && NoneEarly(c)
    ensures var d := Run(c, events);
            && Payloads(c.tasks) + Posted(c, events) == Reached(c, events) + Dropped(c, events) + Payloads(d.tasks)
            && (d.state.Rank() <= 1 ==> Dropped(c, events) == [])
    decreases |events|
  {
    if 2 <= c.state.Rank() {
      ClosedDropsAll(c, events);
      RunForward(c, events);
      assert [] + Dropped(c, events) == Dropped(c, events);
    } else if events != [] {
      var d, later := Step(c, events[0]), events[1..];
      StepKeeps(c, events[0]);
      StepOrder(c, events[0]);
      AllInOrder(d, later);
      assert c.state.Connecting? ==> RanAt(c, events[0]) == [];
      assert [] + Dropped(d, later) == Dropped(d, later);
      NextRan(Payloads(c.tasks), PostedAt(c, events[0]), RanAt(c, events[0]), Payloads(d.tasks), Posted(d, later),
              Reached(d, later) + Dropped(d, later), Payloads(Run(d, later).tasks));
      Associate(RanAt(c, events[0]), Reached(d, later), Dropped(d, later));
    }
  }

  lemma {:induction false} RunForward(c: Conn, events: seq<Event>)
    requires Inv(c)
    ensures Inv(Run(c, events)) && Forward(c, Run(c, events))
    decreases |events|
  {
    if events != [] {
      var d := Step(c, events[0]);
      StepKeeps(c, events[0]);
      RunForward(d, events[1..]);
      ForwardTransitive(c, d, Run(d, events[1..]));
    }
  }

  /** One step of a subsequence: at most one element more, which the longer sequence has too. */
  lemma StillWithin<T>(before: seq<T>, old': seq<T>, added: seq<T>, new': seq<T>)
    requires Subsequence(before, old') && old' + added <= new' && |added| <= 1
    ensures Subsequence(before + added, new')
  {
    if added == [] {
      assert before + added == before && old' + added == old';
      SubsequencePrefix(before, old', new');
    } else {
      SubsequenceSnoc(before, old', added[0]);
      SubsequencePrefix(before + added, old' + added, new');
    }
  }

  /** What is run while CONNECTED ends up in `offered`, in the same order, behind what was there before. */
  lemma {:induction false} ReachedAreOffered(c: Conn, events: seq<Event>, before: seq<seq<Byte>>)
    requires Inv(c) && Subsequence(before, c.offered)
    ensures Subsequence(before + Reached(c, events), Run(c, events).offered)
    decreases |events|
  {
    if events == [] {
      assert before + [] == before;
    } else {
      var d := Step(c, events[0]);
      var ran, later := ReachedAt(c, events[0]), events[1..];
      StepKeeps(c, events[0]);
      StepOffers(c, events[0]);
      assert c.offered + ran <= d.offered;
      StillWithin(before, c.offered, ran, d.offered);
      ReachedAreOffered(d, later, before + ran);
      Associate(before, ran, Reached(d, later));
    }
  }

  /**
   Sends from other threads reach `sendInLoop` in call order and at most once, whatever else happens in between:
   those posted are, in this order, the ones that reached it while CONNECTED, the ones that came to a connection
   no longer CONNECTED, and the ones that still wait.
   */
  lemma ForeignSendsInOrder(answers: seq<SendAnswer>, script: seq<seq<Action>>, inline: bool, events: seq<Event>)
    ensures var c0 := Initial(answers, script, inline);
            var c := Run(c0, events);
            && Posted(c0, events) == Reached(c0, events) + Dropped(c0, events) + Payloads(c.tasks)
            && Subsequence(Reached(c0, events), c.offered)
            && (c.state.Connected? ==> Dropped(c0, events) == [])
  {
    var c0 := Initial(answers, script, inline);
    AllInOrder(c0, events);
    assert [] + Posted(c0, events) == Posted(c0, events);
    ReachedAreOffered(c0, events, []);
    assert [] + Reached(c0, events) == Reached(c0, events);
  }

  // ---------------------------------------------------------------- the echo server

  predicate NoSends(actions: seq<Action>) { forall a :: a in actions ==> !a.Send? }

  /** Nobody but the message callback sends. */
  ghost predicate Quiet(c: Conn) { QuietScript(c) && QuietTasks(c) }

  ghost predicate QuietScript(c: Conn) { forall k :: 0 <= k < |c.script| ==> NoSends(c.script[k]) }

  ghost predicate QuietTasks(c: Conn) { forall t :: t in c.tasks ==> !t.SendTask? }

  predicate QuietEvent(ev: Event) {
    match ev
    case LoopAction(a) => !a.Send?
    case ForeignAction(a) => !a.Send?
    case _ => true
  }

  ghost predicate Echoed(c: Conn) {
    && Quiet(c)
    && Concat(c.offered) <= c.received
    && (c.state.Rank() <= 1 ==> Concat(c.offered) == c.received)
    && |Concat(c.accepted)| + (if c.faulted then 1 else 0) <= |Concat(c.offered)|
  }

  /** What a quiet callback leaves alone. */
  ghost predicate SameStream(c: Conn, d: Conn) {
    && d.offered == c.offered && d.accepted == c.accepted && d.received == c.received
    && d.faulted == c.faulted && c.state.Rank() <= d.state.Rank()
    && (QuietScript(c) ==> QuietScript(d)) && (QuietTasks(c) ==> QuietTasks(d))
  }

  lemma {:induction false} QuietActions(c: Conn, actions: seq<Action>)
    requires NoSends(actions)
    ensures SameStream(c, RunActions(c, actions))
    decreases |actions|
  {
    if actions != [] {
      assert actions[0] in actions;
      var d := Perform(c, actions[0]);
      assert NoSends(actions[1..]);
      QuietActions(d, actions[1..]);
    }
  }

  lemma QuietComplete(c: Conn)
    requires QuietScript(c)
    ensures SameStream(c, WriteComplete(c))
  {
    if c.script != [] {
      QuietActions(c.(script := c.script[1..]), c.script[0]);
    }
  }

  /** What sending one payload on a quiet connection does to the logs. */
  lemma SendEchoes(c: Conn, data: seq<Byte>)
    requires QuietScript(c) && c.state.Connected?
    ensures var d := SendInLoop(c, data);
            && QuietScript(d) && (QuietTasks(c) ==> QuietTasks(d))
            && d.offered == c.offered + [data] && d.received == c.received
            && 1 <= d.state.Rank()
            && ((d.accepted == c.accepted && d.faulted) || (d.accepted == c.accepted + [data] && d.faulted == c.faulted))
  {
    var f, complete := SendLogs(c, data);
    if complete {
      QuietComplete(f);
    }
  }

  lemma ReadEchoes(c: Conn, r: ReadResult)
    requires Inv(c) && Echoed(c) && !c.state.Connecting?
    ensures Echoed(HandleRead(c, r))
  {
    if r.Got? && r.bytes != [] {
      assert c.input + r.bytes == r.bytes;
      var e := c.(received := c.received + r.bytes);
      assert HandleRead(c, r) == SendInLoop(e, r.bytes);
      if c.state.Connected? {
        SendEchoes(e, r.bytes);
        ConcatSnoc(c.offered, r.bytes);
        ConcatSnoc(c.accepted, r.bytes);
      }
    }
  }

  lemma WriteEchoes(c: Conn)
    requires Inv(c) && QuietScript(c)
    ensures SameStream(c, HandleWrite(c))
  {
    var a := Answer(c.answers, |c.output|);
    if c.interest.write && a.Wrote? && 0 < a.n {
      var e := c.(answers := Rest(c.answers), wire := c.wire + c.output[..a.n], output := c.output[a.n..]);
      if e.output == [] {
        var f := e.(interest := Interest(true, false), epoll := Some(Interest(true, false)));
        assert HandleWrite(c) == Finish(f);
        QuietComplete(f);
      }
    }
  }

  lemma EventsEcho(c: Conn, ready: Ready, answer: ReadResult)
    requires Inv(c) && Echoed(c) && !c.state.Connecting?
    ensures Echoed(HandleEvents(c, ready, answer))
  {
    if !(ready.hup && !ready.readable) {
      var c1 := if ready.err then HandleError(c) else c;
      var c2 := if ready.readable || ready.urgent then HandleRead(c1, answer) else c1;
      ErrorKeeps(c);
      if ready.readable || ready.urgent {
        ReadKeeps(c1, answer);
        ReadEchoes(c1, answer);
      }
      if ready.writable {
        WriteEchoes(c2);
      }
    }
  }

  lemma SameStreamEchoes(c: Conn, d: Conn)
    requires Echoed(c) && SameStream(c, d)
    ensures Echoed(d)
  {
  }

  lemma PostedQuiet(c: Conn, t: Task)
    requires !t.SendTask?
    ensures SameStream(c, RunTask(c, t)) && SameStream(c, Post(c, t))
  {
  }

  lemma ActionQuiet(c: Conn, a: Action)
    requires !a.Send?
    ensures SameStream(c, Perform(c, a)) && SameStream(c, Foreign(c, a))
  {
  }

  lemma StepEchoes(c: Conn, ev: Event)
    requires Inv(c) && Echoed(c) && QuietEvent(ev)
    ensures Echoed(Step(c, ev))
  {
    match ev {
      case Established =>
      case Polled(ready, answer) => if c.epoll.Some? { EventsEcho(c, ready, answer); }
      case LoopAction(a) => ActionQuiet(c, a); SameStreamEchoes(c, Step(c, ev));
      case ForeignAction(a) => ActionQuiet(c, a); SameStreamEchoes(c, Step(c, ev));
      case PostDestroy => PostedQuiet(c, DestroyTask); SameStreamEchoes(c, Step(c, ev));
      case RunPosted =>
        if c.tasks != [] {
          assert c.tasks[0] in c.tasks;
          var d := c.(tasks := c.tasks[1..]);
          PostedQuiet(d, c.tasks[0]);
          SameStreamEchoes(d, Step(c, ev));
        }
    }
  }

  lemma {:induction false} RunEchoes(c: Conn, events: seq<Event>)
    requires Inv(c) && Echoed(c) && forall ev :: ev in events ==> QuietEvent(ev)
    ensures Echoed(Run(c, events)) && Inv(Run(c, events))
    decreases |events|
  {
    if events != [] {
      assert events[0] in events;
      StepKeeps(c, events[0]);
      StepEchoes(c, events[0]);
      RunEchoes(Step(c, events[0]), events[1..]);
    }
  }

  /**
   End to end. However the peer's bytes are cut into reads and however the kernel cuts the writes, what
   goes out is what came in: exactly, up to the output buffer, for as long as the connection is CONNECTED,
   if and only if no direct send met a broken pipe; and never anything but a prefix of it afterwards. In
   particular this is so whenever the kernel has no such answer in store.
   */
  lemma EchoEndToEnd(answers: seq<SendAnswer>, script: seq<seq<Action>>, inline: bool, events: seq<Event>)
    requires forall k :: 0 <= k < |script| ==> NoSends(script[k])
    requires forall ev :: ev in events ==> QuietEvent(ev)
    ensures var c := Run(Initial(answers, script, inline), events);
            && (c.state.Connected? ==> (c.wire + c.output == c.received <==> !c.faulted))
            && (!c.faulted ==> c.wire + c.output <= c.received)
            && (Sound(answers) ==> !c.faulted)
            && c.input == []
  {
    RunKeeps(Initial(answers, script, inline), events);
    RunEchoes(Initial(answers, script, inline), events);
  }

  /** A broken pipe drops its payload and closes nothing, so a later payload follows the hole. */
  lemma BrokenPipeLeavesHole(c: Conn, lost: seq<Byte>, later: seq<Byte>)
    requires c.state.Connected? && c.output == [] && c.script == []
    requires c.answers == [Broken, Wrote(|later|)]
    ensures var d := SendInLoop(SendInLoop(c, lost), later);
            && d.state.Connected? && d.output == []
            && d.offered == c.offered + [lost] + [later]
            && d.wire == c.wire + later
  {
    assert later[..|later|] == later;
  }
}
