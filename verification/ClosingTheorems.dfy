/** Where a connection goes: the next state of every event, what shutdowns and forced closes achieve, what callbacks do. */
module ClosingTheorems {
  import opened Bytes
  import opened ConnectionSpec
  import opened ConnectionTheorems
  import opened EchoTheorems
  import opened StreamTheorems

  // ---------------------------------------------------------------- callbacks that have run

  /** Write-complete callbacks are called in the order of the script. */
  ghost predicate Later(c: Conn, d: Conn) { Suffix(d.script, c.script) && d.inlineRemoval == c.inlineRemoval }

  predicate Suffix<T(==)>(rest: seq<T>, all: seq<T>) { |rest| <= |all| && rest == all[|all| - |rest|..] }

  /** A callback was called that performs this action: one at the front of `all` that is no longer in `rest`. */
  ghost predicate Called(all: seq<seq<Action>>, rest: seq<seq<Action>>, a: Action) {
    exists k :: 0 <= k < |all| - |rest| && a in all[k]
  }

  lemma CalledTransitive(all: seq<seq<Action>>, some: seq<seq<Action>>, rest: seq<seq<Action>>, a: Action)
    requires Suffix(some, all) && Suffix(rest, some)
    ensures Suffix(rest, all) && (Called(all, rest, a) <==> Called(all, some, a) || Called(some, rest, a))
  {
    var n := |all| - |some|;
    assert forall k :: 0 <= k < |some| ==> some[k] == all[n + k];
    if Called(some, rest, a) {
      var k :| 0 <= k < |some| - |rest| && a in some[k];
      assert a in all[n + k];
    }
    if Called(all, rest, a) {
      var k :| 0 <= k < |all| - |rest| && a in all[k];
      assert k >= n ==> some[k - n] == all[k];
    }
  }

  lemma CalledFirst(all: seq<seq<Action>>, a: Action)
    requires all != []
    ensures Suffix(all[1..], all) && (Called(all, all[1..], a) <==> a in all[0])
  {
  }

  // ---------------------------------------------------------------- the next state

  /** An established connection moves on when it is closed, and when its closing is requested. */
  function After(state: State, closed: bool, requested: bool): State {
    if state.Disconnected? || closed then Disconnected
    else if state.Disconnecting? || requested then Disconnecting
    else state
  }

  /** From `c` to `d` the state moved as these causes and the callbacks called in between say. */
  ghost predicate Moves(c: Conn, d: Conn, closed: bool, requested: bool) {
    && Later(c, d)
    && d.state == After(c.state, closed || Called(c.script, d.script, ForceClose),
                        requested || Called(c.script, d.script, Shutdown))
  }

  lemma MovesAlone(c: Conn, d: Conn, closed: bool, requested: bool)
    requires d.script == c.script && d.inlineRemoval == c.inlineRemoval && d.state == After(c.state, closed, requested)
    ensures Moves(c, d, closed, requested)
  {
    assert c.script[0..] == c.script;
  }

  lemma MovesTransitive(c: Conn, d: Conn, e: Conn, c1: bool, r1: bool, c2: bool, r2: bool)
    requires Moves(c, d, c1, r1) && Moves(d, e, c2, r2)
    ensures Moves(c, e, c1 || c2, r1 || r2)
  {
    CalledTransitive(c.script, d.script, e.script, ForceClose);
    CalledTransitive(c.script, d.script, e.script, Shutdown);
  }

  lemma SendState(c: Conn, data: seq<Byte>)
    requires !c.state.Connecting?
    ensures Moves(c, SendInLoop(c, data), false, false)
    decreases |c.script|, 1
  {
    if c.state.Connected? {
      var f, complete := SendLogs(c, data);
      if complete {
        CompleteState(f);
      }
    }
  }

  lemma CompleteState(c: Conn)
    requires !c.state.Connecting?
    ensures Moves(c, WriteComplete(c), false, false)
    decreases |c.script|, 0
  {
    if c.script != [] {
      var e := c.(script := c.script[1..]);
      var d := RunActions(e, c.script[0]);
      ActionsState(e, c.script[0]);
      CalledFirst(c.script, ForceClose);
      CalledFirst(c.script, Shutdown);
      CalledTransitive(c.script, e.script, d.script, ForceClose);
      CalledTransitive(c.script, e.script, d.script, Shutdown);
    }
  }

  lemma PerformState(c: Conn, a: Action)
    requires !c.state.Connecting?
    ensures Moves(c, Perform(c, a), a.ForceClose?, a.Shutdown?)
    decreases |c.script|, 2
  {
    match a {
      case Send(data) => SendState(c, data);
      case Shutdown => MovesAlone(c, ShutdownNow(c), false, true);
      case ForceClose => MovesAlone(c, ForceCloseInLoop(c), true, false);
    }
  }

  lemma {:induction false} ActionsState(c: Conn, actions: seq<Action>)
    requires !c.state.Connecting?
    ensures Moves(c, RunActions(c, actions), ForceClose in actions, Shutdown in actions)
    decreases |c.script|, 3 + |actions|
  {
    if actions != [] {
      var e := Perform(c, actions[0]);
      PerformState(c, actions[0]);
      ActionsState(e, actions[1..]);
      MovesTransitive(c, e, RunActions(e, actions[1..]), actions[0].ForceClose?, actions[0].Shutdown?,
                      ForceClose in actions[1..], Shutdown in actions[1..]);
      assert actions == [actions[0]] + actions[1..];
    }
  }

  /** What closes the connection within a read. */
  predicate ReadCloses(c: Conn, answer: ReadResult) {
    answer == Got([]) || (answer.Failed? && c.inlineRemoval && c.state.Connected?)
  }

  /** The events that close an established connection by themselves. */
  predicate Closes(c: Conn, ev: Event) {
    match ev
    case Polled(ready, answer) =>
      || (ready.hup && !ready.readable)
      || (ready.err && c.inlineRemoval && c.state.Connected?)
      || ((ready.readable || ready.urgent) && ReadCloses(c, answer))
    case LoopAction(a) => a.ForceClose?
    case RunPosted => c.tasks != [] && (c.tasks[0].ForceCloseTask? || (c.tasks[0].DestroyTask? && c.state.Connected?))
    case _ => false
  }

  /** The events that request its closing. */
  predicate Requests(ev: Event) {
    match ev
    case LoopAction(a) => a.Shutdown?
    case ForeignAction(a) => a.Shutdown? || a.ForceClose?
    case _ => false
  }

  lemma ReadState(c: Conn, answer: ReadResult)
    requires !c.state.Connecting?
    ensures Moves(c, HandleRead(c, answer), ReadCloses(c, answer), false)
  {
    if answer.Got? && answer.bytes != [] {
      var e := c.(received := c.received + answer.bytes, input := []);
      SendState(e, c.input + answer.bytes);
    }
  }

  lemma WriteState(c: Conn)
    requires !c.state.Connecting?
    ensures Moves(c, HandleWrite(c), false, false)
  {
    var a := Answer(c.answers, |c.output|);
    if c.interest.write && a.Wrote? && 0 < a.n && c.output[a.n..] == [] {
      var f := Rearm(c.(answers := Rest(c.answers), wire := c.wire + c.output[..a.n], output := c.output[a.n..],
                        interest := c.interest.(write := false)));
      FinishState(f);
      assert f.script == c.script && f.state == c.state && HandleWrite(c) == Finish(f);
    }
  }

  lemma FinishState(c: Conn)
    requires !c.state.Connecting?
    ensures Moves(c, Finish(c), false, false)
  {
    CompleteState(c);
  }

  lemma ErrorState(c: Conn, due: bool)
    requires !c.state.Connecting?
    ensures var d := if due then HandleError(c) else c;
            Moves(c, d, due && c.inlineRemoval && c.state.Connected?, false) && d.script == c.script
  {
  }

  /** The error and the read part of a dispatch. */
  lemma ErrorAndReadState(c: Conn, err: bool, due: bool, answer: ReadResult)
    requires !c.state.Connecting?
    ensures var c1 := if err then HandleError(c) else c;
            Moves(c, if due then HandleRead(c1, answer) else c1,
                  (err && c.inlineRemoval && c.state.Connected?) || (due && ReadCloses(c, answer)), false)
  {
    var c1 := if err then HandleError(c) else c;
    var failed := err && c.inlineRemoval && c.state.Connected?;
    ErrorState(c, err);
    if due {
      ReadState(c1, answer);
      MovesTransitive(c, c1, HandleRead(c1, answer), failed, false, ReadCloses(c1, answer), false);
      assert failed || ReadCloses(c1, answer) <==> failed || ReadCloses(c, answer);
    }
  }

  lemma DispatchState(c: Conn, ready: Ready, answer: ReadResult)
    requires !c.state.Connecting?
    ensures Moves(c, HandleEvents(c, ready, answer), Closes(c, Polled(ready, answer)), false)
  {
    if ready.hup && !ready.readable {
      MovesAlone(c, HandleClose(c), true, false);
    } else {
      var due := ready.readable || ready.urgent;
      var c1 := if ready.err then HandleError(c) else c;
      var c2 := if due then HandleRead(c1, answer) else c1;
      var closed := Closes(c, Polled(ready, answer));
      ErrorAndReadState(c, ready.err, due, answer);
      assert Moves(c, c2, closed, false);
      if ready.writable {
        WriteState(c2);
        MovesTransitive(c, c2, HandleWrite(c2), closed, false, false, false);
      }
    }
  }

  lemma TaskState(c: Conn, t: Task)
    requires !c.state.Connecting?
    ensures Moves(c, RunTask(c, t), t.ForceCloseTask? || (t.DestroyTask? && c.state.Connected?), false)
  {
    if t.SendTask? {
      SendState(c, t.data);
    }
  }

  lemma PostedState(c: Conn)
    requires !c.state.Connecting?
    ensures Moves(c, Step(c, RunPosted), Closes(c, RunPosted), false)
  {
    if c.tasks != [] {
      TaskState(c.(tasks := c.tasks[1..]), c.tasks[0]);
    } else {
      MovesAlone(c, c, false, false);
    }
  }

  /** epoll reports only a registered connection. */
  predicate Heard(c: Conn, ev: Event) { ev.Polled? ==> c.epoll.Some? }

  lemma BeforeEstablished(c: Conn, ev: Event)
    requires Inv(c) && c.state.Connecting?
    ensures Step(c, ev).state == if ev.Established? then Connected else Connecting
  {
    match ev {
      case LoopAction(a) => assert Perform(c, a) == c;
      case RunPosted =>
        if c.tasks != [] {
          var e, t := c.(tasks := c.tasks[1..]), c.tasks[0];
          assert RunTask(e, t).state == Connecting;
        }
      case _ =>
    }
  }

  /**
   The next state of an established connection, for every event: DISCONNECTED if the event itself or a callback it
   calls closes it, DISCONNECTING if one of them requests it, and otherwise the state it was. Before, only the
   establishing counts.
   */
  lemma NextState(c: Conn, ev: Event)
    requires Inv(c)
    ensures if c.state.Connecting? then Step(c, ev).state == (if ev.Established? then Connected else Connecting)
            else Moves(c, Step(c, ev), Heard(c, ev) && Closes(c, ev), Requests(ev))
  {
    if c.state.Connecting? {
      BeforeEstablished(c, ev);
    } else {
      match ev {
        case Polled(ready, answer) =>
          if c.epoll.Some? { DispatchState(c, ready, answer); } else { MovesAlone(c, c, false, false); }
        case LoopAction(a) => PerformState(c, a);
        case RunPosted => PostedState(c);
        case ForeignAction(a) => MovesAlone(c, Foreign(c, a), false, Requests(ev));
        case _ => MovesAlone(c, Step(c, ev), false, false);
      }
    }
  }
  // ---------------------------------------------------------------- what callbacks send

  function SendsOf(actions: seq<Action>): seq<seq<Byte>> {
    if actions == [] then [] else (if actions[0].Send? then [actions[0].data] else []) + SendsOf(actions[1..])
  }

  /** The sends before the first closing request; what follows it is refused. */
  function SendsBeforeClose(actions: seq<Action>): seq<seq<Byte>> {
    if actions == [] || !actions[0].Send? then [] else [actions[0].data] + SendsBeforeClose(actions[1..])
  }

  lemma {:induction false} ActionsOffer(c: Conn, actions: seq<Action>, before: seq<seq<Byte>>)
    requires Inv(c) && Subsequence(before, c.offered)
    ensures var d := RunActions(c, actions);
            Inv(d) && (d.state.Connected? ==> Subsequence(before + SendsOf(actions), d.offered))
    decreases |actions|
  {
    if actions == [] {
      assert before + [] == before;
    } else {
      var e, sent := Perform(c, actions[0]), if actions[0].Send? then [actions[0].data] else [];
      PerformKeeps(c, actions[0]);
      RunActionsKeeps(e, actions[1..]);
      if RunActions(c, actions).state.Connected? {
        assert c.offered + [] == c.offered;
        if actions[0].Send? {
          SendKeeps(c, actions[0].data);
        }
        StillWithin(before, c.offered, sent, e.offered);
        ActionsOffer(e, actions[1..], before + sent);
        Associate(before, sent, SendsOf(actions[1..]));
      }
    }
  }

  /** The last callback of the script offers exactly its sends, as long as it has not asked for closing. */
  lemma {:induction false} LastCallbackOffers(c: Conn, actions: seq<Action>)
    requires c.state.Connected? && c.script == []
    ensures RunActions(c, actions).offered == c.offered + SendsBeforeClose(actions)
    decreases |actions|
  {
    if actions == [] {
      assert c.offered + [] == c.offered;
    } else if actions[0].Send? {
      var f, complete := SendLogs(c, actions[0].data);
      LastCallbackOffers(Perform(c, actions[0]), actions[1..]);
      Associate(c.offered, [actions[0].data], SendsBeforeClose(actions[1..]));
    } else {
      ClosedCallbackOffersNothing(Perform(c, actions[0]), actions[1..]);
      assert c.offered + [] == c.offered;
    }
  }

  lemma ClosedCallbackOffersNothing(c: Conn, actions: seq<Action>)
    requires 2 <= c.state.Rank()
    ensures RunActions(c, actions).offered == c.offered
  {
    ClosingCallback(c, actions);
  }

  lemma CompleteOffers(c: Conn, before: seq<seq<Byte>>)
    requires Inv(c) && c.state.Connected? && c.script != [] && Subsequence(before, c.offered)
    ensures var d := WriteComplete(c);
            && (d.state.Connected? ==> Subsequence(before + SendsOf(c.script[0]), d.offered))
            && (|c.script| == 1 ==> d.offered == c.offered + SendsBeforeClose(c.script[0]))
  {
    var e := c.(script := c.script[1..]);
    ActionsOffer(e, c.script[0], before);
    if |c.script| == 1 {
      LastCallbackOffers(e, c.script[0]);
    }
  }

  /**
   The actions of a callback are performed, in their order: its sends are offered behind the payload whose writing
   completed; exactly these, up to its first closing request, if it is the last callback.
   */
  lemma CallbackSends(c: Conn, data: seq<Byte>)
    requires Inv(c) && c.state.Connected? && c.script != []
    requires c.output == [] && Answer(c.answers, |data|) == Wrote(|data|)
    ensures var d := SendInLoop(c, data);
            && (d.state.Connected? ==> Subsequence(c.offered + [data] + SendsOf(c.script[0]), d.offered))
            && (|c.script| == 1 ==> d.offered == c.offered + [data] + SendsBeforeClose(c.script[0]))
  {
    var f := Took(c.(offered := c.offered + [data]), data, |data|);
    TakenKeeps(c, data);
    SubsequenceRefl(f.offered);
    CompleteOffers(f, f.offered);
  }

  lemma {:induction false} SubsequenceRefl<T>(a: seq<T>)
    ensures Subsequence(a, a)
  {
    if a != [] {
      SubsequenceRefl(a[..|a| - 1]);
    }
  }

  // ---------------------------------------------------------------- what is posted

  /** What an event appends to the tasks of the connection's loop. */
  function PostedBy(c: Conn, ev: Event): seq<Task> {
    match ev
    case ForeignAction(Send(data)) => if c.state.Connected? then [SendTask(data)] else []
    case ForeignAction(Shutdown) => if c.state.Connected? then [ShutdownTask] else []
    case ForeignAction(ForceClose) => if c.state.Open() then [ForceCloseTask] else []
    case PostDestroy => [DestroyTask]
    case _ => []
  }

  /** Tasks are posted at the back and run from the front, and nothing else touches them. */
  lemma TasksAfter(c: Conn, ev: Event)
    requires Inv(c)
    ensures Step(c, ev).tasks == if ev.RunPosted? then Rest(c.tasks) else c.tasks + PostedBy(c, ev)
  {
    assert c.tasks + [] == c.tasks;
    match ev {
      case Polled(ready, answer) => if c.epoll.Some? { EventsKeep(c, ready, answer); }
      case LoopAction(a) => PerformKeeps(c, a);
      case RunPosted => if c.tasks != [] { TaskPostsNothing(c); }
      case _ =>
    }
  }

  lemma TaskPostsNothing(c: Conn)
    requires Inv(c) && c.tasks != []
    ensures Step(c, RunPosted).tasks == c.tasks[1..]
  {
    assert c.tasks[0] in c.tasks;
    PostedKeeps(c.(tasks := c.tasks[1..]), c.tasks[0]);
  }

  // ---------------------------------------------------------------- a forced close, a removal

  ghost predicate CloseOwed(c: Conn) { c.state.Disconnected? || ForceCloseTask in c.tasks }

  ghost predicate RemovalOwed(c: Conn) { 2 <= c.state.Rank() || (c.state.Connected? && DestroyTask in c.tasks) }

  lemma OwedStays(c: Conn, ev: Event)
    requires Inv(c)
    ensures CloseOwed(c) ==> CloseOwed(Step(c, ev))
    ensures RemovalOwed(c) ==> RemovalOwed(Step(c, ev))
  {
    StepKeeps(c, ev);
    NextState(c, ev);
    TasksAfter(c, ev);
    if ev.RunPosted? && c.tasks != [] {
      assert c.tasks == [c.tasks[0]] + c.tasks[1..];
    }
  }

  lemma {:induction false} OwedUntilDone(c: Conn, events: seq<Event>)
    requires Inv(c)
    ensures CloseOwed(c) ==> CloseOwed(Run(c, events))
    ensures RemovalOwed(c) ==> RemovalOwed(Run(c, events))
    decreases |events|
  {
    if events != [] {
      StepKeeps(c, events[0]);
      OwedStays(c, events[0]);
      OwedUntilDone(Step(c, events[0]), events[1..]);
    }
  }

  /**
   A close forced, or a removal decided, on another thread is not lost: in every continuation the connection is
   closed, or has at least left CONNECTED, unless the posted task has still to run.
   */
  lemma ForcedCloseAndRemoval(c: Conn, events: seq<Event>)
    requires Inv(c) && c.state.Open()
    ensures var d := Run(Step(c, ForeignAction(ForceClose)), events); d.state.Disconnected? || ForceCloseTask in d.tasks
    ensures var d := Run(Step(c, PostDestroy), events); 2 <= d.state.Rank() || DestroyTask in d.tasks
  {
    var forced, removed := Step(c, ForeignAction(ForceClose)), Step(c, PostDestroy);
    StepKeeps(c, ForeignAction(ForceClose));
    StepKeeps(c, PostDestroy);
    assert forced.tasks[|c.tasks|] == ForceCloseTask && removed.tasks[|c.tasks|] == DestroyTask;
    OwedUntilDone(forced, events);
    OwedUntilDone(removed, events);
  }
  // ---------------------------------------------------------------- half close

  /** `shutdown()` on the loop thread: nothing more is accepted, and the write side goes at once if nothing is queued. */
  lemma ShutdownOnLoop(c: Conn)
    requires Inv(c) && c.state.Connected?
    ensures var d := Step(c, LoopAction(Shutdown));
            && d.state.Disconnecting? && (d.writeShut <==> c.output == [])
            && d.output == c.output && d.wire == c.wire && d.tasks == c.tasks && d.script == c.script
            && d.answers == c.answers
  {
  }

  /** On another thread: the same in two steps, the second when the posted task runs. */
  lemma ShutdownPosted(c: Conn)
    requires Inv(c)
    ensures c.state.Connected? ==> var d := Step(c, ForeignAction(Shutdown));
                                   d.state.Disconnecting? && !d.writeShut && d.tasks == c.tasks + [ShutdownTask]
    ensures c.state.Disconnecting? && c.tasks != [] && c.tasks[0].ShutdownTask? ==>
              var d := Step(c, RunPosted);
              d.state.Disconnecting? && (d.writeShut <==> c.output == []) && d.output == c.output
  {
  }

  /** In every run: with no such task waiting, the write side of a closing connection is shut exactly if nothing is queued. */
  lemma ShutWhenDone(answers: seq<SendAnswer>, script: seq<seq<Action>>, inline: bool, events: seq<Event>)
    ensures var c := Run(Initial(answers, script, inline), events);
            c.state.Disconnecting? && ShutdownTask !in c.tasks && ForceCloseTask !in c.tasks ==>
              (c.writeShut <==> c.output == [])
  {
    RunKeeps(Initial(answers, script, inline), events);
  }

  lemma ClosingWrite(c: Conn)
    requires Inv(c) && c.state.Disconnecting? && c.output != [] && Takes(c.answers, 1)
    ensures var d := Step(c, WRITABLE);
            && Inv(d) && |d.output| < |c.output| && d.wire + d.output == c.wire + c.output
            && if d.output == [] then
                 !d.interest.write && (d.writeShut <==> !(c.script != [] && ForceClose in c.script[0])) &&
                 (d.state.Disconnected? <==> !d.writeShut)
               else d.state == c.state && d.script == c.script && d.answers == c.answers[1..]
  {
    var a := Answer(c.answers, |c.output|);
    assert Step(c, WRITABLE) == HandleWrite(c);
    WriteKeeps(c);
    assert c.output == c.output[..a.n] + c.output[a.n..];
    Associate(c.wire, c.output[..a.n], c.output[a.n..]);
    if a.n == |c.output| {
      var f := c.(answers := Rest(c.answers), wire := c.wire + c.output[..a.n], output := [],
                  interest := Interest(true, false), epoll := Some(Interest(true, false)));
      assert c.output[a.n..] == [];
      assert HandleWrite(c) == Finish(f);
      if f.script != [] {
        ClosingCallback(f.(script := f.script[1..]), f.script[0]);
      }
    }
  }

  /** A closing connection drains and then shuts its write side, unless the callback at the end forces the close. */
  lemma {:induction false} ClosingDrains(c: Conn, n: nat)
    requires Inv(c) && c.state.Disconnecting? && c.output != [] && Takes(c.answers, |c.output|) && |c.output| <= n
    ensures var d := Run(c, Writables(n));
            && d.output == [] && d.wire == c.wire + c.output
            && (d.writeShut <==> !(c.script != [] && ForceClose in c.script[0]))
            && (d.state.Disconnected? <==> !d.writeShut)
    decreases n
  {
    var d := Step(c, WRITABLE);
    ClosingWrite(c);
    assert Writables(n)[1..] == Writables(n - 1);
    if d.output == [] {
      assert d.wire + [] == d.wire;
      IdleWrites(d, n - 1);
    } else {
      ClosingDrains(d, n - 1);
    }
  }

  /** From the request to the end: all that was queued goes out, and then the write side. */
  lemma ShutdownCompletes(c: Conn)
    requires Inv(c) && c.state.Connected? && Takes(c.answers, |c.output|)
    ensures var d := Run(c, [LoopAction(Shutdown)] + Writables(|c.output|));
            && d.output == [] && d.wire == c.wire + c.output
            && (d.writeShut <==> !(c.output != [] && c.script != [] && ForceClose in c.script[0]))
            && (d.state.Disconnected? <==> !d.writeShut)
  {
    var d := Step(c, LoopAction(Shutdown));
    StepKeeps(c, LoopAction(Shutdown));
    ShutdownOnLoop(c);
    var events := Cons(c, LoopAction(Shutdown), Writables(|c.output|));
    if c.output == [] {
      assert c.wire + [] == c.wire;
      IdleWrites(d, 0);
    } else {
      ClosingDrains(d, |c.output|);
    }
  }

  // ---------------------------------------------------------------- a write among other things

  /** An event that also reports the socket writable puts queued bytes on the wire, unless it closes the connection. */
  lemma WritableProgress(c: Conn, ready: Ready, answer: ReadResult)
    requires Inv(c) && c.state.Open() && c.output != [] && Takes(c.answers, 1)
    requires ready.writable && !Closes(c, Polled(ready, answer))
    ensures c.wire < Step(c, Polled(ready, answer)).wire
  {
    var due := ready.readable || ready.urgent;
    var c2 := if due then HandleRead(c, answer) else c;
    assert ready.err ==> HandleError(c) == c;
    ReadBehindQueue(c, due, answer);
    ReadPartKeeps(c, due, answer);
    assert Step(c, Polled(ready, answer)) == HandleWrite(c2);
    WriteMoves(c2);
  }

  lemma ReadBehindQueue(c: Conn, due: bool, answer: ReadResult)
    requires Inv(c) && c.state.Open() && c.output != [] && !(due && ReadCloses(c, answer))
    ensures var d := if due then HandleRead(c, answer) else c;
            d.state == c.state && c.output <= d.output && d.wire == c.wire && d.answers == c.answers
  {
    if due && answer.Got? && c.state.Connected? {
      var e := c.(received := c.received + answer.bytes, input := []);
      var f, complete := SendLogs(e, c.input + answer.bytes);
    }
  }

  lemma WriteMoves(c: Conn)
    requires Inv(c) && c.state.Open() && c.output != [] && Takes(c.answers, 1)
    ensures c.wire < HandleWrite(c).wire
  {
    var a := Answer(c.answers, |c.output|);
    var f := Rearm(c.(answers := Rest(c.answers), wire := c.wire + c.output[..a.n], output := c.output[a.n..],
                      interest := c.interest.(write := false)));
    if c.output[a.n..] == [] {
      assert HandleWrite(c) == Finish(f);
      WriteKeeps(c);
      assert a.n == |c.output| && c.output[..a.n] == c.output;
      assert Inv(f);
      WriteCompleteKeeps(f);
    }
  }
}
