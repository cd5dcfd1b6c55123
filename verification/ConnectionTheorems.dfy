/** What every step and every run of the connection machine keeps. */
module ConnectionTheorems {
  import opened Bytes
  import opened ConnectionSpec

  /** Holds between any two operations, and at every inline callback. */
  ghost predicate Inv(c: Conn) {
    && c.wire + c.output == Concat(c.accepted)
    && (!c.faulted ==> c.offered == c.accepted)
    && c.input == []
    && (c.state.Connecting? ==>
          c.interest == NO_INTEREST && c.epoll.None? && c.received == [] && c.offered == [] && c.accepted == [] &&
          !c.writeShut && !c.faulted)
    && (c.state.Open() ==> c.interest == Interest(true, c.output != []) && c.epoll == Some(c.interest))
    && (c.state.Disconnected? ==> c.interest == NO_INTEREST)
    && (c.writeShut && !c.state.Disconnected? ==> c.state.Disconnecting? && c.output == [])
    && (ShutdownTask in c.tasks || ForceCloseTask in c.tasks ==> 2 <= c.state.Rank())
  }

  /** Once closing has begun, somebody still has the write side to shut: nobody forgets the request. */
  ghost predicate ShutdownCovered(c: Conn) {
    c.state.Disconnecting? ==>
      c.writeShut || c.output != [] || ShutdownTask in c.tasks || ForceCloseTask in c.tasks
  }

  /** No `send` will be answered with a broken pipe. */
  predicate Sound(answers: seq<SendAnswer>) { Broken !in answers }

  /** What any number of steps keeps. */
  ghost predicate Forward(c: Conn, d: Conn) {
    && c.state.Rank() <= d.state.Rank()
    && c.received <= d.received
    && c.wire <= d.wire
    && c.offered <= d.offered
    && (c.faulted ==> d.faulted)
    && (Sound(c.answers) ==> Sound(d.answers) && d.faulted == c.faulted)
    && (c.writeShut ==> d.writeShut && d.wire == c.wire)
    && (2 <= c.state.Rank() ==> d.wire + d.output == c.wire + c.output && d.accepted == c.accepted)
  }

  /** What holds across one operation on the loop thread, callbacks included. */
  ghost predicate Inside(c: Conn, d: Conn) {
    && Forward(c, d)
    && d.tasks == c.tasks
    && (c.state.Connecting? <==> d.state.Connecting?)
    && (!c.writeShut && d.writeShut ==> d.output == [])
    && (ShutdownCovered(c) ==> ShutdownCovered(d))
  }

  /** As `Inside`, for what callbacks do: a closing connection can only be closed harder. */
  ghost predicate Inline(c: Conn, d: Conn) {
    && Inside(c, d)
    && d.received == c.received
    && (c.epoll.Some? ==> d.epoll.Some?)
    && (c.state.Disconnecting? && d.state.Disconnecting? ==> d.(script := c.script) == c)
  }

  lemma InlineTransitive(c: Conn, d: Conn, e: Conn)
    requires Inv(c) && Inv(d) && Inv(e) && Inline(c, d) && Inline(d, e)
    ensures Inline(c, e)
  {
  }

  // ---------------------------------------------------------------- operations with inline callbacks

  /** The kernel took the whole payload, with nothing queued before it. */
  lemma TakenKeeps(c: Conn, data: seq<Byte>)
    requires Inv(c) && c.state.Connected? && c.output == []
    ensures var d := Took(c.(offered := c.offered + [data]), data, |data|);
            Inv(d) && Inline(c, d) && c.offered + [data] <= d.offered && d.script == c.script
  {
    assert data[..|data|] == data;
    ConcatSnoc(c.accepted, data);
  }

  /** A payload split into what the kernel took (only possible with nothing queued) and what is queued. */
  lemma QueuedKeeps(c: Conn, d: Conn, data: seq<Byte>, taken: seq<Byte>, rest: seq<Byte>)
    requires Inv(c) && c.state.Connected?
    requires data == taken + rest && (taken == [] || c.output == []) && (rest != [] || data == [])
    requires Sound(c.answers) ==> Sound(d.answers)
    requires d == Enqueue(c.(offered := c.offered + [data], accepted := c.accepted + [data],
                             wire := c.wire + taken, answers := d.answers), rest)
    ensures Inv(d) && Inline(c, d) && c.offered + [data] <= d.offered
  {
    ConcatSnoc(c.accepted, data);
    assert d.wire + d.output == c.wire + c.output + data;
    assert d == c.(offered := d.offered, accepted := d.accepted, wire := c.wire + taken, answers := d.answers,
                   output := c.output + rest, interest := Interest(true, c.output + rest != []),
                   epoll := Some(Interest(true, c.output + rest != [])));
  }

  /** The kernel took a part, or nothing. */
  lemma PartKeeps(c: Conn, data: seq<Byte>, n: nat)
    requires Inv(c) && c.state.Connected? && c.output == [] && n <= |data| && (n < |data| || data == [])
    ensures var d := Enqueue(Took(c.(offered := c.offered + [data]), data, n), data[n..]);
            Inv(d) && Inline(c, d) && c.offered + [data] <= d.offered
  {
    assert data == data[..n] + data[n..];
    QueuedKeeps(c, Enqueue(Took(c.(offered := c.offered + [data]), data, n), data[n..]), data, data[..n], data[n..]);
  }

  /** Something is queued already, so the kernel is not asked. */
  lemma BehindKeeps(c: Conn, data: seq<Byte>)
    requires Inv(c) && c.state.Connected? && c.output != []
    ensures var d := SendInLoop(c, data); Inv(d) && Inline(c, d) && c.offered + [data] <= d.offered
  {
    assert data == [] + data;
    assert c.wire + [] == c.wire;
    QueuedKeeps(c, SendInLoop(c, data), data, [], data);
  }

  lemma BrokenKeeps(c: Conn, data: seq<Byte>)
    requires Inv(c) && c.state.Connected? && c.output == [] && Answer(c.answers, |data|).Broken?
    ensures var d := SendInLoop(c, data); Inv(d) && Inline(c, d) && c.offered + [data] <= d.offered
  {
    assert Broken in c.answers;
  }

  lemma {:induction false} SendKeeps(c: Conn, data: seq<Byte>)
    requires Inv(c)
    ensures Inv(SendInLoop(c, data)) && Inline(c, SendInLoop(c, data))
    ensures c.state.Connected? ==> c.offered + [data] <= SendInLoop(c, data).offered
    decreases |c.script|, 1
  {
    if c.state.Connected? {
      if c.output != [] {
        BehindKeeps(c, data);
      } else {
        match Answer(c.answers, |data|) {
          case Wrote(n) =>
            if n == |data| {
              var f := Took(c.(offered := c.offered + [data]), data, n);
              TakenKeeps(c, data);
              WriteCompleteKeeps(f);
              InlineTransitive(c, f, WriteComplete(f));
            } else {
              PartKeeps(c, data, n);
            }
          case Broken => BrokenKeeps(c, data);
          case _ =>
            assert data[0..] == data;
            PartKeeps(c, data, 0);
        }
      }
    }
  }

  lemma {:induction false} WriteCompleteKeeps(c: Conn)
    requires Inv(c)
    ensures Inv(WriteComplete(c)) && Inline(c, WriteComplete(c))
    decreases |c.script|, 0
  {
    if c.script != [] {
      RunActionsKeeps(c.(script := c.script[1..]), c.script[0]);
    }
  }

  lemma CloseKeeps(c: Conn)
    requires Inv(c)
    ensures Inv(ShutdownNow(c)) && Inline(c, ShutdownNow(c))
    ensures Inv(ForceCloseInLoop(c)) && Inline(c, ForceCloseInLoop(c))
  {
  }

  lemma {:induction false} PerformKeeps(c: Conn, a: Action)
    requires Inv(c)
    ensures Inv(Perform(c, a)) && Inline(c, Perform(c, a))
    decreases |c.script|, 2
  {
    match a {
      case Send(data) => SendKeeps(c, data);
      case Shutdown => CloseKeeps(c);
      case ForceClose => CloseKeeps(c);
    }
  }

  lemma {:induction false} RunActionsKeeps(c: Conn, actions: seq<Action>)
    requires Inv(c)
    ensures Inv(RunActions(c, actions)) && Inline(c, RunActions(c, actions))
    decreases |c.script|, 3 + |actions|
  {
    if actions != [] {
      var d := Perform(c, actions[0]);
      PerformKeeps(c, actions[0]);
      RunActionsKeeps(d, actions[1..]);
      InlineTransitive(c, d, RunActions(c, actions));
    }
  }

  // ---------------------------------------------------------------- events

  lemma InsideTransitive(c: Conn, d: Conn, e: Conn)
    requires Inv(c) && Inv(d) && Inv(e) && Inside(c, d) && Inside(d, e)
    ensures Inside(c, e)
  {
  }

  lemma ReadKeeps(c: Conn, r: ReadResult)
    requires Inv(c) && !c.state.Connecting?
    ensures Inv(HandleRead(c, r)) && Inside(c, HandleRead(c, r))
  {
    if r.Got? && r.bytes != [] {
      var e := c.(received := c.received + r.bytes);
      assert c.input + r.bytes == r.bytes;
      assert HandleRead(c, r) == SendInLoop(e, r.bytes);
      SendKeeps(e, r.bytes);
    } else {
      ErrorKeeps(c);
    }
  }

  lemma FinishKeeps(c: Conn)
    requires Inv(c) && c.output == []
    ensures var d := Finish(c); Inv(d) && Inside(c, d) && ShutdownCovered(d)
  {
    WriteCompleteKeeps(c);
  }

  lemma WriteKeeps(c: Conn)
    requires Inv(c)
    ensures var d := HandleWrite(c); Inv(d) && Inside(c, d)
  {
    var a := Answer(c.answers, |c.output|);
    if c.interest.write && a.Wrote? && 0 < a.n {
      var e := c.(answers := Rest(c.answers), wire := c.wire + c.output[..a.n], output := c.output[a.n..]);
      assert c.output == c.output[..a.n] + c.output[a.n..];
      assert e.wire + e.output == c.wire + c.output by {
        Associate(c.wire, c.output[..a.n], c.output[a.n..]);
      }
      if e.output == [] {
        var f := e.(interest := Interest(true, false), epoll := Some(Interest(true, false)));
        assert HandleWrite(c) == Finish(f);
        assert Inv(f) && Forward(c, f);
        FinishKeeps(f);
      }
    }
  }

  lemma ErrorKeeps(c: Conn)
    requires Inv(c)
    ensures Inv(HandleError(c)) && Inside(c, HandleError(c))
    ensures Inv(HandleClose(c)) && (!c.state.Connecting? ==> Inside(c, HandleClose(c)))
  {
  }

  lemma ErrorPartKeeps(c: Conn, due: bool)
    requires Inv(c)
    ensures var d := if due then HandleError(c) else c; Inv(d) && Inside(c, d)
  {
    ErrorKeeps(c);
  }

  lemma ReadPartKeeps(c: Conn, due: bool, answer: ReadResult)
    requires Inv(c) && !c.state.Connecting?
    ensures var d := if due then HandleRead(c, answer) else c; Inv(d) && Inside(c, d)
  {
    if due {
      ReadKeeps(c, answer);
    }
  }

  lemma WritePartKeeps(c: Conn, due: bool)
    requires Inv(c)
    ensures var d := if due then HandleWrite(c) else c; Inv(d) && Inside(c, d)
  {
    if due {
      WriteKeeps(c);
    }
  }

  lemma EventsKeep(c: Conn, ready: Ready, answer: ReadResult)
    requires Inv(c) && !c.state.Connecting?
    ensures Inv(HandleEvents(c, ready, answer)) && Inside(c, HandleEvents(c, ready, answer))
  {
    if ready.hup && !ready.readable {
      ErrorKeeps(c);
    } else {
      var c1 := if ready.err then HandleError(c) else c;
      var c2 := if ready.readable || ready.urgent then HandleRead(c1, answer) else c1;
      var c3 := if ready.writable then HandleWrite(c2) else c2;
      assert HandleEvents(c, ready, answer) == c3;
      ErrorPartKeeps(c, ready.err);
      ReadPartKeeps(c1, ready.readable || ready.urgent, answer);
      InsideTransitive(c, c1, c2);
      WritePartKeeps(c2, ready.writable);
      InsideTransitive(c, c2, c3);
    }
  }

  /** What one step keeps; the write side is only shut when the output has drained. */
  ghost predicate Kept(c: Conn, d: Conn) {
    && Inv(d) && Forward(c, d)
    && (ShutdownCovered(c) ==> ShutdownCovered(d))
    && (!c.writeShut && d.writeShut && !c.state.Disconnected? ==> d.output == [])
  }

  lemma InsideIsKept(c: Conn, d: Conn)
    requires Inv(d) && Inside(c, d)
    ensures Kept(c, d)
  {
  }

  lemma EstablishKeeps(c: Conn)
    requires Inv(c) && c.state.Connecting?
    ensures Kept(c, Establish(c))
  {
  }

  lemma PostedTaskKeeps(c: Conn)
    requires Inv(c) && c.tasks != []
    ensures Kept(c, RunTask(c.(tasks := c.tasks[1..]), c.tasks[0]))
  {
    var d := c.(tasks := c.tasks[1..]);
    assert c.tasks == [c.tasks[0]] + d.tasks;
    PostedKeeps(d, c.tasks[0]);
  }

  lemma PostedKeeps(c: Conn, t: Task)
    requires Inv(c) && (t.ShutdownTask? || t.ForceCloseTask? ==> 2 <= c.state.Rank())
    ensures Inv(RunTask(c, t)) && Forward(c, RunTask(c, t)) && RunTask(c, t).tasks == c.tasks
    ensures ShutdownCovered(Post(c, t)) ==> ShutdownCovered(RunTask(c, t))
    ensures !c.writeShut && RunTask(c, t).writeShut ==> c.state.Disconnected? || RunTask(c, t).output == []
  {
    if t.SendTask? {
      SendKeeps(c, t.data);
    }
  }

  /** The step theorem. */
  lemma StepKeeps(c: Conn, ev: Event)
    requires Inv(c)
    ensures Kept(c, Step(c, ev))
  {
    match ev {
      case Established => if c.state.Connecting? { EstablishKeeps(c); }
      case Polled(ready, answer) =>
        if c.epoll.Some? {
          EventsKeep(c, ready, answer);
          InsideIsKept(c, HandleEvents(c, ready, answer));
        }
      case LoopAction(a) => PerformKeeps(c, a); InsideIsKept(c, Perform(c, a));
      case ForeignAction(a) => ForeignKeeps(c, a);
      case PostDestroy =>
      case RunPosted => if c.tasks != [] { PostedTaskKeeps(c); }
    }
  }

  lemma ForeignSendKeeps(c: Conn, data: seq<Byte>)
    requires Inv(c) && c.state.Connected?
    ensures var d := Post(c, SendTask(data)); Inv(d) && Forward(c, d) && (ShutdownCovered(c) ==> ShutdownCovered(d))
  {
  }

  /** A closing request on another thread, before its task has run. */
  lemma ForeignCloseKeeps(c: Conn, t: Task)
    requires Inv(c) && c.state.Open() && (t.ShutdownTask? || t.ForceCloseTask?)
    ensures var d := Post(c.(state := Disconnecting), t); Inv(d) && Forward(c, d) && ShutdownCovered(d)
  {
    assert Post(c, t).tasks[|c.tasks|] == t;
  }

  lemma ForeignKeeps(c: Conn, a: Action)
    requires Inv(c)
    ensures Inv(Foreign(c, a)) && Forward(c, Foreign(c, a))
    ensures ShutdownCovered(c) ==> ShutdownCovered(Foreign(c, a))
    ensures Foreign(c, a).writeShut == c.writeShut
  {
    match a {
      case Send(data) => if c.state.Connected? { ForeignSendKeeps(c, data); }
      case Shutdown => if c.state.Connected? { ForeignCloseKeeps(c, ShutdownTask); }
      case ForceClose => if c.state.Open() { ForeignCloseKeeps(c, ForceCloseTask); }
    }
  }
}
