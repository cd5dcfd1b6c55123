/** What a connection is given to send, chunk by chunk, and when it has sent it all. */
module StreamTheorems {
  import opened Bytes
  import opened ConnectionSpec
  import opened ConnectionTheorems
  import opened EchoTheorems

  // ---------------------------------------------------------------- the chunks that are read

  /** The chunk an event reads. */
  function ReadAt(c: Conn, ev: Event): seq<seq<Byte>> {
    match ev
    case Polled(ready, answer) =>
      if c.epoll.Some? && !(ready.hup && !ready.readable) && (ready.readable || ready.urgent)
         && answer.Got? && answer.bytes != [] then [answer.bytes] else []
    case _ => []
  }

  /** Read while CONNECTED, and so echoed; an error reported with the bytes may have closed the connection. */
  function EchoedAt(c: Conn, ev: Event): seq<seq<Byte>> {
    if c.state.Connected? && ev.Polled? && !(ev.ready.err && c.inlineRemoval) then ReadAt(c, ev) else []
  }

  function LateAt(c: Conn, ev: Event): seq<seq<Byte>> {
    if EchoedAt(c, ev) == [] then ReadAt(c, ev) else []
  }

  function Chunks(c: Conn, events: seq<Event>): seq<seq<Byte>>
    decreases |events|
  {
    if events == [] then [] else ReadAt(c, events[0]) + Chunks(Step(c, events[0]), events[1..])
  }

  function Echoed(c: Conn, events: seq<Event>): seq<seq<Byte>>
    decreases |events|
  {
    if events == [] then [] else EchoedAt(c, events[0]) + Echoed(Step(c, events[0]), events[1..])
  }

  function Late(c: Conn, events: seq<Event>): seq<seq<Byte>>
    decreases |events|
  {
    if events == [] then [] else LateAt(c, events[0]) + Late(Step(c, events[0]), events[1..])
  }

  /** Reading, with any callback: the chunk is logged, and echoed behind what was offered before. */
  lemma ReadOffers(c: Conn, bytes: seq<Byte>)
    requires Inv(c) && !c.state.Connecting? && bytes != []
    ensures var d := HandleRead(c, Got(bytes));
            && Inv(d) && d.received == c.received + bytes
            && c.offered + (if c.state.Connected? then [bytes] else []) <= d.offered
  {
    var e := c.(received := c.received + bytes);
    assert c.input + bytes == bytes;
    assert HandleRead(c, Got(bytes)) == SendInLoop(e, bytes);
    SendKeeps(e, bytes);
  }

  lemma WriteOffers(c: Conn)
    requires Inv(c)
    ensures HandleWrite(c).received == c.received && c.offered <= HandleWrite(c).offered
  {
    WriteKeeps(c);
    var a := Answer(c.answers, |c.output|);
    if c.interest.write && a.Wrote? && 0 < a.n && c.output[a.n..] == [] {
      var f := c.(answers := Rest(c.answers), wire := c.wire + c.output[..a.n], output := [],
                  interest := Interest(true, false), epoll := Some(Interest(true, false)));
      assert c.output == c.output[..a.n];
      assert HandleWrite(c) == Finish(f);
      WriteCompleteKeeps(f);
    }
  }

  function ChunkOf(due: bool, answer: ReadResult): seq<seq<Byte>> {
    if due && answer.Got? && answer.bytes != [] then [answer.bytes] else []
  }

  lemma ReadPartOffers(c: Conn, due: bool, answer: ReadResult)
    requires Inv(c) && !c.state.Connecting?
    ensures var d := if due then HandleRead(c, answer) else c;
            && d.received == c.received + Concat(ChunkOf(due, answer))
            && c.offered + (if c.state.Connected? then ChunkOf(due, answer) else []) <= d.offered
  {
    if ChunkOf(due, answer) != [] {
      ReadOffers(c, answer.bytes);
      assert [answer.bytes][1..] == [] && answer.bytes + [] == answer.bytes;
    } else {
      assert c.received + [] == c.received && c.offered + [] == c.offered;
    }
  }

  lemma DispatchOffers(c: Conn, ready: Ready, answer: ReadResult)
    requires Inv(c) && c.epoll.Some?
    ensures var d, ev := HandleEvents(c, ready, answer), Polled(ready, answer);
            && d.received == c.received + Concat(ReadAt(c, ev))
            && c.offered + EchoedAt(c, ev) <= d.offered
  {
    if ready.hup && !ready.readable {
      assert c.received + [] == c.received && c.offered + [] == c.offered;
    } else {
      var due := ready.readable || ready.urgent;
      var c1 := if ready.err then HandleError(c) else c;
      ErrorPartKeeps(c, ready.err);
      ReadPartKeeps(c1, due, answer);
      ReadPartOffers(c1, due, answer);
      assert ReadAt(c, Polled(ready, answer)) == ChunkOf(due, answer);
      if ready.writable {
        WriteOffers(if due then HandleRead(c1, answer) else c1);
      }
    }
  }

  lemma OtherEventsReadNothing(c: Conn, ev: Event)
    requires Inv(c) && !ev.Polled?
    ensures Step(c, ev).received == c.received
  {
    match ev {
      case LoopAction(a) => PerformKeeps(c, a);
      case RunPosted =>
        if c.tasks != [] && c.tasks[0].SendTask? {
          SendKeeps(c.(tasks := c.tasks[1..]), c.tasks[0].data);
        }
      case _ =>
    }
  }

  lemma StepReads(c: Conn, ev: Event)
    requires Inv(c)
    ensures Step(c, ev).received == c.received + Concat(ReadAt(c, ev))
    ensures c.offered + EchoedAt(c, ev) <= Step(c, ev).offered
  {
    if ev.Polled? && c.epoll.Some? {
      DispatchOffers(c, ev.ready, ev.answer);
    } else {
      assert ReadAt(c, ev) == [] && EchoedAt(c, ev) == [];
      assert c.received + [] == c.received && c.offered + [] == c.offered;
      if !ev.Polled? {
        OtherEventsReadNothing(c, ev);
        assert c.offered <= Step(c, ev).offered by { StepKeeps(c, ev); }
      }
    }
  }

  lemma LateMeansClosed(c: Conn, ev: Event)
    requires Inv(c)
    ensures ReadAt(c, ev) == EchoedAt(c, ev) + LateAt(c, ev)
    ensures LateAt(c, ev) != [] ==> 2 <= Step(c, ev).state.Rank()
  {
    if LateAt(c, ev) != [] && c.state.Connected? {
      var c1 := HandleError(c);
      ErrorPartKeeps(c, true);
      ReadPartKeeps(c1, true, ev.answer);
      WritePartKeeps(HandleRead(c1, ev.answer), ev.ready.writable);
    } else {
      StepKeeps(c, ev);
    }
  }

  lemma Interleave<T>(echoed: seq<T>, late: seq<T>, echoed': seq<T>, late': seq<T>)
    requires late == [] || echoed' == []
    ensures echoed + late + (echoed' + late') == echoed + echoed' + (late + late')
  {
  }

  /** Echoing ends for good when the connection leaves CONNECTED. */
  lemma {:induction false} ChunksInOrder(c: Conn, events: seq<Event>)
    requires Inv(c)
    ensures Chunks(c, events) == Echoed(c, events) + Late(c, events)
    ensures Run(c, events).received == c.received + Concat(Chunks(c, events))
    ensures Run(c, events).state.Rank() <= 1 ==> Late(c, events) == []
    ensures 2 <= c.state.Rank() ==> Echoed(c, events) == []
    decreases |events|
  {
    if events == [] {
      assert c.received + [] == c.received;
    } else {
      var d, later := Step(c, events[0]), events[1..];
      StepKeeps(c, events[0]);
      StepReads(c, events[0]);
      LateMeansClosed(c, events[0]);
      ChunksInOrder(d, later);
      RunForward(d, later);
      ConcatAppend(ReadAt(c, events[0]), Chunks(d, later));
      Associate(c.received, Concat(ReadAt(c, events[0])), Concat(Chunks(d, later)));
      Interleave(EchoedAt(c, events[0]), LateAt(c, events[0]), Echoed(d, later), Late(d, later));
    }
  }

  lemma {:induction false} EchoedAreOffered(c: Conn, events: seq<Event>, before: seq<seq<Byte>>)
    requires Inv(c) && Subsequence(before, c.offered)
    ensures Subsequence(before + Echoed(c, events), Run(c, events).offered)
    decreases |events|
  {
    if events == [] {
      assert before + [] == before;
    } else {
      var d, later := Step(c, events[0]), events[1..];
      StepKeeps(c, events[0]);
      StepReads(c, events[0]);
      StillWithin(before, c.offered, EchoedAt(c, events[0]), d.offered);
      EchoedAreOffered(d, later, before + EchoedAt(c, events[0]));
      Associate(before, EchoedAt(c, events[0]), Echoed(d, later));
    }
  }

  /**
   The echo among other senders. In every run, with any callbacks and any sends from anywhere, the chunks read are
   what was received; those read while CONNECTED come first, and are offered in their order, each at a place of
   its own; and as long as the connection is CONNECTED there are no others.
   */
  lemma ChunksAreEchoed(answers: seq<SendAnswer>, script: seq<seq<Action>>, inline: bool, events: seq<Event>)
    ensures var c0 := Initial(answers, script, inline);
            var c := Run(c0, events);
            && c.received == Concat(Chunks(c0, events))
            && Chunks(c0, events) == Echoed(c0, events) + Late(c0, events)
            && Subsequence(Echoed(c0, events), c.offered)
            && (c.state.Connected? ==> Late(c0, events) == [])
  {
    var c0 := Initial(answers, script, inline);
    ChunksInOrder(c0, events);
    assert [] + Concat(Chunks(c0, events)) == Concat(Chunks(c0, events));
    EchoedAreOffered(c0, events, []);
    assert [] + Echoed(c0, events) == Echoed(c0, events);
  }

  // ---------------------------------------------------------------- nothing else, when nobody else sends

  lemma ReadPartOffersExactly(c: Conn, due: bool, answer: ReadResult)
    requires Inv(c) && QuietScript(c)
    ensures var d := if due then HandleRead(c, answer) else c;
            QuietScript(d) && d.offered == c.offered + (if c.state.Connected? then ChunkOf(due, answer) else [])
  {
    if ChunkOf(due, answer) != [] && c.state.Connected? {
      var e := c.(received := c.received + answer.bytes);
      assert c.input + answer.bytes == answer.bytes;
      assert HandleRead(c, answer) == SendInLoop(e, answer.bytes);
      SendEchoes(e, answer.bytes);
    } else {
      assert c.offered + [] == c.offered;
    }
  }

  lemma DispatchOffersExactly(c: Conn, ready: Ready, answer: ReadResult)
    requires Inv(c) && QuietScript(c) && c.epoll.Some?
    ensures var d, ev := HandleEvents(c, ready, answer), Polled(ready, answer);
            QuietScript(d) && d.offered == c.offered + EchoedAt(c, ev)
  {
    if ready.hup && !ready.readable {
      assert c.offered + [] == c.offered;
    } else {
      var due := ready.readable || ready.urgent;
      var c1 := if ready.err then HandleError(c) else c;
      var c2 := if due then HandleRead(c1, answer) else c1;
      ErrorPartKeeps(c, ready.err);
      ReadPartKeeps(c1, due, answer);
      ReadPartOffersExactly(c1, due, answer);
      if ready.writable {
        WriteEchoes(c2);
      }
    }
  }

  /** What an event gives to send, apart from the callbacks and the loop's own calls. */
  function OfferedAt(c: Conn, ev: Event): seq<seq<Byte>> { EchoedAt(c, ev) + ReachedAt(c, ev) }

  function Offered(c: Conn, events: seq<Event>): seq<seq<Byte>>
    decreases |events|
  {
    if events == [] then [] else OfferedAt(c, events[0]) + Offered(Step(c, events[0]), events[1..])
  }

  predicate NoLoopSend(ev: Event) { ev.LoopAction? ==> !ev.action.Send? }

  lemma PostedOffersExactly(c: Conn)
    requires Inv(c) && QuietScript(c)
    ensures var d := Step(c, RunPosted); QuietScript(d) && d.offered == c.offered + ReachedAt(c, RunPosted)
  {
    assert c.offered + [] == c.offered;
    if c.tasks != [] && c.tasks[0].SendTask? && c.state.Connected? {
      SendEchoes(c.(tasks := c.tasks[1..]), c.tasks[0].data);
    }
  }

  lemma StepOffersExactly(c: Conn, ev: Event)
    requires Inv(c) && QuietScript(c) && NoLoopSend(ev)
    ensures QuietScript(Step(c, ev)) && Step(c, ev).offered == c.offered + OfferedAt(c, ev)
  {
    if ev.RunPosted? {
      PostedOffersExactly(c);
      assert OfferedAt(c, ev) == ReachedAt(c, ev);
    } else {
      assert OfferedAt(c, ev) == EchoedAt(c, ev);
      assert c.offered + [] == c.offered;
      match ev {
        case Polled(ready, answer) => if c.epoll.Some? { DispatchOffersExactly(c, ready, answer); }
        case LoopAction(a) => ActionQuiet(c, a);
        case _ =>
      }
    }
  }

  /**
   When only the echo and other threads send, `sendInLoop` is offered exactly the chunks read and the payloads
   posted, each once, in the order of the events that read or ran them.
   */
  lemma {:induction false} NothingElseIsOffered(c: Conn, events: seq<Event>)
    requires Inv(c) && QuietScript(c) && forall k :: 0 <= k < |events| ==> NoLoopSend(events[k])
    ensures Run(c, events).offered == c.offered + Offered(c, events)
    decreases |events|
  {
    if events == [] {
      assert c.offered + [] == c.offered;
    } else {
      assert NoLoopSend(events[0]);
      StepKeeps(c, events[0]);
      StepOffersExactly(c, events[0]);
      NothingElseIsOffered(Step(c, events[0]), events[1..]);
      Associate(c.offered, OfferedAt(c, events[0]), Offered(Step(c, events[0]), events[1..]));
    }
  }

  lemma {:induction false} OnlyReached(c: Conn, events: seq<Event>)
    requires Chunks(c, events) == []
    ensures Offered(c, events) == Reached(c, events)
    decreases |events|
  {
    if events != [] {
      OnlyReached(Step(c, events[0]), events[1..]);
      assert [] + ReachedAt(c, events[0]) == ReachedAt(c, events[0]);
    }
  }

  lemma OffersReached(c: Conn, events: seq<Event>)
    requires Inv(c) && QuietScript(c) && c.offered == [] && Chunks(c, events) == []
    requires forall k :: 0 <= k < |events| ==> NoLoopSend(events[k])
    ensures Run(c, events).offered == Reached(c, events)
  {
    NothingElseIsOffered(c, events);
    OnlyReached(c, events);
    assert [] + Reached(c, events) == Reached(c, events);
  }

  /**
   When only other threads send (the callbacks and the loop do not, and nothing is read), what they posted is, in
   call order and each payload once, what was offered, what came too late, and what still waits.
   */
  lemma OnlyForeignSends(answers: seq<SendAnswer>, script: seq<seq<Action>>, inline: bool, events: seq<Event>)
    requires forall k :: 0 <= k < |script| ==> NoSends(script[k])
    requires forall k :: 0 <= k < |events| ==> NoLoopSend(events[k])
    requires Chunks(Initial(answers, script, inline), events) == []
    ensures var c0 := Initial(answers, script, inline);
            var c := Run(c0, events);
            && Posted(c0, events) == c.offered + Dropped(c0, events) + Payloads(c.tasks)
            && (c.state.Connected? ==> Dropped(c0, events) == [])
  {
    ForeignSendsInOrder(answers, script, inline, events);
    OffersReached(Initial(answers, script, inline), events);
  }
  // ---------------------------------------------------------------- when all of it is out

  /** epoll reports the socket writable, and nothing else. */
  const WRITABLE := Polled(Ready(false, false, false, false, true), Failed)

  function Writables(n: nat): seq<Event> { seq(n, _ => WRITABLE) }

  /** The next `n` answers of the kernel each take something. */
  predicate Takes(answers: seq<SendAnswer>, n: nat) {
    n <= |answers| && forall k :: 0 <= k < n ==> answers[k].Wrote? && 0 < answers[k].n
  }

  lemma {:induction false} IdleWrites(c: Conn, n: nat)
    requires !c.interest.write
    ensures Run(c, Writables(n)) == c
  {
    if n > 0 {
      assert Step(c, WRITABLE) == c;
      assert Writables(n)[1..] == Writables(n - 1);
      IdleWrites(c, n - 1);
    }
  }

  lemma {:induction false} QuietActionsSendNothing(c: Conn, actions: seq<Action>)
    requires NoSends(actions)
    ensures RunActions(c, actions).output == c.output && RunActions(c, actions).wire == c.wire
    decreases |actions|
  {
    if actions != [] {
      assert actions[0] in actions && NoSends(actions[1..]);
      QuietActionsSendNothing(Perform(c, actions[0]), actions[1..]);
    }
  }

  /** One write event: some bytes go out, and what is left stays in order. */
  lemma OneWrite(c: Conn)
    requires Inv(c) && c.state.Open() && c.output != [] && QuietScript(c) && Takes(c.answers, 1)
    ensures var d := Step(c, WRITABLE);
            && Inv(d) && |d.output| < |c.output| && d.wire + d.output == c.wire + c.output
            && if d.output == [] then !d.interest.write
               else d.state == c.state && d.script == c.script && d.answers == c.answers[1..]
  {
    var a := Answer(c.answers, |c.output|);
    assert Step(c, WRITABLE) == HandleWrite(c);
    WriteKeeps(c);
    assert c.output == c.output[..a.n] + c.output[a.n..];
    Associate(c.wire, c.output[..a.n], c.output[a.n..]);
    if a.n == |c.output| {
      var f := c.(answers := Rest(c.answers), wire := c.wire + c.output[..a.n], output := [],
                  interest := Interest(true, false), epoll := Some(Interest(true, false)));
      assert c.output[a.n..] == [];
      assert HandleWrite(c) == Finish(f);
      if f.script != [] {
        QuietActionsSendNothing(f.(script := f.script[1..]), f.script[0]);
      }
    }
  }

  /** However little the kernel takes at a time, a queue of n bytes is out after n write events that take something. */
  lemma {:induction false} WritesDrain(c: Conn, n: nat)
    requires Inv(c) && c.state.Open() && QuietScript(c) && Takes(c.answers, |c.output|) && |c.output| <= n
    ensures Run(c, Writables(n)).output == [] && Run(c, Writables(n)).wire == c.wire + c.output
    decreases n
  {
    if c.output == [] {
      assert c.wire + [] == c.wire;
      IdleWrites(c, n);
    } else {
      var d := Step(c, WRITABLE);
      OneWrite(c);
      assert Writables(n)[1..] == Writables(n - 1);
      if d.output == [] {
        assert d.wire + [] == d.wire;
        IdleWrites(d, n - 1);
      } else {
        WritesDrain(d, n - 1);
      }
    }
  }

  lemma {:induction false} WritesReadNothing(c: Conn, n: nat)
    requires Inv(c)
    ensures Run(c, Writables(n)).received == c.received
    decreases n
  {
    if n > 0 {
      StepKeeps(c, WRITABLE);
      StepReads(c, WRITABLE);
      assert c.received + [] == c.received;
      assert Writables(n)[1..] == Writables(n - 1);
      WritesReadNothing(Step(c, WRITABLE), n - 1);
    }
  }

  /** And then the echo is complete: what was sent is what was received. */
  lemma EchoCompletes(answers: seq<SendAnswer>, script: seq<seq<Action>>, inline: bool, events: seq<Event>)
    requires forall k :: 0 <= k < |script| ==> NoSends(script[k])
    requires forall ev :: ev in events ==> QuietEvent(ev)
    requires var c := Run(Initial(answers, script, inline), events);
             c.state.Connected? && !c.faulted && Takes(c.answers, |c.output|)
    ensures var c := Run(Initial(answers, script, inline), events);
            var d := Run(c, Writables(|c.output|));
            d.output == [] && d.wire == c.received == d.received
  {
    var c := Run(Initial(answers, script, inline), events);
    EchoEndToEnd(answers, script, inline, events);
    RunEchoes(Initial(answers, script, inline), events);
    WritesDrain(c, |c.output|);
    WritesReadNothing(c, |c.output|);
  }

}
