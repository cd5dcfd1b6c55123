/**
 What happens to a connection, as its loop and other threads see it, and what each of these things amounts to for the
 machine of `ConnectionSpec`. The peer's stream and the kernel's choices decide what a read returns.
 */
module Happenings {
  import opened Bytes
  import B = ByteBuffer
  import opened ConnectionSpec
  import opened ConnectionTheorems
  import opened EchoTheorems
  import opened StreamTheorems
  import opened ClosingTheorems

  datatype Happening =
    | Accepted
    | SocketReady(ready: Ready)
    | Api(action: Action, onLoop: bool)
    | RemovedElsewhere
    | TasksDue

  /** The receiving side: bytes not read yet, the kernel's choices, and the space in the empty input buffer. */
  datatype Peer = Peer(unread: seq<Byte>, script: seq<B.ReadChoice>, writable: nat)

  // ---------------------------------------------------------------- reading

  function Outcome(p: Peer): (n: int)
    ensures -1 <= n <= |p.unread|
  {
    B.ReadOutcome(p.script, B.ScatterRoom(p.writable), |p.unread|)
  }

  /** What the next `readv` returns. */
  function NextRead(p: Peer): ReadResult {
    if Outcome(p) < 0 then Failed else Got(p.unread[..Outcome(p)])
  }

  /** A read that did not fit has left the buffer larger. */
  function AfterRead(p: Peer): Peer {
    if Outcome(p) < 0 then p.(script := Rest(p.script))
    else Peer(p.unread[Outcome(p)..], Rest(p.script), Max(p.writable, Outcome(p)))
  }

  /** The read callback is called. */
  predicate Reads(c: Conn, ready: Ready) {
    c.epoll.Some? && !(ready.hup && !ready.readable) && (ready.readable || ready.urgent)
  }

  // ---------------------------------------------------------------- events

  function RunPostedTimes(n: nat): (r: seq<Event>)
    ensures |r| == n && QuietEvents(r)
  {
    seq(n, _ => RunPosted)
  }

  function Events(c: Conn, p: Peer, h: Happening): seq<Event> {
    match h
    case Accepted => [Established]
    case SocketReady(ready) =>
      if c.epoll.Some? then [Polled(ready, if Reads(c, ready) then NextRead(p) else Failed)] else []
    case Api(action, onLoop) => [if onLoop then LoopAction(action) else ForeignAction(action)]
    case RemovedElsewhere => [PostDestroy]
    case TasksDue => RunPostedTimes(|c.tasks|)
  }

  function PeerAfter(c: Conn, p: Peer, h: Happening): Peer {
    if h.SocketReady? && Reads(c, h.ready) then AfterRead(p) else p
  }

  /** A whole run: the concatenation, happening by happening, of what each amounts to. */
  function Trace(c: Conn, p: Peer, hs: seq<Happening>): seq<Event>
    decreases |hs|
  {
    if hs == [] then []
    else Events(c, p, hs[0]) + Trace(Run(c, Events(c, p, hs[0])), PeerAfter(c, p, hs[0]), hs[1..])
  }

  function PeerTrace(c: Conn, p: Peer, hs: seq<Happening>): Peer
    decreases |hs|
  {
    if hs == [] then p else PeerTrace(Run(c, Events(c, p, hs[0])), PeerAfter(c, p, hs[0]), hs[1..])
  }

  predicate QuietHappening(h: Happening) { h.Api? ==> !h.action.Send? }

  predicate QuietEvents(events: seq<Event>) { forall k :: 0 <= k < |events| ==> QuietEvent(events[k]) }

  lemma RunOne(c: Conn, event: Event)
    ensures Run(c, [event]) == Step(c, event)
  {
    assert [event][1..] == [];
    assert Run(Step(c, event), []) == Step(c, event);
  }

  lemma {:induction false} RunAppend(c: Conn, events: seq<Event>, more: seq<Event>)
    ensures Run(c, events + more) == Run(Run(c, events), more)
    decreases |events|
  {
    if events == [] {
      assert events + more == more;
    } else {
      RunAppend(Step(c, events[0]), events[1..], more);
      assert (events + more)[1..] == events[1..] + more;
    }
  }

  lemma {:induction false} TraceAppend(c: Conn, p: Peer, hs: seq<Happening>, h: Happening)
    ensures var d, q := Run(c, Trace(c, p, hs)), PeerTrace(c, p, hs);
            && Trace(c, p, hs + [h]) == Trace(c, p, hs) + Events(d, q, h)
            && PeerTrace(c, p, hs + [h]) == PeerAfter(d, q, h)
    decreases |hs|
  {
    if hs == [] {
      assert [h][1..] == [] && [] + [h] == [h];
      assert Events(c, p, h) + [] == Events(c, p, h) == [] + Events(c, p, h);
    } else {
      var first := Events(c, p, hs[0]);
      var d, q := Run(c, first), PeerAfter(c, p, hs[0]);
      TraceAppend(d, q, hs[1..], h);
      RunAppend(c, first, Trace(d, q, hs[1..]));
      assert (hs + [h])[1..] == hs[1..] + [h] && (hs + [h])[0] == hs[0];
      Associate(first, Trace(d, q, hs[1..]), Events(Run(d, Trace(d, q, hs[1..])), PeerTrace(d, q, hs[1..]), h));
    }
  }

  lemma {:induction false} TraceQuiet(c: Conn, p: Peer, hs: seq<Happening>)
    requires forall k :: 0 <= k < |hs| ==> QuietHappening(hs[k])
    ensures QuietEvents(Trace(c, p, hs))
    decreases |hs|
  {
    if hs != [] {
      assert QuietHappening(hs[0]);
      TraceQuiet(Run(c, Events(c, p, hs[0])), PeerAfter(c, p, hs[0]), hs[1..]);
    }
  }

  // ---------------------------------------------------------------- what a happening does

  /** Each happening is the one operation of the machine it stands for. */
  lemma Amounts(c: Conn, p: Peer, h: Happening)
    requires Inv(c)
    ensures var d := Run(c, Events(c, p, h));
            && (h.Accepted? && c.state.Connecting? ==> d == Establish(c))
            && (h.SocketReady? && c.epoll.None? ==> d == c)
            && (h.SocketReady? && c.epoll.Some? ==>
                  d == HandleEvents(c, h.ready, if Reads(c, h.ready) then NextRead(p) else Failed))
            && (h.Api? ==> d == if h.onLoop then Perform(c, h.action) else Foreign(c, h.action))
            && (h.RemovedElsewhere? ==> d == Post(c, DestroyTask))
            && (h.TasksDue? ==> d.tasks == [])
  {
    match h {
      case SocketReady(ready) =>
        if c.epoll.Some? {
          var answer := if Reads(c, ready) then NextRead(p) else Failed;
          RunOne(c, Polled(ready, answer));
        }
      case TasksDue => AllRun(c);
      case Accepted => RunOne(c, Established);
      case Api(action, onLoop) => RunOne(c, if onLoop then LoopAction(action) else ForeignAction(action));
      case RemovedElsewhere => RunOne(c, PostDestroy);
    }
  }

  lemma {:induction false} AllRun(c: Conn)
    requires Inv(c)
    ensures Run(c, RunPostedTimes(|c.tasks|)).tasks == []
    decreases |c.tasks|
  {
    if c.tasks != [] {
      var d := Step(c, RunPosted);
      StepKeeps(c, RunPosted);
      TasksAfter(c, RunPosted);
      assert RunPostedTimes(|c.tasks|)[1..] == RunPostedTimes(|d.tasks|);
      AllRun(d);
    }
  }

  // ---------------------------------------------------------------- what is received

  lemma EventsConserve(c: Conn, p: Peer, h: Happening)
    requires Inv(c)
    ensures var d := Run(c, Events(c, p, h));
            Inv(d) && d.received + PeerAfter(c, p, h).unread == c.received + p.unread
  {
    var events := Events(c, p, h);
    RunForward(c, events);
    if h.TasksDue? {
      PostedReadNothing(c, |c.tasks|);
    } else if events != [] {
      RunOne(c, events[0]);
      StepReads(c, events[0]);
      assert c.received + [] == c.received;
      if h.SocketReady? && Reads(c, h.ready) && Outcome(p) >= 0 {
        var bytes := p.unread[..Outcome(p)];
        assert ReadAt(c, events[0]) == if bytes == [] then [] else [bytes];
        assert [bytes][1..] == [] && bytes + [] == bytes;
        Associate(c.received, bytes, p.unread[Outcome(p)..]);
        assert p.unread == bytes + p.unread[Outcome(p)..];
      }
    }
  }

  lemma {:induction false} PostedReadNothing(c: Conn, n: nat)
    requires Inv(c)
    ensures Run(c, RunPostedTimes(n)).received == c.received
    decreases n
  {
    if n > 0 {
      StepKeeps(c, RunPosted);
      OtherEventsReadNothing(c, RunPosted);
      assert RunPostedTimes(n)[1..] == RunPostedTimes(n - 1);
      PostedReadNothing(Step(c, RunPosted), n - 1);
    }
  }

  /** No byte of the peer's stream is lost or read twice between the kernel and the connection. */
  lemma {:induction false} StreamConserved(c: Conn, p: Peer, hs: seq<Happening>)
    requires Inv(c)
    ensures var d := Run(c, Trace(c, p, hs));
            Inv(d) && d.received + PeerTrace(c, p, hs).unread == c.received + p.unread
    decreases |hs|
  {
    if hs != [] {
      var d, q := Run(c, Events(c, p, hs[0])), PeerAfter(c, p, hs[0]);
      EventsConserve(c, p, hs[0]);
      StreamConserved(d, q, hs[1..]);
      RunAppend(c, Events(c, p, hs[0]), Trace(d, q, hs[1..]));
    }
  }

  /** The socket is readable, and nothing else. */
  const READABLE := Ready(false, false, true, false, false)

  function Readables(n: nat): seq<Happening> { seq(n, _ => SocketReady(READABLE)) }

  predicate NoFailure(script: seq<B.ReadChoice>) { B.Fail !in script }

  /** A readable event on a registered connection reads at least one byte, or the end of the stream, which closes it. */
  lemma OneRead(c: Conn, p: Peer)
    requires Inv(c) && c.epoll.Some? && NoFailure(p.script)
    ensures var h := SocketReady(READABLE);
            var d, q := Run(c, Events(c, p, h)), PeerAfter(c, p, h);
            && Inv(d) && d.epoll.Some? && NoFailure(q.script)
            && d.received + q.unread == c.received + p.unread
            && if p.unread == [] then d.state.Disconnected? && q.unread == [] else |q.unread| < |p.unread|
  {
    var h, answer := SocketReady(READABLE), NextRead(p);
    EventsConserve(c, p, h);
    RunOne(c, Polled(READABLE, answer));
    HandlerLeavesTable(c, Polled(READABLE, answer));
    assert p.script != [] ==> p.script[0] != B.Fail;
    NextState(c, Polled(READABLE, answer));
  }

  /** So n readable events read a stream of n bytes to its last one, and one more finds its end and closes. */
  lemma {:induction false} WholeStreamIsRead(c: Conn, p: Peer, n: nat)
    requires Inv(c) && c.epoll.Some? && NoFailure(p.script) && |p.unread| <= n
    ensures var d := Run(c, Trace(c, p, Readables(n)));
            d.received == c.received + p.unread && PeerTrace(c, p, Readables(n)).unread == []
    ensures |p.unread| < n ==> Run(c, Trace(c, p, Readables(n))).state.Disconnected?
    decreases n
  {
    if n == 0 {
      assert c.received + [] == c.received;
    } else {
      var h := SocketReady(READABLE);
      var first := Events(c, p, h);
      var d, q := Run(c, first), PeerAfter(c, p, h);
      OneRead(c, p);
      assert Readables(n)[0] == h && Readables(n)[1..] == Readables(n - 1);
      RunAppend(c, first, Trace(d, q, Readables(n - 1)));
      WholeStreamIsRead(d, q, n - 1);
      if d.state.Disconnected? {
        RunForward(d, Trace(d, q, Readables(n - 1)));
      }
    }
  }
  lemma ConcatPrefix(a: seq<seq<Byte>>, b: seq<seq<Byte>>)
    requires a <= b
    ensures Concat(a) <= Concat(b)
  {
    assert b == a + b[|a|..];
    ConcatAppend(a, b[|a|..]);
  }

  lemma OneReadEchoes(c: Conn, p: Peer)
    requires Inv(c) && EchoTheorems.Echoed(c) && c.script == [] && c.epoll.Some? && NoFailure(p.script)
    requires Concat(c.offered) == c.received && (c.state.Connected? || p.unread == [])
    ensures var d := Run(c, Events(c, p, SocketReady(READABLE)));
            && EchoTheorems.Echoed(d) && d.script == [] && Concat(d.offered) == d.received
            && (d.state.Connected? || PeerAfter(c, p, SocketReady(READABLE)).unread == [])
  {
    var ev := Polled(READABLE, NextRead(p));
    var d := Step(c, ev);
    OneRead(c, p);
    RunOne(c, ev);
    StepEchoes(c, ev);
    NextState(c, ev);
    StepKeeps(c, ev);
    assert p.script != [] ==> p.script[0] != B.Fail;
    if p.unread == [] {
      assert d.received + [] == d.received && c.received + [] == c.received;
      ConcatPrefix(c.offered, d.offered);
    }
  }

  /** And all of it is echoed. */
  lemma {:induction false} WholeStreamIsEchoed(c: Conn, p: Peer, n: nat)
    requires Inv(c) && EchoTheorems.Echoed(c) && c.script == [] && c.epoll.Some? && NoFailure(p.script)
    requires Concat(c.offered) == c.received && (c.state.Connected? || p.unread == [])
    ensures var d := Run(c, Trace(c, p, Readables(n))); Concat(d.offered) == d.received
    decreases n
  {
    if n > 0 {
      var h := SocketReady(READABLE);
      var d, q := Run(c, Events(c, p, h)), PeerAfter(c, p, h);
      OneRead(c, p);
      OneReadEchoes(c, p);
      assert Readables(n)[0] == h && Readables(n)[1..] == Readables(n - 1);
      RunAppend(c, Events(c, p, h), Trace(d, q, Readables(n - 1)));
      WholeStreamIsEchoed(d, q, n - 1);
    }
  }

  /** From the accept on: a connection without callbacks reads and echoes the whole stream. */
  lemma AcceptedAndServed(p: Peer, answers: seq<SendAnswer>, inline: bool, n: nat)
    requires NoFailure(p.script) && |p.unread| <= n
    ensures var d := Run(Initial(answers, [], inline), Trace(Initial(answers, [], inline), p, [Accepted] + Readables(n)));
            && d.received == p.unread && (|p.unread| < n ==> d.state.Disconnected?)
            && (Sound(answers) ==> d.wire + d.output == p.unread)
  {
    var c0 := Initial(answers, [], inline);
    var c := Establish(c0);
    var hs := [Accepted] + Readables(n);
    assert hs[0] == Accepted && hs[1..] == Readables(n);
    RunOne(c0, Established);
    RunAppend(c0, [Established], Trace(c, p, Readables(n)));
    StepKeeps(c0, Established);
    WholeStreamIsRead(c, p, n);
    WholeStreamIsEchoed(c, p, n);
    assert [] + p.unread == p.unread;
    RunForward(c, Trace(c, p, Readables(n)));
  }
}
