/**
 The classes of src/connection.cpp and include/event_loop.h that work in place. Every method is proved
 to do to the connection's `View()` exactly what the machine in `ConnectionSpec` does to its value.
 */
module Connections {
  import opened Bytes
  import opened ByteBuffer
  import Spec = ConnectionSpec
  import opened EchoTheorems
  import opened Happenings

  const EPOLLIN: bv32 := 0x1
  const EPOLLOUT: bv32 := 0x4

  /** The interest mask; only the two bits below are ever set. */
  class EventHandler {
    var events: bv32

    constructor ()
      ensures Valid() && Mask() == Spec.NO_INTEREST
    {
      events := 0;
    }

    ghost predicate Valid()
      reads this
    {
      events | EPOLLIN | EPOLLOUT == EPOLLIN | EPOLLOUT
    }

    function Mask(): Spec.Interest
      reads this
    {
      Spec.Interest(events & EPOLLIN != 0, events & EPOLLOUT != 0)
    }

    method EnableReading()
      requires Valid()
      modifies this
      ensures Valid() && Mask() == old(Mask()).(read := true)
    {
      events := events | EPOLLIN;
    }

    method EnableWriting()
      requires Valid()
      modifies this
      ensures Valid() && Mask() == old(Mask()).(write := true)
    {
      events := events | EPOLLOUT;
    }

    method DisableWriting()
      requires Valid()
      modifies this
      ensures Valid() && Mask() == old(Mask()).(write := false)
    {
      events := events & !EPOLLOUT;
    }

    method DisableAll()
      modifies this
      ensures Valid() && Mask() == Spec.NO_INTEREST
    {
      events := 0;
    }

    predicate IsNoneEvent()
      requires Valid()
      reads this
      ensures IsNoneEvent() <==> Mask() == Spec.NO_INTEREST
    {
      events == 0
    }
  }

  datatype Errno = NoError | WouldBlock | BrokenPipe | OtherErrno

  /** The sending half of a socket: what the kernel has taken, and its future answers. */
  class Outbound {
    var answers: seq<Spec.SendAnswer>
    var wire: seq<Byte>
    var writeShut: bool

    constructor (answers: seq<Spec.SendAnswer>)
      ensures this.answers == answers && wire == [] && !writeShut
    {
      this.answers, wire, writeShut := answers, [], false;
    }

    /** `-1` and an error number, or how many leading bytes of `data` were taken. */
    method Send(data: seq<Byte>) returns (n: int, errno: Errno)
      modifies this
      ensures answers == Spec.Rest(old(answers)) && writeShut == old(writeShut)
      ensures match Spec.Answer(old(answers), |data|)
              case Wrote(k) => n == k && k <= |data| && wire == old(wire) + data[..k]
              case WouldBlock => n == -1 && errno == WouldBlock && wire == old(wire)
              case Broken => n == -1 && errno == BrokenPipe && wire == old(wire)
              case OtherError => n == -1 && errno == OtherErrno && wire == old(wire)
    {
      var a := Spec.Answer(answers, |data|);
      answers := Spec.Rest(answers);
      match a {
        case Wrote(k) =>
          wire := wire + data[..k];
          n, errno := k, NoError;
        case WouldBlock => n, errno := -1, Errno.WouldBlock;
        case Broken => n, errno := -1, BrokenPipe;
        case OtherError => n, errno := -1, OtherErrno;
      }
    }

    method ShutdownWrite()
      modifies this`writeShut
      ensures writeShut
    {
      writeShut := true;
    }
  }

  class Connection {
    var state: Spec.State
    const handler: EventHandler
    const input: Buffer
    const output: Buffer
    const inbound: Inbound
    const outbound: Outbound
    var registered: Option<Spec.Interest>   // the loop's table and epoll, as far as this socket goes
    var posted: seq<Spec.Task>              // the loop's pending tasks, as far as this connection goes
    var script: seq<seq<Spec.Action>>       // the write-complete callback
    const inlineRemoval: bool
    ghost var received: seq<Byte>
    ghost var offered: seq<seq<Byte>>
    ghost var accepted: seq<seq<Byte>>
    ghost var faulted: bool

    ghost function Repr(): set<object>
      reads this, input, output
    {
      {this, handler, input, output, input.storage, output.storage, inbound, outbound}
    }

    /** Only the buffers' arrays may be replaced, and only by new ones. */
    twostate predicate SameFootprint()
      reads this, input, output
    {
      && (input.storage == old(input.storage) || fresh(input.storage))
      && (output.storage == old(output.storage) || fresh(output.storage))
    }

    /** Nothing is read from the socket, and the input buffer is left alone. */
    twostate predicate SameStream()
      reads this, inbound, input
    {
      && inbound.unread == old(inbound.unread) && inbound.script == old(inbound.script) && received == old(received)
      && input.storage == old(input.storage)
      && input.readIndex == old(input.readIndex) && input.writeIndex == old(input.writeIndex)
    }

    /** The input buffer is empty, as it is whenever the loop is not in the middle of a read. */
    ghost predicate Idle()
      reads this, input
    {
      input.readIndex == CHEAP_PREPEND == input.writeIndex
    }

    ghost function PeerView(): Peer
      requires Valid()
      reads this, handler, input, output, inbound
    {
      Peer(inbound.unread, inbound.script, input.storage.Length - CHEAP_PREPEND)
    }

    ghost predicate Valid()
      reads this, handler, input, output
    {
      handler.Valid() && input.Valid() && output.Valid() && input != output && input.storage != output.storage
    }

    ghost function View(): Spec.Conn
      requires Valid()
      reads this, handler, input, output, Repr()
    {
      Spec.Conn(state, handler.Mask(), registered, input.Contents(), output.Contents(), outbound.wire,
                outbound.writeShut, received, offered, accepted, faulted, outbound.answers, script, posted, inlineRemoval)
    }

    constructor (stream: seq<Byte>, choices: seq<ReadChoice>, answers: seq<Spec.SendAnswer>,
                 script: seq<seq<Spec.Action>>, inlineRemoval: bool)
      ensures Valid() && Idle() && fresh(Repr())
      ensures View() == Spec.Initial(answers, script, inlineRemoval)
      ensures PeerView() == Peer(stream, choices, INITIAL_SIZE)
    {
      handler := new EventHandler();
      input := new Buffer();
      output := new Buffer();
      inbound := new Inbound(stream, choices);
      outbound := new Outbound(answers);
      state, registered, posted := Spec.Connecting, None, [];
      this.script, this.inlineRemoval := script, inlineRemoval;
      received, offered, accepted, faulted := [], [], [], false;
    }

    /** `updateHandler`. */
    method UpdateHandler()
      requires Valid()
      modifies this`registered
      ensures Valid() && View() == Spec.Rearm(old(View()))
    {
      if registered.Some? {
        registered := Some(handler.Mask());
      }
    }

    method EstablishConnection()
      requires Valid()
      modifies Repr()
      ensures Valid() && SameFootprint() && SameStream()
      ensures View() == Spec.Establish(old(View()))
    {
      state := Spec.Connected;
      handler.EnableReading();
      registered := Some(handler.Mask());
    }

    method DestroyConnection()
      requires Valid()
      modifies Repr()
      ensures Valid() && SameFootprint() && SameStream()
      ensures View() == Spec.Destroy(old(View()))
    {
      if state == Spec.Connected {
        state := Spec.Disconnected;
        handler.DisableAll();
        registered := None;
      }
    }

    // ---------------------------------------------------------------- API

    method Send(data: seq<Byte>, onLoop: bool)
      requires Valid()
      modifies Repr()
      ensures Valid() && SameFootprint() && SameStream()
      ensures View() == if onLoop then Spec.Perform(old(View()), Spec.Send(data))
                        else Spec.Foreign(old(View()), Spec.Send(data))
      decreases |script|, 4
    {
      if state != Spec.Connected {
        return;
      }
      if onLoop {
        SendInLoop(data);
      } else {
        posted := posted + [Spec.SendTask(data)];
      }
    }

    method Shutdown(onLoop: bool)
      requires Valid()
      modifies Repr()
      ensures Valid() && SameFootprint() && SameStream()
      ensures View() == if onLoop then Spec.Perform(old(View()), Spec.Shutdown)
                        else Spec.Foreign(old(View()), Spec.Shutdown)
    {
      if state == Spec.Connected {
        state := Spec.Disconnecting;
        if onLoop {
          ShutdownInLoop();
        } else {
          posted := posted + [Spec.ShutdownTask];
        }
      }
    }

    method ForceClose(onLoop: bool)
      requires Valid()
      modifies Repr()
      ensures Valid() && SameFootprint() && SameStream()
      ensures View() == if onLoop then Spec.Perform(old(View()), Spec.ForceClose)
                        else Spec.Foreign(old(View()), Spec.ForceClose)
    {
      if state == Spec.Connected || state == Spec.Disconnecting {
        state := Spec.Disconnecting;
        if onLoop {
          ForceCloseInLoop();
        } else {
          posted := posted + [Spec.ForceCloseTask];
        }
      }
    }

    // ---------------------------------------------------------------- on the loop thread

    method SendInLoop(data: seq<Byte>)
      requires Valid()
      modifies Repr()
      ensures Valid() && SameFootprint() && SameStream()
      ensures View() == Spec.SendInLoop(old(View()), data)
      decreases |script|, 3
    {
      if state != Spec.Connected {
        return;
      }
      var nwrote, faultError := Offer(data);
      if !faultError && |data| - nwrote > 0 {
        QueueRest(data[nwrote..]);
      }
    }

    /** The head of `sendInLoop`: the direct send if nothing is queued; says what is left to be queued. */
    method Offer(data: seq<Byte>) returns (nwrote: nat, faultError: bool)
      requires Valid() && state == Spec.Connected
      modifies Repr()
      ensures Valid() && SameFootprint() && SameStream() && nwrote <= |data|
      ensures Spec.SendInLoop(old(View()), data) ==
              if !faultError && |data| - nwrote > 0 then Spec.Enqueue(View(), data[nwrote..]) else View()
      decreases |script|, 2
    {
      offered := offered + [data];
      ghost var c := View();
      assert c == old(View()).(offered := old(offered) + [data]);
      assert data[0..] == data;
      nwrote, faultError := 0, false;
      if output.ReadableBytes() == 0 {
        nwrote, faultError := SendDirectly(data);
      } else {
        accepted := accepted + [data];
        assert View() == c.(accepted := c.accepted + [data]);
      }
    }

    /** With nothing queued, `sendInLoop` first offers the payload to the kernel. */
    method SendDirectly(data: seq<Byte>) returns (nwrote: nat, faultError: bool)
      requires Valid()
      modifies Repr()
      ensures Valid() && SameFootprint() && SameStream() && nwrote <= |data|
      ensures var c := old(View());
              match Spec.Answer(c.answers, |data|)
              case Wrote(n) =>
                && !faultError && nwrote == n
                && View() == if n == |data| then Spec.WriteComplete(Spec.Took(c, data, n)) else Spec.Took(c, data, n)
              case Broken => faultError && View() == c.(answers := Spec.Rest(c.answers), faulted := true)
              case _ => !faultError && nwrote == 0 && View() == Spec.Took(c, data, 0)
      decreases |script|, 1
    {
      var n, errno := outbound.Send(data);
      nwrote, faultError := 0, false;
      if n >= 0 {
        nwrote := n;
        accepted := accepted + [data];
        if |data| - n == 0 {
          WriteCompleteCallback();
        }
      } else if errno == BrokenPipe {
        faultError, faulted := true, true;
      } else {
        accepted := accepted + [data];
        assert data[..0] == [] && outbound.wire + [] == outbound.wire;
      }
    }

    /** The tail of `sendInLoop`: what the kernel did not take waits for the socket to become writable. */
    method QueueRest(rest: seq<Byte>)
      requires Valid() && rest != []
      modifies Repr()
      ensures Valid() && SameFootprint() && SameStream()
      ensures View() == Spec.Enqueue(old(View()), rest)
    {
      output.Append(rest);
      if !handler.Mask().write {
        handler.EnableWriting();
        UpdateHandler();
      }
    }

    method WriteCompleteCallback()
      requires Valid()
      modifies Repr()
      ensures Valid() && SameFootprint() && SameStream()
      ensures View() == Spec.WriteComplete(old(View()))
      decreases |script|, 0
    {
      if script != [] {
        var actions := script[0];
        script := script[1..];
        RunActions(actions);
      }
    }

    method RunActions(actions: seq<Spec.Action>)
      requires Valid()
      modifies Repr()
      ensures Valid() && SameFootprint() && SameStream()
      ensures View() == Spec.RunActions(old(View()), actions)
      decreases |script|, 5 + |actions|
    {
      if actions != [] {
        match actions[0] {
          case Send(data) => Send(data, true);
          case Shutdown => Shutdown(true);
          case ForceClose => ForceClose(true);
        }
        RunActions(actions[1..]);
      }
    }

    method HandleRead()
      requires Valid() && Idle()
      modifies Repr()
      ensures Valid() && Idle() && SameFootprint()
      ensures View() == Spec.HandleRead(old(View()), NextRead(old(PeerView())))
      ensures PeerView() == AfterRead(old(PeerView()))
    {
      var n := Fill();
      if n > 0 {
        MessageCallback();
      } else if n == 0 {
        HandleClose();
      } else {
        HandleError();
      }
    }

    /** The head of `handleRead`: one scatter read into the input buffer. */
    method Fill() returns (n: int)
      requires Valid() && Idle()
      modifies Repr()
      ensures Valid() && SameFootprint() && n == Outcome(old(PeerView())) && (n <= 0 ==> Idle())
      ensures PeerView() == AfterRead(old(PeerView()))
      ensures var c, p := old(View()), old(PeerView());
              View() == if n <= 0 then c else c.(received := c.received + p.unread[..n], input := c.input + p.unread[..n])
    {
      ghost var bytes := if Outcome(PeerView()) <= 0 then [] else inbound.unread[..Outcome(PeerView())];
      n := input.ReadFd(inbound);
      if n > 0 {
        received := received + bytes;
      }
      assert input.Contents() == old(input.Contents()) + bytes;
    }

    /** The echo server's message callback. */
    method MessageCallback()
      requires Valid()
      modifies Repr()
      ensures Valid() && Idle() && SameFootprint()
      ensures View() == Spec.Echo(old(View()))
      ensures inbound.unread == old(inbound.unread) && inbound.script == old(inbound.script)
      ensures input.storage == old(input.storage)
    {
      var message := input.RetrieveAllAsString();
      Send(message, true);
    }

    method HandleWrite()
      requires Valid()
      modifies Repr()
      ensures Valid() && SameFootprint() && SameStream()
      ensures View() == Spec.HandleWrite(old(View()))
    {
      if handler.Mask().write {
        var n, _ := outbound.Send(output.storage[output.readIndex..output.writeIndex]);
        if n > 0 {
          output.Retrieve(n);
          if output.ReadableBytes() == 0 {
            handler.DisableWriting();
            UpdateHandler();
            FinishWriting();
          }
        }
      }
    }

    method FinishWriting()
      requires Valid()
      modifies Repr()
      ensures Valid() && SameFootprint() && SameStream()
      ensures View() == Spec.Finish(old(View()))
    {
      WriteCompleteCallback();
      if state == Spec.Disconnecting {
        ShutdownInLoop();
      }
    }

    method HandleClose()
      requires Valid()
      modifies Repr()
      ensures Valid() && SameFootprint() && SameStream()
      ensures View() == Spec.HandleClose(old(View()))
    {
      state := Spec.Disconnected;
      handler.DisableAll();
    }

    /** The error callback asks the server to remove the connection; with one loop that happens inline. */
    method HandleError()
      requires Valid()
      modifies Repr()
      ensures Valid() && SameFootprint() && SameStream()
      ensures View() == Spec.HandleError(old(View()))
    {
      if inlineRemoval {
        DestroyConnection();
      }
    }

    method ShutdownInLoop()
      requires Valid()
      modifies outbound
      ensures Valid() && View() == Spec.ShutdownInLoop(old(View()))
    {
      if !handler.Mask().write {
        outbound.ShutdownWrite();
      }
    }

    method ForceCloseInLoop()
      requires Valid()
      modifies Repr()
      ensures Valid() && SameFootprint() && SameStream()
      ensures View() == Spec.ForceCloseInLoop(old(View()))
    {
      if state == Spec.Connected || state == Spec.Disconnecting {
        HandleClose();
      }
    }

    // ---------------------------------------------------------------- dispatch

    /** `EventHandler::handleEvents`. */
    method HandleEvents(ready: Spec.Ready)
      requires Valid() && Idle() && registered.Some?
      modifies Repr()
      ensures Valid() && Idle() && SameFootprint()
      ensures var c, p := old(View()), old(PeerView());
              && View() == Spec.HandleEvents(c, ready, if Reads(c, ready) then NextRead(p) else Spec.Failed)
              && PeerView() == if Reads(c, ready) then AfterRead(p) else p
    {
      ghost var p := PeerView();
      if ready.hup && !ready.readable {
        HandleClose();
        assert PeerView() == p;
        return;
      }
      if ready.err {
        HandleError();
      }
      assert PeerView() == p;
      if ready.readable || ready.urgent {
        HandleRead();
        p := AfterRead(p);
      }
      assert PeerView() == p;
      if ready.writable {
        HandleWrite();
      }
      assert PeerView() == p;
    }

    /** One task of `doPendingTasks`. */
    method RunTask(t: Spec.Task)
      requires Valid()
      modifies Repr()
      ensures Valid() && SameFootprint() && SameStream()
      ensures View() == Spec.RunTask(old(View()), t)
    {
      match t {
        case SendTask(data) => SendInLoop(data);
        case ShutdownTask => ShutdownInLoop();
        case ForceCloseTask => ForceCloseInLoop();
        case DestroyTask => DestroyConnection();
      }
    }

    /** `doPendingTasks`: swaps the list out and runs the batch. */
    method DoPendingTasks()
      requires Valid()
      modifies Repr()
      ensures Valid() && SameFootprint() && SameStream()
      ensures View() == Spec.Run(old(View()), RunPostedTimes(|old(posted)|))
    {
      ghost var before := View();
      var tasks := posted;
      posted := [];
      for i := 0 to |tasks|
        invariant Valid() && SameFootprint() && SameStream()
        invariant RunBatch(View(), tasks[i..]) == RunBatch(before.(tasks := []), tasks)
      {
        RunTask(tasks[i]);
        assert tasks[i..][1..] == tasks[i + 1..];
      }
      BatchIsRun(before);
    }

    /** One thing that happens to the connection. */
    method Turn(happening: Happening)
      requires Valid() && Idle()
      modifies Repr()
      ensures Valid() && Idle() && SameFootprint()
      ensures View() == Spec.Run(old(View()), Events(old(View()), old(PeerView()), happening))
      ensures PeerView() == PeerAfter(old(View()), old(PeerView()), happening)
    {
      match happening {
        case Accepted =>
          RunOne(View(), Spec.Established);
          if state == Spec.Connecting {
            EstablishConnection();
          }
        case SocketReady(ready) =>
          if registered.Some? {
            ghost var answer := if Reads(View(), ready) then NextRead(PeerView()) else Spec.Failed;
            RunOne(View(), Spec.Polled(ready, answer));
            HandleEvents(ready);
          }
        case Api(action, onLoop) =>
          RunOne(View(), if onLoop then Spec.LoopAction(action) else Spec.ForeignAction(action));
          match action {
            case Send(data) => Send(data, onLoop);
            case Shutdown => Shutdown(onLoop);
            case ForceClose => ForceClose(onLoop);
          }
        case RemovedElsewhere =>
          RunOne(View(), Spec.PostDestroy);
          posted := posted + [Spec.DestroyTask];
        case TasksDue =>
          DoPendingTasks();
      }
    }

    /** A whole run in place is a run of the machine, happening by happening. */
    method Serve(happenings: seq<Happening>)
      requires Valid() && Idle()
      modifies Repr()
      ensures Valid() && Idle() && SameFootprint()
      ensures View() == Spec.Run(old(View()), Trace(old(View()), old(PeerView()), happenings))
      ensures PeerView() == PeerTrace(old(View()), old(PeerView()), happenings)
    {
      ghost var c, p := View(), PeerView();
      for i := 0 to |happenings|
        invariant Valid() && Idle() && SameFootprint()
        invariant View() == Spec.Run(c, Trace(c, p, happenings[..i])) && PeerView() == PeerTrace(c, p, happenings[..i])
      {
        ghost var trace := Trace(c, p, happenings[..i]);
        TraceAppend(c, p, happenings[..i], happenings[i]);
        RunAppend(c, trace, Events(View(), PeerView(), happenings[i]));
        assert happenings[..i + 1] == happenings[..i] + [happenings[i]];
        Turn(happenings[i]);
      }
      assert happenings[..|happenings|] == happenings;
    }
  }

  function RunBatch(c: Spec.Conn, batch: seq<Spec.Task>): Spec.Conn
    decreases |batch|
  {
    if batch == [] then c else RunBatch(Spec.RunTask(c, batch[0]), batch[1..])
  }

  /** Running the swapped-out batch is running the posted tasks one at a time. */
  lemma {:induction false} BatchIsRun(c: Spec.Conn)
    ensures Spec.Run(c, RunPostedTimes(|c.tasks|)) == RunBatch(c.(tasks := []), c.tasks)
    decreases |c.tasks|
  {
    if c.tasks != [] {
      var next := Spec.Step(c, Spec.RunPosted);
      TaskKeepsTasks(c, c.tasks[0], []);
      TaskKeepsTasks(c, c.tasks[0], c.tasks[1..]);
      assert RunPostedTimes(|c.tasks|)[1..] == RunPostedTimes(|next.tasks|);
      BatchIsRun(next);
    }
  }

  // What runs on the loop thread neither reads nor changes the list of posted tasks.

  lemma {:induction false} SendKeepsTasks(c: Spec.Conn, data: seq<Byte>, tasks: seq<Spec.Task>)
    ensures Spec.SendInLoop(c.(tasks := tasks), data) == Spec.SendInLoop(c, data).(tasks := tasks)
    decreases |c.script|, 1
  {
    if c.state.Connected? {
      var d := c.(offered := c.offered + [data]);
      if c.output != [] {
        EnqueueKeepsTasks(d.(accepted := d.accepted + [data]), data, tasks);
      } else {
        match Spec.Answer(c.answers, |data|) {
          case Wrote(n) =>
            if n == |data| {
              CompleteKeepsTasks(Spec.Took(d, data, n), tasks);
            } else {
              EnqueueKeepsTasks(Spec.Took(d, data, n), data[n..], tasks);
            }
          case Broken =>
          case _ => EnqueueKeepsTasks(Spec.Took(d, data, 0), data, tasks);
        }
      }
    }
  }

  lemma EnqueueKeepsTasks(c: Spec.Conn, rest: seq<Byte>, tasks: seq<Spec.Task>)
    ensures Spec.Enqueue(c.(tasks := tasks), rest) == Spec.Enqueue(c, rest).(tasks := tasks)
  {
  }

  lemma {:induction false} CompleteKeepsTasks(c: Spec.Conn, tasks: seq<Spec.Task>)
    ensures Spec.WriteComplete(c.(tasks := tasks)) == Spec.WriteComplete(c).(tasks := tasks)
    decreases |c.script|, 0
  {
    if c.script != [] {
      ActionsKeepTasks(c.(script := c.script[1..]), c.script[0], tasks);
    }
  }

  lemma {:induction false} ActionsKeepTasks(c: Spec.Conn, actions: seq<Spec.Action>, tasks: seq<Spec.Task>)
    ensures Spec.RunActions(c.(tasks := tasks), actions) == Spec.RunActions(c, actions).(tasks := tasks)
    decreases |c.script|, 3 + |actions|
  {
    if actions != [] {
      if actions[0].Send? {
        SendKeepsTasks(c, actions[0].data, tasks);
      }
      assert Spec.Perform(c.(tasks := tasks), actions[0]) == Spec.Perform(c, actions[0]).(tasks := tasks);
      ActionsKeepTasks(Spec.Perform(c, actions[0]), actions[1..], tasks);
    }
  }

  lemma TaskKeepsTasks(c: Spec.Conn, t: Spec.Task, tasks: seq<Spec.Task>)
    ensures Spec.RunTask(c.(tasks := tasks), t) == Spec.RunTask(c, t).(tasks := tasks)
  {
    if t.SendTask? {
      SendKeepsTasks(c, t.data, tasks);
    }
  }

  /**
   The echo server's promise, on the objects themselves: whatever the peer sends, however it is chunked, the bytes read
   are the peer's stream up to what is still unread, and the bytes sent back plus those in the output buffer are
   the bytes read so far.
   */
  method EchoOneConnection(stream: seq<Byte>, choices: seq<ReadChoice>, answers: seq<Spec.SendAnswer>,
                           script: seq<seq<Spec.Action>>, inline: bool, happenings: seq<Happening>)
    returns (conn: Connection)
    requires forall k :: 0 <= k < |script| ==> NoSends(script[k])
    requires forall h :: h in happenings ==> QuietHappening(h)
    ensures conn.Valid()
    ensures var c, p := Spec.Initial(answers, script, inline), Peer(stream, choices, INITIAL_SIZE);
            && conn.View() == Spec.Run(c, Trace(c, p, happenings))
            && conn.received + PeerTrace(c, p, happenings).unread == stream
    ensures conn.state == Spec.Connected ==>
              (conn.outbound.wire + conn.output.Contents() == conn.received <==> !conn.faulted)
    ensures !conn.faulted ==> conn.outbound.wire + conn.output.Contents() <= conn.received <= stream
    ensures Spec.Broken !in answers ==> !conn.faulted
    ensures conn.input.Contents() == []
  {
    conn := new Connection(stream, choices, answers, script, inline);
    ghost var c, p := conn.View(), conn.PeerView();
    conn.Serve(happenings);
    TraceQuiet(c, p, happenings);
    EchoEndToEnd(answers, script, inline, Trace(c, p, happenings));
    StreamConserved(c, p, happenings);
    assert [] + stream == stream;
  }

  /** After the accept, as many readable events as the stream has bytes read all of it, however the kernel cuts it. */
  method EchoWholeStream(stream: seq<Byte>, choices: seq<ReadChoice>, answers: seq<Spec.SendAnswer>, inline: bool, n: nat)
    returns (conn: Connection)
    requires NoFailure(choices) && |stream| <= n
    ensures conn.Valid() && conn.received == stream
    ensures |stream| < n ==> conn.state == Spec.Disconnected
    ensures Spec.Broken !in answers ==> conn.outbound.wire + conn.output.Contents() == stream
  {
    var happenings := [Accepted] + Readables(n);
    conn := EchoOneConnection(stream, choices, answers, [], inline, happenings);
    AcceptedAndServed(Peer(stream, choices, INITIAL_SIZE), answers, inline, n);
  }
}
