/**
 Reactor_v4 with its sockets. The IO thread runs `receive` and `send` itself, on blocking sockets: in the middle of
 them it neither polls nor runs functors. So the pipeline of `Pipeline` is here split where the IO thread may
 have to wait for a peer: it enters `receive` on a readable connection and leaves it once a line is there
 (`SocketIO.ReadlineFor`), and it leaves `send` once the peer's window has room for the rest of the message.
 */
module LineServer {
  import opened Bytes
  import S = SocketIO
  import P = Pipeline
  import Order = PipelineOrder
  import Pool = TaskPool
  import Loop = TaskHandoff

  datatype Message = Message(conn: nat, text: seq<Byte>)

  /** `room`: how much the kernel and the peer will still take before the peer reads again. */
  datatype Socket = Socket(unread: seq<Byte>, ended: bool, room: nat, wire: seq<Byte>)

  datatype Io = Free | Receiving(conn: nat) | Sending

  datatype Server = Server(pipe: P.Pipe<Message>, io: Io, sockets: seq<Socket>)

  datatype Act =
    | Connect(room: nat)                   // the outside: a new connection ...
    | Arrive(conn: nat, bytes: seq<Byte>)  // ... bytes from its peer ...
    | End(conn: nat)                       // ... the end of its stream ...
    | Read(conn: nat, n: nat)              // ... and the peer reading
    | Enter(conn: nat)                     // handleMessage: epoll has reported the connection
    | Return                               // readline has its line; onMessage calls addTask
    | BeginSend                            // the next functor of the batch
    | FinishSend
    | Step(act: P.Act<Message>)            // everything else

  ghost function Initial(capacity: nat, workers: nat): Server {
    Server(P.Initial(capacity, workers), Free, [])
  }

  /** The message that `receive` makes of the stream. */
  function Next(conn: nat, stream: seq<Byte>): Message
    requires S.HasLine(stream, S.RECEIVE_SIZE)
  {
    Message(conn, S.CString(S.Line(stream, S.RECEIVE_SIZE)))
  }

  /** There is a line to return. */
  predicate LineThere(s: Server) {
    s.io.Receiving? && s.io.conn < |s.sockets| && S.HasLine(s.sockets[s.io.conn].unread, S.RECEIVE_SIZE)
  }

  /** The loop is running the batch of functors. */
  ghost predicate InBatch(p: P.Pipe<Message>) { P.IoFree(p) && p.loop.pc.Running? && |p.loop.batch| > 0 }

  /** The head of the batch fits its connection's window. */
  ghost predicate RoomThere(s: Server) {
    && InBatch(s.pipe)
    && var m := s.pipe.loop.batch[0]; m.conn < |s.sockets| && |m.text| <= s.sockets[m.conn].room
  }

  ghost predicate Enabled(s: Server, a: Act) {
    match a
    case Connect(_) => true
    case Arrive(c, _) => c < |s.sockets| && !s.sockets[c].ended
    case End(c) => c < |s.sockets|
    case Read(c, _) => c < |s.sockets|
    case Enter(c) =>
      s.io.Free? && P.IoFree(s.pipe) && s.pipe.loop.pc.Dispatching? && c < |s.sockets| && s.sockets[c].unread != []
    case Return => LineThere(s) && P.IoFree(s.pipe) && s.pipe.loop.pc.Dispatching?
    case BeginSend => s.io.Free? && InBatch(s.pipe)
    case FinishSend => s.io.Sending? && RoomThere(s)
    case Step(b) =>
      && P.Enabled(s.pipe, b)
      && (b.Work? || b.Respond? || b.Ring? || (s.io.Free? && !b.Receive? && b != P.Turn(Loop.RunOne)))
  }

  ghost function Put(s: Server, c: nat, x: Socket): Server
    requires c < |s.sockets|
  {
    s.(sockets := s.sockets[c := x])
  }

  ghost function Apply(s: Server, a: Act): Server
    requires Enabled(s, a)
  {
    match a
    case Connect(room) => s.(sockets := s.sockets + [Socket([], false, room, [])])
    case Arrive(c, bytes) => Put(s, c, s.sockets[c].(unread := s.sockets[c].unread + bytes))
    case End(c) => Put(s, c, s.sockets[c].(ended := true))
    case Read(c, n) => Put(s, c, s.sockets[c].(room := s.sockets[c].room + n))
    case Enter(c) => s.(io := Receiving(c))
    case Return =>
      var c, x := s.io.conn, s.sockets[s.io.conn];
      Put(s, c, x.(unread := x.unread[|S.Line(x.unread, S.RECEIVE_SIZE)|..])).(
        io := Free, pipe := P.Apply(s.pipe, P.Receive(Next(c, x.unread))))
    case BeginSend => s.(io := Sending)
    case FinishSend =>
      var m := s.pipe.loop.batch[0];
      var x := s.sockets[m.conn];
      Put(s, m.conn, x.(room := x.room - |m.text|, wire := x.wire + m.text)).(
        io := Free, pipe := P.Apply(s.pipe, P.Turn(Loop.RunOne)))
    case Step(b) => s.(pipe := P.Apply(s.pipe, b))
  }

  ghost predicate ValidRun(s: Server, acts: seq<Act>)
    decreases |acts|
  {
    |acts| > 0 ==> Enabled(s, acts[0]) && ValidRun(Apply(s, acts[0]), acts[1..])
  }

  ghost function Run(s: Server, acts: seq<Act>): Server
    requires ValidRun(s, acts)
    decreases |acts|
  {
    if |acts| == 0 then s else Run(Apply(s, acts[0]), acts[1..])
  }

  // ---------------------------------------------------------------- it is the pipeline

  /** What a step does to the pipeline: nothing, or one of the pipeline's own steps. */
  ghost function PipeActs(s: Server, a: Act): seq<P.Act<Message>>
    requires Enabled(s, a)
  {
    match a
    case Return => [P.Receive(Next(s.io.conn, s.sockets[s.io.conn].unread))]
    case FinishSend => [P.Turn(Loop.RunOne)]
    case Step(b) => [b]
    case _ => []
  }

  ghost function PipeRun(s: Server, acts: seq<Act>): seq<P.Act<Message>>
    requires ValidRun(s, acts)
    decreases |acts|
  {
    if |acts| == 0 then [] else PipeActs(s, acts[0]) + PipeRun(Apply(s, acts[0]), acts[1..])
  }

  /**
   Every run of the server is a run of the pipeline, so what is proved there of every run (conservation, deadlock
   freedom of the queue, order and its limits) holds here.
   */
  lemma {:induction false} RunsThePipeline(s: Server, acts: seq<Act>)
    requires ValidRun(s, acts)
    ensures P.ValidRun(s.pipe, PipeRun(s, acts)) && P.Run(s.pipe, PipeRun(s, acts)) == Run(s, acts).pipe
    decreases |acts|
  {
    if |acts| > 0 {
      var d, later := Apply(s, acts[0]), acts[1..];
      RunsThePipeline(d, later);
      var first := PipeActs(s, acts[0]);
      if first == [] {
        assert first + PipeRun(d, later) == PipeRun(d, later);
      } else {
        assert (first + PipeRun(d, later))[1..] == PipeRun(d, later);
      }
    }
  }
  // ---------------------------------------------------------------- the invariant

  ghost predicate Inv(s: Server) {
    && P.Inv(s.pipe)
    && (s.io.Receiving? ==> P.IoFree(s.pipe) && s.pipe.loop.pc.Dispatching? && s.io.conn < |s.sockets|)
    && (s.io.Sending? ==> InBatch(s.pipe))
    && (forall m :: m in s.pipe.received ==> m.conn < |s.sockets|)
  }

  /** What the workers do leaves the IO thread where it is. */
  lemma WorkersLeaveIo(p: P.Pipe<Message>, b: P.Act<Message>)
    requires P.Enabled(p, b) && P.IoFree(p) && (b.Work? || b.Respond? || b.Ring?)
    ensures var d := P.Apply(p, b); P.IoFree(d) && d.loop.pc == p.loop.pc && d.loop.batch == p.loop.batch
    ensures InBatch(p) ==> InBatch(P.Apply(p, b))
  {
    match b {
      case Work(w) => assert Pool.Apply(p.pool, w).producers[0] == p.pool.producers[0];
      case _ =>
    }
  }

  lemma OwnStepsSendNothing(p: P.Pipe<Message>, b: P.Act<Message>)
    requires P.Enabled(p, b) && !b.Receive? && b != P.Turn(Loop.RunOne)
    ensures P.Apply(p, b).received == p.received && P.Apply(p, b).loop.executed == p.loop.executed
  {
  }

  lemma StepKeeps(s: Server, b: P.Act<Message>)
    requires Inv(s) && Enabled(s, Step(b))
    ensures Inv(Apply(s, Step(b)))
  {
    assert P.Inv(P.Apply(s.pipe, b)) by { P.ApplyKeeps(s.pipe, b); }
    OwnStepsSendNothing(s.pipe, b);
    if !s.io.Free? {
      WorkersLeaveIo(s.pipe, b);
    } else {
      assert Apply(s, Step(b)).io.Free?;
    }
  }

  lemma ApplyKeeps(s: Server, a: Act)
    requires Inv(s) && Enabled(s, a)
    ensures Inv(Apply(s, a))
  {
    match a {
      case Return => P.ApplyKeeps(s.pipe, P.Receive(Next(s.io.conn, s.sockets[s.io.conn].unread)));
      case FinishSend => P.ApplyKeeps(s.pipe, P.Turn(Loop.RunOne));
      case Step(b) => StepKeeps(s, b);
      case _ =>
    }
  }

  lemma {:induction false} RunKeeps(s: Server, acts: seq<Act>)
    requires Inv(s) && ValidRun(s, acts)
    ensures Inv(Run(s, acts))
    decreases |acts|
  {
    if |acts| > 0 {
      ApplyKeeps(s, acts[0]);
      RunKeeps(Apply(s, acts[0]), acts[1..]);
    }
  }

  lemma InitialInv(capacity: nat, workers: nat)
    ensures Inv(Initial(capacity, workers))
  {
    P.InitialInv<Message>(capacity, workers);
  }

  // ---------------------------------------------------------------- getting through

  /** What somebody else has to cause: peers, epoll reporting a connection, spurious wakeups and timeouts. */
  ghost predicate Outside(a: Act) {
    a.Connect? || a.Arrive? || a.End? || a.Read? || a.Enter? || (a.Step? && P.Unforced(a.act))
  }

  ghost function CountOutside(acts: seq<Act>): nat {
    if |acts| == 0 then 0 else (if Outside(acts[0]) then 1 else 0) + CountOutside(acts[1..])
  }

  ghost predicate Forced(s: Server, a: Act) { Enabled(s, a) && !Outside(a) }

  ghost function IoLeft(io: Io): nat { if io.Free? then 1 else if io.Sending? then 0 else 42 }

  ghost function Left(s: Server): nat
    requires |s.pipe.pool.producers| == 1
  {
    2 * P.StepsLeft(s.pipe) + IoLeft(s.io)
  }

  lemma ReturnDrops(s: Server)
    requires Inv(s) && Enabled(s, Return)
    ensures Inv(Apply(s, Return)) && Left(Apply(s, Return)) < Left(s)
  {
    ApplyKeeps(s, Return);
    P.StepsLeftDrops(s.pipe, P.Receive(Next(s.io.conn, s.sockets[s.io.conn].unread)));
  }

  lemma FinishDrops(s: Server)
    requires Inv(s) && Enabled(s, FinishSend)
    ensures Inv(Apply(s, FinishSend)) && Left(Apply(s, FinishSend)) < Left(s)
  {
    ApplyKeeps(s, FinishSend);
    P.StepsLeftDrops(s.pipe, P.Turn(Loop.RunOne));
  }

  lemma LeftDrops(s: Server, a: Act)
    requires Inv(s) && Enabled(s, a)
    ensures Inv(Apply(s, a)) && Left(Apply(s, a)) + 1 <= Left(s) + (if Outside(a) then 42 else 0)
  {
    match a {
      case Return => ReturnDrops(s);
      case FinishSend => FinishDrops(s);
      case Step(b) =>
        ApplyKeeps(s, a);
        P.StepsLeftDrops(s.pipe, b);
      case _ => ApplyKeeps(s, a);
    }
  }

  lemma {:induction false} RunBounded(s: Server, acts: seq<Act>)
    requires Inv(s) && ValidRun(s, acts)
    ensures Inv(Run(s, acts)) && |acts| + Left(Run(s, acts)) <= Left(s) + 42 * CountOutside(acts)
    decreases |acts|
  {
    if |acts| > 0 {
      LeftDrops(s, acts[0]);
      RunBounded(Apply(s, acts[0]), acts[1..]);
    }
  }

  /** Every message received has been sent. */
  ghost predicate Done(s: Server) {
    s.io.Free? && multiset(s.pipe.loop.executed) == multiset(s.pipe.received)
  }

  /** The IO thread waits for a peer: in `receive` for the rest of a line, or in `send` for room. */
  ghost predicate Waits(s: Server) {
    (s.io.Receiving? && !LineThere(s)) || (s.io.Sending? && !RoomThere(s))
  }

  /** The message `receive` is about to return. */
  ghost function Coming(s: Server): seq<Message> {
    if LineThere(s) then [Next(s.io.conn, s.sockets[s.io.conn].unread)] else []
  }

  /** There is room in the queue and a worker, and the eventfd counter cannot overflow. */
  ghost predicate InService(s: Server) {
    0 < s.pipe.pool.capacity && 0 < |s.pipe.pool.workers| && |s.pipe.received + Coming(s)| <= Loop.COUNTER_MAX
  }

  lemma PipeStep(p: P.Pipe<Message>) returns (b: P.Act<Message>)
    requires P.Inv(p) && 0 < p.pool.capacity && 0 < |p.pool.workers| && |p.received| <= Loop.COUNTER_MAX
    requires multiset(p.loop.executed) != multiset(p.received)
    ensures P.Enabled(p, b) && !P.Unforced(b) && !b.Receive?
    ensures b == P.Turn(Loop.RunOne) ==> InBatch(p)
  {
    if P.Quiescent(p) {
      P.QuiescentIsDone(p);
      assert false;
    } else {
      b := P.SomeStep(p);
    }
  }

  lemma SomeStep(s: Server) returns (a: Act)
    requires Inv(s) && InService(s) && !Done(s) && !Waits(s)
    ensures Forced(s, a)
  {
    match s.io {
      case Receiving(c) => a := Return;
      case Sending => a := FinishSend;
      case Free =>
        var b := PipeStep(s.pipe);
        a := if b == P.Turn(Loop.RunOne) then BeginSend else Step(b);
    }
  }

  lemma {:induction false} RunShape(s: Server, acts: seq<Act>)
    requires ValidRun(s, acts)
    ensures Run(s, acts).pipe.pool.capacity == s.pipe.pool.capacity
    ensures |Run(s, acts).pipe.pool.workers| == |s.pipe.pool.workers|
    decreases |acts|
  {
    RunsThePipeline(s, acts);
    P.RunShape(s.pipe, PipeRun(s, acts));
  }

  /**
   What the server achieves, whatever the scheduling: the steps of a run are bounded but for those the outside
   causes (42 for each), and some thread has a step of its own until every message received has been sent, or the IO
   thread waits for a peer in `receive` or in `send`. When it is blocked in `addTask`, that thread is a worker.
   */
  lemma RunningServer(capacity: nat, workers: nat, acts: seq<Act>)
    requires 0 < capacity && 0 < workers && ValidRun(Initial(capacity, workers), acts)
    requires |Run(Initial(capacity, workers), acts).pipe.received| < Loop.COUNTER_MAX
    ensures |acts| <= 10 * workers + 3 + 42 * CountOutside(acts)
    ensures var s := Run(Initial(capacity, workers), acts);
            && (Done(s) || Waits(s) || exists a :: Forced(s, a))
            && (s.pipe.pool.producers != [] && s.pipe.pool.producers[0].Blocked? ==>
                  exists b :: Enabled(s, Step(b)) && (b.Work? || b.Respond? || b.Ring?))
  {
    var s0 := Initial(capacity, workers);
    InitialInv(capacity, workers);
    RunBounded(s0, acts);
    RunShape(s0, acts);
    P.InitialStepsLeft<Message>(capacity, workers);
    var s := Run(s0, acts);
    if !Done(s) && !Waits(s) {
      var a := SomeStep(s);
    }
    if s.pipe.pool.producers[0].Blocked? {
      var b := P.BlockedIoMeansWorkerMoves(s.pipe);
      assert Enabled(s, Step(b));
    }
  }

  // ---------------------------------------------------------------- exactly when

  /** The bytes of the messages for one connection, in order. */
  function Text(ms: seq<Message>, c: nat): seq<Byte> {
    if ms == [] then [] else (if ms[0].conn == c then ms[0].text else []) + Text(ms[1..], c)
  }

  lemma {:induction false} TextAppend(a: seq<Message>, b: seq<Message>, c: nat)
    ensures Text(a + b, c) == Text(a, c) + Text(b, c)
  {
    if a == [] {
      assert a + b == b;
    } else {
      TextAppend(a[1..], b, c);
      assert (a + b)[1..] == a[1..] + b;
      Associate(if a[0].conn == c then a[0].text else [], Text(a[1..], c), Text(b, c));
    }
  }

  lemma TextSnoc(ms: seq<Message>, m: Message, c: nat)
    ensures Text(ms + [m], c) == if m.conn == c then Text(ms, c) + m.text else Text(ms, c)
  {
    TextAppend(ms, [m], c);
    assert [m][1..] == [] && m.text + [] == m.text;
  }

  function Load(ms: seq<Message>, c: nat): nat { |Text(ms, c)| }

  lemma LoadAppend(a: seq<Message>, b: seq<Message>, c: nat)
    ensures Load(a + b, c) == Load(a, c) + Load(b, c)
  {
    TextAppend(a, b, c);
  }

  lemma LoadWithout(ms: seq<Message>, j: nat, c: nat) returns (rest: seq<Message>)
    requires j < |ms|
    ensures multiset(ms) == multiset(rest) + multiset{ms[j]} && |rest| + 1 == |ms|
    ensures Load(ms, c) == Load(rest, c) + Load([ms[j]], c)
  {
    rest := ms[..j] + ms[j + 1..];
    assert ms == ms[..j] + ([ms[j]] + ms[j + 1..]);
    LoadAppend(ms[..j], [ms[j]] + ms[j + 1..], c);
    LoadAppend([ms[j]], ms[j + 1..], c);
    LoadAppend(ms[..j], ms[j + 1..], c);
  }

  lemma TakeAway<T>(x: multiset<T>, y: multiset<T>, t: T)
    requires x + multiset{t} <= y + multiset{t}
    ensures x <= y && (x + multiset{t} == y + multiset{t} ==> x == y)
  {
    forall e ensures x[e] <= y[e] {
      assert (x + multiset{t})[e] <= (y + multiset{t})[e];
    }
    if x + multiset{t} == y + multiset{t} {
      forall e ensures x[e] == y[e] {
        assert (x + multiset{t})[e] == (y + multiset{t})[e];
      }
    }
  }

  /** The order of messages does not matter for their bytes. */
  lemma {:induction false} LoadWithin(a: seq<Message>, b: seq<Message>, c: nat)
    requires multiset(a) <= multiset(b)
    ensures Load(a, c) <= Load(b, c)
    ensures multiset(a) == multiset(b) ==> Load(a, c) == Load(b, c)
    decreases |a|
  {
    if a == [] {
      assert multiset(a) == multiset(b) ==> |multiset(b)| == 0;
    } else {
      assert a[0] in multiset(a);
      var j :| 0 <= j < |b| && b[j] == a[0];
      var rest := LoadWithout(b, j, c);
      var others := LoadWithout(a, 0, c);
      TakeAway(multiset(others), multiset(rest), a[0]);
      LoadWithin(others, rest, c);
    }
  }

  /** All that has been received for a connection and not been sent fits its window. */
  ghost predicate Fits(s: Server, c: nat)
    requires c < |s.sockets|
  {
    Load(s.pipe.received + Coming(s), c) <= s.sockets[c].room + Load(s.pipe.loop.executed, c)
  }

  /** If the IO thread is in `receive`, the line is there; and every peer has room for what it will be sent. */
  ghost predicate CanDeliver(s: Server) {
    && (s.io.Receiving? ==> LineThere(s))
    && forall c :: 0 <= c < |s.sockets| ==> Fits(s, c)
  }

  lemma ReturnKeepsFate(s: Server)
    requires Inv(s) && Enabled(s, Return)
    ensures CanDeliver(Apply(s, Return)) <==> CanDeliver(s)
  {
    var d := Apply(s, Return);
    assert d.pipe.received + Coming(d) == s.pipe.received + Coming(s);
    forall c | 0 <= c < |s.sockets| ensures Fits(d, c) <==> Fits(s, c) {
      assert d.sockets[c].room == s.sockets[c].room;
    }
  }

  lemma FinishKeepsFate(s: Server)
    requires Inv(s) && Enabled(s, FinishSend)
    ensures CanDeliver(Apply(s, FinishSend)) <==> CanDeliver(s)
  {
    var d, m := Apply(s, FinishSend), s.pipe.loop.batch[0];
    assert d.pipe.received + Coming(d) == s.pipe.received + Coming(s);
    forall c | 0 <= c < |s.sockets| ensures Fits(d, c) <==> Fits(s, c) {
      TextSnoc(s.pipe.loop.executed, m, c);
    }
  }

  lemma OtherKeepsFate(s: Server, d: Server)
    requires d.sockets == s.sockets && d.pipe.received == s.pipe.received
    requires d.pipe.loop.executed == s.pipe.loop.executed && (d.io == s.io || (!d.io.Receiving? && !s.io.Receiving?))
    ensures CanDeliver(d) <==> CanDeliver(s)
  {
    assert Coming(d) == Coming(s);
    forall c | 0 <= c < |s.sockets| ensures Fits(d, c) <==> Fits(s, c) {
    }
  }

  /** No step of the server's own changes what will become of it. */
  lemma ForcedKeepsFate(s: Server, a: Act)
    requires Inv(s) && Forced(s, a)
    ensures CanDeliver(Apply(s, a)) <==> CanDeliver(s)
  {
    match a {
      case Return => ReturnKeepsFate(s);
      case FinishSend => FinishKeepsFate(s);
      case BeginSend => OtherKeepsFate(s, Apply(s, a));
      case Step(b) =>
        assert b != P.Turn(Loop.RunOne);
        OwnStepsSendNothing(s.pipe, b);
        OtherKeepsFate(s, Apply(s, a));
    }
  }
  lemma DoneWasPossible(s: Server)
    requires Inv(s) && Done(s)
    ensures CanDeliver(s)
  {
    forall c | 0 <= c < |s.sockets| ensures Fits(s, c) {
      LoadWithin(s.pipe.received, s.pipe.loop.executed, c);
      assert s.pipe.received + [] == s.pipe.received;
    }
  }

  lemma HeadWithin<T>(batch: seq<T>, executed: seq<T>, received: seq<T>)
    requires |batch| > 0 && multiset(batch) + multiset(executed) <= multiset(received)
    ensures multiset(executed + [batch[0]]) <= multiset(received) && batch[0] in received
  {
    assert batch == [batch[0]] + batch[1..];
    assert batch[0] in multiset(received);
  }

  /** A message about to be sent is one of those received and not sent. */
  lemma HeadIsOwed(p: P.Pipe<Message>)
    requires P.Inv(p) && |p.loop.batch| > 0
    ensures multiset(p.loop.executed + [p.loop.batch[0]]) <= multiset(p.received) && p.loop.batch[0] in p.received
  {
    P.Conserved(p);
    HeadWithin(p.loop.batch, p.loop.executed, p.received);
  }

  lemma WaitingIsFinal(s: Server)
    requires Inv(s) && Waits(s)
    ensures !CanDeliver(s)
  {
    if s.io.Sending? {
      var m := s.pipe.loop.batch[0];
      HeadIsOwed(s.pipe);
      OwedLoad(s.pipe.loop.executed, m, s.pipe.received);
      assert s.pipe.received + [] == s.pipe.received;
      assert !Fits(s, m.conn);
    }
  }

  lemma OwedLoad(executed: seq<Message>, m: Message, received: seq<Message>)
    requires multiset(executed + [m]) <= multiset(received)
    ensures Load(executed, m.conn) + |m.text| <= Load(received, m.conn)
  {
    TextSnoc(executed, m, m.conn);
    LoadWithin(executed + [m], received, m.conn);
  }

  /** A run with nothing from outside. */
  ghost predicate OwnRun(s: Server, acts: seq<Act>) {
    ValidRun(s, acts) && forall k :: 0 <= k < |acts| ==> !Outside(acts[k])
  }

  ghost predicate SameFate(s: Server, d: Server) {
    Inv(d) && (CanDeliver(d) <==> CanDeliver(s)) && (InService(s) ==> InService(d))
  }

  lemma SameFateTransitive(s: Server, d: Server, e: Server)
    requires SameFate(s, d) && SameFate(d, e)
    ensures SameFate(s, e)
  {
  }

  lemma OwnStepKeepsFate(s: Server, a: Act)
    requires Inv(s) && Forced(s, a)
    ensures SameFate(s, Apply(s, a)) && Left(Apply(s, a)) < Left(s)
  {
    LeftDrops(s, a);
    ForcedKeepsFate(s, a);
    ForcedReceives(s, a);
  }

  lemma OwnTail(s: Server, acts: seq<Act>)
    requires OwnRun(s, acts) && |acts| > 0
    ensures Forced(s, acts[0]) && OwnRun(Apply(s, acts[0]), acts[1..])
  {
    assert !Outside(acts[0]);
  }

  lemma {:induction false} OwnRunKeepsFate(s: Server, acts: seq<Act>)
    requires Inv(s) && OwnRun(s, acts)
    ensures SameFate(s, Run(s, acts))
    decreases |acts|
  {
    if |acts| > 0 {
      var d, rest := Apply(s, acts[0]), acts[1..];
      OwnTail(s, acts);
      OwnStepKeepsFate(s, acts[0]);
      OwnRunKeepsFate(d, rest);
      SameFateTransitive(s, d, Run(d, rest));
    }
  }

  lemma {:induction false} NothingOutside(acts: seq<Act>)
    requires forall k :: 0 <= k < |acts| ==> !Outside(acts[k])
    ensures CountOutside(acts) == 0
  {
    if |acts| > 0 { NothingOutside(acts[1..]); }
  }

  lemma ForcedReceives(s: Server, a: Act)
    requires Inv(s) && Forced(s, a)
    ensures |Apply(s, a).pipe.received + Coming(Apply(s, a))| == |s.pipe.received + Coming(s)|
    ensures InService(s) ==> InService(Apply(s, a))
  {
    if a.Step? {
      OwnStepsSendNothing(s.pipe, a.act);
      P.StepShape(s.pipe, a.act);
    }
  }

  ghost predicate Delivers(s: Server, acts: seq<Act>) { OwnRun(s, acts) && Done(Run(s, acts)) }

  lemma Cons(s: Server, a: Act, rest: seq<Act>) returns (acts: seq<Act>)
    requires Enabled(s, a) && ValidRun(Apply(s, a), rest)
    ensures acts == [a] + rest && ValidRun(s, acts) && Run(s, acts) == Run(Apply(s, a), rest)
  {
    acts := [a] + rest;
    assert acts[1..] == rest;
  }

  lemma OwnCons(s: Server, a: Act, rest: seq<Act>) returns (acts: seq<Act>)
    requires Forced(s, a) && OwnRun(Apply(s, a), rest)
    ensures OwnRun(s, acts) && Run(s, acts) == Run(Apply(s, a), rest)
  {
    acts := Cons(s, a, rest);
  }

  /** Left to itself, the server comes to an end: everything is sent, or the IO thread waits. */
  lemma {:induction false} CarryOn(s: Server) returns (acts: seq<Act>)
    requires Inv(s) && InService(s)
    ensures OwnRun(s, acts)
    ensures Done(Run(s, acts)) || Waits(Run(s, acts))
    decreases Left(s)
  {
    if Done(s) || Waits(s) {
      acts := [];
    } else {
      var a := SomeStep(s);
      OwnStepKeepsFate(s, a);
      var rest := CarryOn(Apply(s, a));
      acts := OwnCons(s, a, rest);
    }
  }

  lemma EndsWell(s: Server, acts: seq<Act>)
    requires Inv(s) && OwnRun(s, acts)
    ensures Done(Run(s, acts)) ==> CanDeliver(s)
    ensures Waits(Run(s, acts)) ==> !CanDeliver(s)
  {
    OwnRunKeepsFate(s, acts);
    if Done(Run(s, acts)) {
      DoneWasPossible(Run(s, acts));
    } else if Waits(Run(s, acts)) {
      WaitingIsFinal(Run(s, acts));
    }
  }

  lemma GoesOn(s: Server, acts: seq<Act>)
    requires Inv(s) && InService(s)
    requires CanDeliver(s) && OwnRun(s, acts)
    ensures |acts| <= Left(s) && (Done(Run(s, acts)) || exists a :: Forced(Run(s, acts), a))
  {
    var d := Run(s, acts);
    OwnRunKeepsFate(s, acts);
    NothingOutside(acts);
    RunBounded(s, acts);
    if !Done(d) {
      if Waits(d) {
        WaitingIsFinal(d);
      }
      var a := SomeStep(d);
    }
  }

  /**
   Exactly when the messages get through. Left to itself, from any reachable state, the server sends all it has
   received if and only if the stream it is reading from, if any, holds a line and every peer has room for what it
   will be sent; and then it does so under every scheduling.
   */
  lemma DeliveredIff(s: Server)
    requires Inv(s) && InService(s)
    ensures (exists acts :: Delivers(s, acts)) <==> CanDeliver(s)
    ensures CanDeliver(s) ==>
              forall acts :: OwnRun(s, acts) ==>
                |acts| <= Left(s) && (Done(Run(s, acts)) || exists a :: Forced(Run(s, acts), a))
  {
    if CanDeliver(s) {
      forall acts | OwnRun(s, acts)
        ensures |acts| <= Left(s) && (Done(Run(s, acts)) || exists a :: Forced(Run(s, acts), a))
      {
        GoesOn(s, acts);
      }
      var acts := CarryOn(s);
      EndsWell(s, acts);
      assert Delivers(s, acts);
    } else {
      forall acts | OwnRun(s, acts) ensures !Delivers(s, acts) {
        EndsWell(s, acts);
      }
    }
  }

  // ---------------------------------------------------------------- what goes out

  lemma {:induction false} TextNone(ms: seq<Message>, c: nat)
    requires forall m :: m in ms ==> m.conn != c
    ensures Text(ms, c) == []
  {
    if ms != [] {
      assert ms[0] in ms;
      TextNone(ms[1..], c);
    }
  }

  /** Each peer has been sent the messages sent for its connection, and nothing else. */
  ghost predicate Wired(s: Server) {
    forall c :: 0 <= c < |s.sockets| ==> s.sockets[c].wire == Text(s.pipe.loop.executed, c)
  }

  lemma NothingFor(p: P.Pipe<Message>, c: nat)
    requires P.Inv(p) && forall m :: m in p.received ==> m.conn < c
    ensures Text(p.loop.executed, c) == []
  {
    P.Conserved(p);
    forall m | m in p.loop.executed ensures m.conn != c {
      assert m in multiset(p.loop.executed) && m in multiset(p.received);
    }
    TextNone(p.loop.executed, c);
  }

  lemma WiredConnect(s: Server, room: nat)
    requires Inv(s) && Wired(s)
    ensures Wired(Apply(s, Connect(room)))
  {
    NothingFor(s.pipe, |s.sockets|);
  }

  lemma WiredFinish(s: Server)
    requires Inv(s) && Wired(s) && Enabled(s, FinishSend)
    ensures Wired(Apply(s, FinishSend))
  {
    var d, m := Apply(s, FinishSend), s.pipe.loop.batch[0];
    assert d.pipe.loop.executed == s.pipe.loop.executed + [m];
    forall c | 0 <= c < |s.sockets| ensures d.sockets[c].wire == Text(d.pipe.loop.executed, c) {
      TextSnoc(s.pipe.loop.executed, m, c);
    }
  }

  lemma WiredStep(s: Server, a: Act)
    requires Inv(s) && Wired(s) && Enabled(s, a)
    ensures Wired(Apply(s, a))
  {
    match a {
      case Connect(room) => WiredConnect(s, room);
      case FinishSend => WiredFinish(s);
      case Step(b) => OwnStepsSendNothing(s.pipe, b);
      case _ => assert Apply(s, a).pipe.loop.executed == s.pipe.loop.executed;
    }
  }

  lemma {:induction false} WiredRun(s: Server, acts: seq<Act>)
    requires Inv(s) && Wired(s) && ValidRun(s, acts)
    ensures Inv(Run(s, acts)) && Wired(Run(s, acts))
    decreases |acts|
  {
    if |acts| > 0 {
      ApplyKeeps(s, acts[0]);
      WiredStep(s, acts[0]);
      WiredRun(Apply(s, acts[0]), acts[1..]);
    }
  }

  lemma PrefixText(sent: seq<Message>, all: seq<Message>, c: nat)
    requires sent <= all
    ensures Text(sent, c) <= Text(all, c)
    ensures multiset(sent) == multiset(all) ==> sent == all
  {
    assert all == sent + all[|sent|..];
    TextAppend(sent, all[|sent|..], c);
    if multiset(sent) == multiset(all) {
      assert |multiset(sent)| == |multiset(all)|;
    }
  }

  lemma SentFirst(capacity: nat, acts: seq<P.Act<Message>>)
    requires P.ValidRun(P.Initial(capacity, 1), acts)
    ensures P.Run(P.Initial(capacity, 1), acts).loop.executed <= P.Run(P.Initial(capacity, 1), acts).received
  {
    Order.OneWorkerKeepsOrder(capacity, acts);
  }

  // ---------------------------------------------------------------- what comes in

  /** The bytes a run brings for a connection. */
  function ArrivedIn(acts: seq<Act>, c: nat): seq<Byte> {
    if acts == [] then []
    else (if acts[0].Arrive? && acts[0].conn == c then acts[0].bytes else []) + ArrivedIn(acts[1..], c)
  }

  /** The messages for one connection. */
  function Texts(ms: seq<Message>, c: nat): seq<seq<Byte>> {
    if ms == [] then [] else (if ms[0].conn == c then [ms[0].text] else []) + Texts(ms[1..], c)
  }

  lemma {:induction false} TextsSnoc(ms: seq<Message>, m: Message, c: nat)
    ensures Texts(ms + [m], c) == if m.conn == c then Texts(ms, c) + [m.text] else Texts(ms, c)
  {
    if ms == [] {
      assert [m][1..] == [] && [] + [m] == [m];
    } else {
      TextsSnoc(ms[1..], m, c);
      assert (ms + [m])[1..] == ms[1..] + [m];
    }
  }

  lemma {:induction false} TextIsConcat(ms: seq<Message>, c: nat)
    ensures Text(ms, c) == Concat(Texts(ms, c))
  {
    if ms != [] {
      TextIsConcat(ms[1..], c);
      if ms[0].conn == c {
        assert ([ms[0].text] + Texts(ms[1..], c))[1..] == Texts(ms[1..], c);
      } else {
        assert [] + Text(ms[1..], c) == Text(ms[1..], c) && [] + Texts(ms[1..], c) == Texts(ms[1..], c);
      }
    }
  }

  /** Each line cut at its first NUL byte. */
  function Cut(lines: seq<seq<Byte>>): (r: seq<seq<Byte>>)
    ensures |r| == |lines|
  {
    if lines == [] then [] else [S.CString(lines[0])] + Cut(lines[1..])
  }

  lemma {:induction false} CutSnoc(lines: seq<seq<Byte>>, line: seq<Byte>)
    ensures Cut(lines + [line]) == Cut(lines) + [S.CString(line)]
  {
    if lines == [] {
      assert [line][1..] == [] && [] + [line] == [line];
    } else {
      CutSnoc(lines[1..], line);
      assert (lines + [line])[1..] == lines[1..] + [line];
    }
  }

  /** `arrived`, read line by line, gives the messages received for the connection, and the rest is unread. */
  ghost predicate ReadFrom(s: Server, c: nat, arrived: seq<Byte>) {
    if c < |s.sockets| then
      var texts := Texts(s.pipe.received, c);
      var read := S.Lines(arrived, S.RECEIVE_SIZE, |texts|);
      read.Some? && read.value.1 == s.sockets[c].unread && Cut(read.value.0) == texts
    else
      arrived == [] && Texts(s.pipe.received, c) == []
  }

  lemma ReturnReads(s: Server, c: nat, arrived: seq<Byte>)
    requires Inv(s) && Enabled(s, Return) && ReadFrom(s, c, arrived)
    ensures ReadFrom(Apply(s, Return), c, arrived)
  {
    var d := Apply(s, Return);
    var m := Next(s.io.conn, s.sockets[s.io.conn].unread);
    assert d.pipe.received == s.pipe.received + [m];
    TextsSnoc(s.pipe.received, m, c);
    if s.io.conn == c {
      var k := |Texts(s.pipe.received, c)|;
      var (lines, rest) := S.Lines(arrived, S.RECEIVE_SIZE, k).value;
      S.LinesSnoc(arrived, S.RECEIVE_SIZE, k);
      CutSnoc(lines, S.Line(rest, S.RECEIVE_SIZE));
    }
  }

  lemma ArriveReads(s: Server, a: Act, c: nat, arrived: seq<Byte>)
    requires Inv(s) && Enabled(s, a) && a.Arrive? && ReadFrom(s, c, arrived)
    ensures ReadFrom(Apply(s, a), c, arrived + (if a.conn == c then a.bytes else []))
  {
    if a.conn == c {
      S.LinesStay(arrived, a.bytes, S.RECEIVE_SIZE, |Texts(s.pipe.received, c)|);
    } else {
      assert arrived + [] == arrived;
    }
  }

  lemma StepReads(s: Server, a: Act, c: nat, arrived: seq<Byte>)
    requires Inv(s) && Enabled(s, a) && ReadFrom(s, c, arrived)
    ensures ReadFrom(Apply(s, a), c, arrived + ArrivedIn([a], c))
  {
    assert [a][1..] == [] && arrived + [] == arrived;
    match a {
      case Return => ReturnReads(s, c, arrived);
      case Arrive(_, bytes) =>
        ArriveReads(s, a, c, arrived);
        assert bytes + [] == bytes;
      case Step(b) => OwnStepsSendNothing(s.pipe, b);
      case _ => assert Apply(s, a).pipe.received == s.pipe.received;
    }
  }

  lemma ArrivedFirst(acts: seq<Act>, c: nat, before: seq<Byte>)
    requires acts != []
    ensures before + ArrivedIn(acts, c) == before + ArrivedIn([acts[0]], c) + ArrivedIn(acts[1..], c)
  {
    assert [acts[0]][1..] == [];
    assert ArrivedIn([acts[0]], c) == if acts[0].Arrive? && acts[0].conn == c then acts[0].bytes else [];
    Associate(before, ArrivedIn([acts[0]], c), ArrivedIn(acts[1..], c));
  }

  lemma {:induction false} RunReads(s: Server, acts: seq<Act>, c: nat, arrived: seq<Byte>)
    requires Inv(s) && ValidRun(s, acts) && ReadFrom(s, c, arrived)
    ensures ReadFrom(Run(s, acts), c, arrived + ArrivedIn(acts, c))
    decreases |acts|
  {
    if |acts| == 0 {
      assert arrived + [] == arrived;
    } else {
      ApplyKeeps(s, acts[0]);
      StepReads(s, acts[0], c, arrived);
      RunReads(Apply(s, acts[0]), acts[1..], c, arrived + ArrivedIn([acts[0]], c));
      ArrivedFirst(acts, c, arrived);
    }
  }

  /**
   Nothing that arrives is lost: in every run, the bytes that have arrived on a connection, read line by line, are the
   messages received from it, in order and each cut at its first NUL byte, and the rest is still unread.
   */
  lemma ReceivesWhatArrives(capacity: nat, workers: nat, acts: seq<Act>, c: nat)
    requires ValidRun(Initial(capacity, workers), acts) && c < |Run(Initial(capacity, workers), acts).sockets|
    ensures var s := Run(Initial(capacity, workers), acts);
            var texts := Texts(s.pipe.received, c);
            var read := S.Lines(ArrivedIn(acts, c), S.RECEIVE_SIZE, |texts|);
            && read.Some? && read.value.1 == s.sockets[c].unread && Cut(read.value.0) == texts
            && ArrivedIn(acts, c) == Concat(read.value.0) + s.sockets[c].unread
  {
    InitialInv(capacity, workers);
    RunReads(Initial(capacity, workers), acts, c, []);
    assert [] + ArrivedIn(acts, c) == ArrivedIn(acts, c);
    var received := Run(Initial(capacity, workers), acts).pipe.received;
    S.LinesSpellStream(ArrivedIn(acts, c), S.RECEIVE_SIZE, |Texts(received, c)|);
  }

  // ---------------------------------------------------------------- the echo

  lemma {:induction false} NothingToCut(lines: seq<seq<Byte>>)
    requires NUL !in Concat(lines)
    ensures Cut(lines) == lines
  {
    if lines != [] {
      assert Concat(lines) == lines[0] + Concat(lines[1..]);
      NothingToCut(lines[1..]);
      assert [lines[0]] + lines[1..] == lines;
    }
  }

  /**
   With one worker, every peer gets back what arrived from it, line by line in order, each line up to its first NUL
   byte; and when everything is done, all of it but the part of a line still unread.
   */
  lemma OneWorkerEchoes(capacity: nat, acts: seq<Act>, c: nat)
    requires ValidRun(Initial(capacity, 1), acts) && c < |Run(Initial(capacity, 1), acts).sockets|
    ensures var s, arrived := Run(Initial(capacity, 1), acts), ArrivedIn(acts, c);
            var read := S.Lines(arrived, S.RECEIVE_SIZE, |Texts(s.pipe.received, c)|);
            && read.Some? && read.value.1 == s.sockets[c].unread
            && s.sockets[c].wire <= Concat(Cut(read.value.0))
            && (Done(s) ==> s.sockets[c].wire == Concat(Cut(read.value.0)))
            && (NUL !in arrived ==> s.sockets[c].wire <= arrived)
            && (NUL !in arrived && Done(s) ==> s.sockets[c].wire + s.sockets[c].unread == arrived)
  {
    var s0 := Initial(capacity, 1);
    var s := Run(s0, acts);
    InitialInv(capacity, 1);
    WiredRun(s0, acts);
    RunsThePipeline(s0, acts);
    SentFirst(capacity, PipeRun(s0, acts));
    PrefixText(s.pipe.loop.executed, s.pipe.received, c);
    TextIsConcat(s.pipe.received, c);
    ReceivesWhatArrives(capacity, 1, acts, c);
    if NUL !in ArrivedIn(acts, c) {
      NothingToCut(S.Lines(ArrivedIn(acts, c), S.RECEIVE_SIZE, |Texts(s.pipe.received, c)|).value.0);
    }
  }

  /** The window a run grants a connection: what it starts with and what its peer reads. */
  function GrantedIn(acts: seq<Act>, sockets: nat, c: nat): nat {
    if acts == [] then 0
    else
      (if acts[0].Connect? && sockets == c then acts[0].room
       else if acts[0].Read? && acts[0].conn == c then acts[0].n else 0) +
      GrantedIn(acts[1..], if acts[0].Connect? then sockets + 1 else sockets, c)
  }

  /** The window of a connection so far; none before it exists. */
  ghost function Window(s: Server, c: nat): nat {
    if c < |s.sockets| then s.sockets[c].room + |s.sockets[c].wire| else 0
  }

  lemma GrantedFirst(acts: seq<Act>, sockets: nat, c: nat)
    requires acts != []
    ensures GrantedIn(acts, sockets, c) ==
            GrantedIn([acts[0]], sockets, c) + GrantedIn(acts[1..], if acts[0].Connect? then sockets + 1 else sockets, c)
  {
    assert [acts[0]][1..] == [];
  }

  lemma WindowStep(s: Server, a: Act, c: nat)
    requires Inv(s) && Enabled(s, a)
    ensures Window(Apply(s, a), c) == Window(s, c) + GrantedIn([a], |s.sockets|, c)
    ensures |Apply(s, a).sockets| == if a.Connect? then |s.sockets| + 1 else |s.sockets|
  {
    assert [a][1..] == [];
  }

  /** Room and bytes sent add up to the window granted, so a peer that reads frees what it has read. */
  lemma {:induction false} WindowAddsUp(s: Server, acts: seq<Act>, c: nat)
    requires Inv(s) && ValidRun(s, acts)
    ensures Window(Run(s, acts), c) == Window(s, c) + GrantedIn(acts, |s.sockets|, c)
    decreases |acts|
  {
    if |acts| > 0 {
      ApplyKeeps(s, acts[0]);
      WindowStep(s, acts[0], c);
      WindowAddsUp(Apply(s, acts[0]), acts[1..], c);
      GrantedFirst(acts, |s.sockets|, c);
    }
  }

  // ---------------------------------------------------------------- streams without a line

  /** Whenever the loop dispatches a connection, a whole line is there already. */
  ghost predicate DispatchesLines(s: Server, acts: seq<Act>)
    requires ValidRun(s, acts)
    decreases |acts|
  {
    |acts| > 0 ==>
      && (acts[0].Enter? ==> S.HasLine(s.sockets[acts[0].conn].unread, S.RECEIVE_SIZE))
      && DispatchesLines(Apply(s, acts[0]), acts[1..])
  }

  /** Then it never waits in `receive`. */
  lemma {:induction false} LinesAreEnough(s: Server, acts: seq<Act>)
    requires ValidRun(s, acts) && DispatchesLines(s, acts) && (s.io.Receiving? ==> LineThere(s))
    ensures var d := Run(s, acts); d.io.Receiving? ==> LineThere(d)
    decreases |acts|
  {
    if |acts| > 0 {
      if acts[0].Arrive? && LineThere(s) && s.io.conn == acts[0].conn {
        S.LineStays(s.sockets[s.io.conn].unread, acts[0].bytes, S.RECEIVE_SIZE);
      }
      LinesAreEnough(Apply(s, acts[0]), acts[1..]);
    }
  }

  /** A stream that has ended without a line: `readline` peeks for ever, and no functor is ever run again. */
  ghost predicate Dead(s: Server, c: nat) {
    s.io == Receiving(c) && c < |s.sockets| && s.sockets[c].ended && !S.HasLine(s.sockets[c].unread, S.RECEIVE_SIZE)
  }

  lemma DeadStep(s: Server, c: nat, a: Act)
    requires Dead(s, c) && Enabled(s, a)
    ensures Dead(Apply(s, a), c) && Apply(s, a).pipe.loop.executed == s.pipe.loop.executed
    ensures Apply(s, a).pipe.received == s.pipe.received
  {
    if a.Step? {
      OwnStepsSendNothing(s.pipe, a.act);
    }
  }

  lemma {:induction false} DeadForever(s: Server, c: nat, acts: seq<Act>)
    requires Dead(s, c) && ValidRun(s, acts)
    ensures Dead(Run(s, acts), c) && Run(s, acts).pipe.loop.executed == s.pipe.loop.executed
    ensures Run(s, acts).pipe.received == s.pipe.received
    decreases |acts|
  {
    if |acts| > 0 {
      DeadStep(s, c, acts[0]);
      DeadForever(Apply(s, acts[0]), c, acts[1..]);
    }
  }

  ghost predicate NeverReads(acts: seq<Act>, c: nat) {
    forall k :: 0 <= k < |acts| ==> !(acts[k].Read? && acts[k].conn == c)
  }

  lemma SendWaitsStep(s: Server, a: Act)
    requires Inv(s) && s.io.Sending? && !RoomThere(s) && Enabled(s, a)
    requires !(a.Read? && a.conn == s.pipe.loop.batch[0].conn)
    ensures var d := Apply(s, a);
            && Inv(d) && d.io.Sending? && !RoomThere(d) && d.pipe.loop.batch == s.pipe.loop.batch
            && d.pipe.loop.executed == s.pipe.loop.executed
  {
    ApplyKeeps(s, a);
    HeadIsOwed(s.pipe);
    if a.Step? {
      OwnStepsSendNothing(s.pipe, a.act);
      WorkersLeaveIo(s.pipe, a.act);
    }
  }

  /** A peer that does not read holds the IO thread in `send` in the same way, until it does. */
  lemma {:induction false} SendWaits(s: Server, acts: seq<Act>)
    requires Inv(s) && s.io.Sending? && !RoomThere(s) && ValidRun(s, acts)
    requires NeverReads(acts, s.pipe.loop.batch[0].conn)
    ensures Run(s, acts).io.Sending? && Run(s, acts).pipe.loop.executed == s.pipe.loop.executed
    decreases |acts|
  {
    if |acts| > 0 {
      SendWaitsStep(s, acts[0]);
      assert NeverReads(acts[1..], s.pipe.loop.batch[0].conn);
      SendWaits(Apply(s, acts[0]), acts[1..]);
    }
  }

  // ---------------------------------------------------------------- such runs exist

  /** The IO thread is handling events, nothing is in the queue, and no thread waits for another. */
  ghost predicate AtEase(s: Server) {
    && s.io.Free? && s.pipe.loop.pc == Loop.Dispatching(false)
    && s.pipe.pool.producers == [Pool.Idle] && s.pipe.pool.owner.Free? && s.pipe.pool.queue == []
    && 0 < s.pipe.pool.capacity && s.pipe.pool.flag && !s.pipe.pool.isExit
    && forall j :: 0 <= j < |s.pipe.pool.workers| ==> s.pipe.pool.workers[j].Top?
  }

  /** A connection's only line has become a task. */
  ghost function Queued(s: Server, c: nat): Server
    requires c < |s.sockets|
  {
    var m := Message(c, s.sockets[c].unread);
    Put(s, c, s.sockets[c].(unread := [])).(
      pipe := s.pipe.(received := s.pipe.received + [m],
                      pool := s.pipe.pool.(queue := [m], accepted := s.pipe.pool.accepted + [m])))
  }

  lemma WholeLine(line: seq<Byte>)
    requires S.Framed(line, S.RECEIVE_SIZE) && NUL !in line
    ensures S.HasLine(line, S.RECEIVE_SIZE) && S.Line(line, S.RECEIVE_SIZE) == line == S.CString(line)
  {
    S.FramedLine(line, [], S.RECEIVE_SIZE);
    assert line + [] == line;
  }

  /** A connection's only line has been received, and `addTask` is called. */
  ghost function Offered(s: Server, c: nat): Server
    requires c < |s.sockets|
  {
    var m := Message(c, s.sockets[c].unread);
    Put(s, c, s.sockets[c].(unread := [])).(
      pipe := s.pipe.(received := s.pipe.received + [m], pool := s.pipe.pool.(producers := [Pool.Wanting(m)])))
  }

  lemma TakeIn(s: Server, c: nat, rest: seq<Act>) returns (acts: seq<Act>)
    requires AtEase(s) && c < |s.sockets|
    requires S.Framed(s.sockets[c].unread, S.RECEIVE_SIZE) && NUL !in s.sockets[c].unread
    requires ValidRun(Offered(s, c), rest)
    ensures ValidRun(s, acts) && Run(s, acts) == Run(Offered(s, c), rest)
  {
    var line := s.sockets[c].unread;
    WholeLine(line);
    var s1 := Apply(s, Enter(c));
    var s2 := Apply(s1, Return);
    assert line[|line|..] == [];
    assert s2.pipe.pool.producers == [Pool.Wanting(Message(c, line))];
    assert s2 == Offered(s, c);
    acts := Cons(s1, Return, rest);
    acts := Cons(s, Enter(c), acts);
  }

  lemma PutIn(s: Server, c: nat, rest: seq<Act>) returns (acts: seq<Act>)
    requires AtEase(s) && c < |s.sockets| && ValidRun(Queued(s, c), rest)
    ensures ValidRun(Offered(s, c), acts) && Run(Offered(s, c), acts) == Run(Queued(s, c), rest)
  {
    var m := Message(c, s.sockets[c].unread);
    var s2 := Offered(s, c);
    var s3 := Apply(s2, Step(P.Enqueue(Pool.LockPush(0))));
    assert s3.pipe.pool == s2.pipe.pool.(producers := [Pool.Pushing(m)], owner := Pool.ByProducer(0));
    var s4 := Apply(s3, Step(P.Enqueue(Pool.Push(0, None))));
    assert s4.pipe.pool.producers == [Pool.Idle] && s4.pipe.pool.queue == [m];
    assert s4 == Queued(s, c);
    acts := Cons(s3, Step(P.Enqueue(Pool.Push(0, None))), rest);
    acts := Cons(s2, Step(P.Enqueue(Pool.LockPush(0))), acts);
  }

  /** The loop dispatches a connection with one line; then whatever `rest` does. */
  lemma Serve(s: Server, c: nat, rest: seq<Act>) returns (acts: seq<Act>)
    requires AtEase(s) && c < |s.sockets|
    requires S.Framed(s.sockets[c].unread, S.RECEIVE_SIZE) && NUL !in s.sockets[c].unread
    requires ValidRun(Queued(s, c), rest)
    ensures ValidRun(s, acts) && Run(s, acts) == Run(Queued(s, c), rest)
  {
    acts := PutIn(s, c, rest);
    acts := TakeIn(s, c, acts);
  }

  /** Two clients: one sends a line, the other something that is no line, and ends its stream. */
  ghost function TwoClients(capacity: nat, workers: nat, line: seq<Byte>, scrap: seq<Byte>, room: nat): Server {
    Server(P.Apply(P.Initial(capacity, workers), P.Turn(Loop.Wake(false))), Free,
           [Socket(line, false, room, []), Socket(scrap, true, room, [])])
  }

  lemma ClientsCome(capacity: nat, workers: nat, line: seq<Byte>, scrap: seq<Byte>, room: nat, rest: seq<Act>)
    returns (acts: seq<Act>)
    requires ValidRun(TwoClients(capacity, workers, line, scrap, room), rest)
    ensures ValidRun(Initial(capacity, workers), acts)
    ensures Run(Initial(capacity, workers), acts) == Run(TwoClients(capacity, workers, line, scrap, room), rest)
  {
    var s0 := Initial(capacity, workers);
    var s1 := Apply(s0, Connect(room));
    var s2 := Apply(s1, Connect(room));
    var s3 := Apply(s2, Arrive(0, line));
    var s4 := Apply(s3, Arrive(1, scrap));
    assert [] + line == line && [] + scrap == scrap;
    var s5 := Apply(s4, End(1));
    assert s5.sockets == [Socket(line, false, room, []), Socket(scrap, true, room, [])];
    acts := Cons(s5, Step(P.Turn(Loop.Wake(false))), rest);
    acts := Cons(s4, End(1), acts);
    acts := Cons(s3, Arrive(1, scrap), acts);
    acts := Cons(s2, Arrive(0, line), acts);
    acts := Cons(s1, Connect(room), acts);
    acts := Cons(s0, Connect(room), acts);
  }

  /**
   A client that ends its stream in the middle of a line silences the server for everybody: another client's
   message, received in full before, is not answered in any continuation.
   */
  lemma ScrapSilencesServer(capacity: nat, workers: nat, line: seq<Byte>, scrap: seq<Byte>) returns (acts: seq<Act>)
    requires 0 < capacity && S.Framed(line, S.RECEIVE_SIZE) && NUL !in line
    requires scrap != [] && !S.HasLine(scrap, S.RECEIVE_SIZE)
    ensures ValidRun(Initial(capacity, workers), acts)
    ensures var s := Run(Initial(capacity, workers), acts);
            && s.pipe.received == [Message(0, line)] && Dead(s, 1)
            && forall more :: ValidRun(s, more) ==> Run(s, more).pipe.loop.executed == []
  {
    var s1 := TwoClients(capacity, workers, line, scrap, 0);
    var s2 := Queued(s1, 0);
    var s3 := Apply(s2, Enter(1));
    acts := Cons(s2, Enter(1), []);
    acts := Serve(s1, 0, acts);
    acts := ClientsCome(capacity, workers, line, scrap, 0, acts);
    forall more | ValidRun(s3, more) ensures Run(s3, more).pipe.loop.executed == [] {
      DeadForever(s3, 1, more);
    }
  }
  /** A queue with one task, and worker 0 at its loop test. */
  ghost predicate OneQueued(s: Server, m: Message) {
    && AtEase(s.(pipe := s.pipe.(pool := s.pipe.pool.(queue := [])))) && s.pipe.pool.queue == [m]
    && 0 < |s.pipe.pool.workers| == |s.pipe.loop.ringing| && !s.pipe.loop.ringing[0]
    && s.pipe.loop.v4 && s.pipe.loop.pending == [] && s.pipe.loop.counter == 0
  }

  ghost function PickedUp(s: Server, m: Message): Server
    requires 0 < |s.pipe.pool.workers|
  {
    s.(pipe := s.pipe.(pool := s.pipe.pool.(queue := [], popped := s.pipe.pool.popped + [m],
                                            workers := s.pipe.pool.workers[0 := Pool.Holding(m)])))
  }

  /** Worker 0 holds the queue's mutex. */
  ghost function AtQueue(s: Server): Server
    requires 0 < |s.pipe.pool.workers|
  {
    s.(pipe := s.pipe.(pool := s.pipe.pool.(workers := s.pipe.pool.workers[0 := Pool.Locked], owner := Pool.ByWorker(0))))
  }

  lemma GoToQueue(s: Server, m: Message, rest: seq<Act>) returns (acts: seq<Act>)
    requires OneQueued(s, m) && ValidRun(AtQueue(s), rest)
    ensures ValidRun(s, acts) && Run(s, acts) == Run(AtQueue(s), rest)
  {
    assert s.pipe.pool.workers[0].Top?;
    var s1 := Apply(s, Step(P.Work(Pool.Check(0))));
    var s2 := Apply(s1, Step(P.Work(Pool.Lock(0))));
    assert s2.pipe.pool.workers == s.pipe.pool.workers[0 := Pool.Locked];
    assert s2 == AtQueue(s);
    acts := Cons(s1, Step(P.Work(Pool.Lock(0))), rest);
    acts := Cons(s, Step(P.Work(Pool.Check(0))), acts);
  }

  lemma PickUp(s: Server, m: Message, rest: seq<Act>) returns (acts: seq<Act>)
    requires OneQueued(s, m) && ValidRun(PickedUp(s, m), rest)
    ensures ValidRun(s, acts) && Run(s, acts) == Run(PickedUp(s, m), rest)
  {
    var s2 := AtQueue(s);
    var s3 := Apply(s2, Step(P.Work(Pool.Look(0))));
    var s4 := Apply(s3, Step(P.Work(Pool.Take(0, None))));
    assert s4.pipe.pool.workers == s.pipe.pool.workers[0 := Pool.Holding(m)];
    assert s4 == PickedUp(s, m);
    acts := Cons(s3, Step(P.Work(Pool.Take(0, None))), rest);
    acts := Cons(s2, Step(P.Work(Pool.Look(0))), acts);
    acts := GoToQueue(s, m, acts);
  }

  /** The worker answers and rings. */
  ghost function Answered(s: Server, m: Message): Server
    requires 0 < |s.pipe.pool.workers|
  {
    var p := s.pipe;
    s.(pipe := p.(pool := p.pool.(queue := [], popped := p.pool.popped + [m], executed := p.pool.executed + [m]),
                  loop := p.loop.(pending := [m], posted := p.loop.posted + [m], counter := 1)))
  }

  lemma AnswerIt(s: Server, m: Message, rest: seq<Act>) returns (acts: seq<Act>)
    requires OneQueued(s, m) && ValidRun(Answered(s, m), rest)
    ensures ValidRun(PickedUp(s, m), acts) && Run(PickedUp(s, m), acts) == Run(Answered(s, m), rest)
  {
    var s0 := PickedUp(s, m);
    var s1 := Apply(s0, Step(P.Respond(0)));
    assert s.pipe.pool.workers[0].Top?;
    assert s1.pipe.pool.workers == s.pipe.pool.workers;
    var s2 := Apply(s1, Step(P.Ring(0)));
    assert s2.pipe.loop.ringing == s.pipe.loop.ringing;
    assert s2 == Answered(s, m);
    acts := Cons(s1, Step(P.Ring(0)), rest);
    acts := Cons(s0, Step(P.Respond(0)), acts);
  }

  /** The loop hears the alarm. */
  ghost function Alarmed(s: Server, m: Message): Server
    requires 0 < |s.pipe.pool.workers|
  {
    var d := Answered(s, m);
    d.(pipe := d.pipe.(loop := d.pipe.loop.(pc := Loop.Draining, counter := 0)))
  }

  lemma HearIt(s: Server, m: Message, rest: seq<Act>) returns (acts: seq<Act>)
    requires OneQueued(s, m) && ValidRun(Alarmed(s, m), rest)
    ensures ValidRun(Answered(s, m), acts) && Run(Answered(s, m), acts) == Run(Alarmed(s, m), rest)
  {
    var s2 := Answered(s, m);
    var s3 := Apply(s2, Step(P.Turn(Loop.EndDispatch)));
    var s4 := Apply(s3, Step(P.Turn(Loop.Wake(true))));
    var s5 := Apply(s4, Step(P.Turn(Loop.ReadAlarm)));
    assert s5 == Alarmed(s, m);
    acts := Cons(s4, Step(P.Turn(Loop.ReadAlarm)), rest);
    acts := Cons(s3, Step(P.Turn(Loop.Wake(true))), acts);
    acts := Cons(s2, Step(P.Turn(Loop.EndDispatch)), acts);
  }

  /** The loop goes round and begins to send. */
  lemma ToSend(s: Server, m: Message) returns (acts: seq<Act>)
    requires OneQueued(s, m)
    ensures ValidRun(Answered(s, m), acts)
    ensures var d := Run(Answered(s, m), acts);
            d.io.Sending? && InBatch(d.pipe) && d.pipe.loop.batch == [m] && d.sockets == s.sockets &&
            d.pipe.loop.executed == s.pipe.loop.executed && d.pipe.received == s.pipe.received
  {
    var s5 := Alarmed(s, m);
    var s6 := Apply(s5, Step(P.Turn(Loop.Swap)));
    assert s6.pipe.loop.batch == [m];
    acts := Cons(s6, BeginSend, []);
    acts := Cons(s5, Step(P.Turn(Loop.Swap)), acts);
    acts := HearIt(s, m, acts);
  }

  /** A client that does not read what it is sent silences the server until it does. */
  lemma FullWindowSilencesServer(capacity: nat, workers: nat, line: seq<Byte>, scrap: seq<Byte>, room: nat)
    returns (acts: seq<Act>)
    requires 0 < capacity && 0 < workers && room < |line| && S.Framed(line, S.RECEIVE_SIZE) && NUL !in line
    ensures ValidRun(Initial(capacity, workers), acts)
    ensures var s := Run(Initial(capacity, workers), acts);
            && s.pipe.received == [Message(0, line)] && s.io.Sending?
            && forall more :: ValidRun(s, more) && NeverReads(more, 0) ==>
                 Run(s, more).io.Sending? && Run(s, more).pipe.loop.executed == []
  {
    var s1 := TwoClients(capacity, workers, line, scrap, room);
    var s2 := Queued(s1, 0);
    var m := Message(0, line);
    acts := ToSend(s2, m);
    var d := Run(Answered(s2, m), acts);
    acts := AnswerIt(s2, m, acts);
    acts := PickUp(s2, m, acts);
    acts := Serve(s1, 0, acts);
    acts := ClientsCome(capacity, workers, line, scrap, room, acts);
    InitialInv(capacity, workers);
    RunKeeps(Initial(capacity, workers), acts);
    forall more | ValidRun(d, more) && NeverReads(more, 0)
      ensures Run(d, more).io.Sending? && Run(d, more).pipe.loop.executed == []
    {
      SendWaits(d, more);
    }
  }
}
