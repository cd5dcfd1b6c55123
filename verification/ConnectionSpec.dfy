/**
 The state machine of src/connection.cpp as functions on values: connection state, epoll interest,
 the two buffers' contents, and the tasks other threads have posted to the connection's loop.

 The kernel is an oracle: `answers` holds what the next `send` calls will be answered with. The
 user's write-complete callback is any finite script: its k-th call performs the k-th list of actions,
 and, because `runInLoop` runs inline on the loop thread, it does so in the middle of the operation
 that completed the write.
 */
module ConnectionSpec {
  import opened Bytes

  datatype State = Connecting | Connected | Disconnecting | Disconnected {
    function Rank(): nat {
      match this
      case Connecting => 0
      case Connected => 1
      case Disconnecting => 2
      case Disconnected => 3
    }

    predicate Open() { Connected? || Disconnecting? }
  }

  datatype Interest = Interest(read: bool, write: bool)

  const NO_INTEREST := Interest(false, false)

  /** Outcome of one non-blocking `send`; `Broken` is EPIPE or ECONNRESET. */
  datatype SendAnswer = Wrote(n: nat) | WouldBlock | Broken | OtherError

  datatype Action = Send(data: seq<Byte>) | Shutdown | ForceClose

  datatype Task = SendTask(data: seq<Byte>) | ShutdownTask | ForceCloseTask | DestroyTask

  /** Outcome of one `readv`; no bytes means end of stream. */
  datatype ReadResult = Got(bytes: seq<Byte>) | Failed

  /** The bits of an epoll event; `urgent` stands for EPOLLPRI or EPOLLRDHUP. */
  datatype Ready = Ready(hup: bool, err: bool, readable: bool, urgent: bool, writable: bool)

  datatype Conn = Conn(
    state: State,
    interest: Interest,
    epoll: Option<Interest>,      // what epoll was last told; None when the handler is not in the loop's table
    input: seq<Byte>,
    output: seq<Byte>,
    wire: seq<Byte>,              // bytes the kernel has taken
    writeShut: bool,
    received: seq<Byte>,          // bytes read from the socket
    offered: seq<seq<Byte>>,      // payloads that reached sendInLoop while CONNECTED
    accepted: seq<seq<Byte>>,     // those of them not thrown away by a broken pipe
    faulted: bool,
    answers: seq<SendAnswer>,
    script: seq<seq<Action>>,
    tasks: seq<Task>,
    inlineRemoval: bool)          // one loop only: error handling removes the connection inline

  function Initial(answers: seq<SendAnswer>, script: seq<seq<Action>>, inlineRemoval: bool): Conn {
    Conn(Connecting, NO_INTEREST, None, [], [], [], false, [], [], [], false, answers, script, [], inlineRemoval)
  }

  // ---------------------------------------------------------------- kernel and poller

  /** The kernel never takes more than it is given; past the end of the oracle it is not ready. */
  function Answer(answers: seq<SendAnswer>, size: nat): (r: SendAnswer)
    ensures r.Wrote? ==> r.n <= size
  {
    if answers == [] then WouldBlock
    else if answers[0].Wrote? then Wrote(Min(answers[0].n, size))
    else answers[0]
  }

  function Rest<T>(s: seq<T>): seq<T> { if s == [] then [] else s[1..] }

  /** `updateHandler`: has an effect only on a handler that is in the table. */
  function Rearm(c: Conn): Conn {
    if c.epoll.Some? then c.(epoll := Some(c.interest)) else c
  }

  // ---------------------------------------------------------------- sending

  function Enqueue(c: Conn, rest: seq<Byte>): Conn {
    if rest == [] then c
    else
      var d := c.(output := c.output + rest);
      if d.interest.write then d else Rearm(d.(interest := d.interest.(write := true)))
  }

  /** One `send` call on behalf of an accepted payload, of which the kernel took `n` bytes. */
  function Took(c: Conn, data: seq<Byte>, n: nat): Conn
    requires n <= |data|
  {
    c.(answers := Rest(c.answers), accepted := c.accepted + [data], wire := c.wire + data[..n])
  }

  function SendInLoop(c: Conn, data: seq<Byte>): (r: Conn)
    ensures |r.script| <= |c.script|
    decreases |c.script|, 1
  {
    if !c.state.Connected? then c
    else
      var d := c.(offered := c.offered + [data]);
      if c.output != [] then Enqueue(d.(accepted := d.accepted + [data]), data)
      else
        match Answer(d.answers, |data|)
        case Wrote(n) =>
          if n == |data| then WriteComplete(Took(d, data, n)) else Enqueue(Took(d, data, n), data[n..])
        case Broken => d.(answers := Rest(d.answers), faulted := true)
        case _ => Enqueue(Took(d, data, 0), data)
  }

  function WriteComplete(c: Conn): (r: Conn)
    ensures |r.script| <= |c.script|
    decreases |c.script|, 0
  {
    if c.script == [] then c else RunActions(c.(script := c.script[1..]), c.script[0])
  }

  /** One API call on the loop thread. */
  function Perform(c: Conn, a: Action): (r: Conn)
    ensures |r.script| <= |c.script|
    decreases |c.script|, 2
  {
    match a
    case Send(data) => SendInLoop(c, data)
    case Shutdown => ShutdownNow(c)
    case ForceClose => ForceCloseInLoop(c)
  }

  function RunActions(c: Conn, actions: seq<Action>): (r: Conn)
    ensures |r.script| <= |c.script|
    decreases |c.script|, 3 + |actions|
  {
    if actions == [] then c else RunActions(Perform(c, actions[0]), actions[1..])
  }

  // ---------------------------------------------------------------- closing

  function ShutdownInLoop(c: Conn): Conn {
    if c.interest.write then c else c.(writeShut := true)
  }

  /** `shutdown()` on the loop thread. */
  function ShutdownNow(c: Conn): Conn {
    if c.state.Connected? then ShutdownInLoop(c.(state := Disconnecting)) else c
  }

  function HandleClose(c: Conn): Conn {
    c.(state := Disconnected, interest := NO_INTEREST)
  }

  /** Also `forceClose()` on the loop thread, which only passes through DISCONNECTING on the way. */
  function ForceCloseInLoop(c: Conn): Conn {
    if c.state.Open() then HandleClose(c) else c
  }

  function Destroy(c: Conn): Conn {
    if c.state.Connected? then c.(state := Disconnected, interest := NO_INTEREST, epoll := None) else c
  }

  function HandleError(c: Conn): Conn {
    if c.inlineRemoval then Destroy(c) else c
  }

  // ---------------------------------------------------------------- events

  /** The default message callback: everything readable is sent back. */
  function Echo(c: Conn): Conn {
    SendInLoop(c.(input := []), c.input)
  }

  function HandleRead(c: Conn, r: ReadResult): Conn {
    match r
    case Got(bytes) =>
      if bytes == [] then HandleClose(c)
      else Echo(c.(received := c.received + bytes, input := c.input + bytes))
    case Failed => HandleError(c)
  }

  /** The output has just drained: tell the user, then perform a shutdown that waited for this. */
  function Finish(c: Conn): Conn {
    var d := WriteComplete(c);
    if d.state.Disconnecting? then ShutdownInLoop(d) else d
  }

  function HandleWrite(c: Conn): Conn {
    if !c.interest.write then c
    else
      var e := c.(answers := Rest(c.answers));
      var a := Answer(c.answers, |c.output|);
      if !a.Wrote? || a.n == 0 then e
      else
        var f := e.(wire := e.wire + e.output[..a.n], output := e.output[a.n..]);
        if f.output == [] then Finish(Rearm(f.(interest := f.interest.(write := false)))) else f
  }

  /** `EventHandler::handleEvents`; `answer` is what `readv` returns if the read callback runs. */
  function HandleEvents(c: Conn, e: Ready, answer: ReadResult): Conn {
    if e.hup && !e.readable then HandleClose(c)
    else
      var c1 := if e.err then HandleError(c) else c;
      var c2 := if e.readable || e.urgent then HandleRead(c1, answer) else c1;
      if e.writable then HandleWrite(c2) else c2
  }

  function Establish(c: Conn): Conn {
    var d := c.(state := Connected, interest := c.interest.(read := true));
    d.(epoll := Some(d.interest))
  }

  function RunTask(c: Conn, t: Task): Conn {
    match t
    case SendTask(data) => SendInLoop(c, data)
    case ShutdownTask => ShutdownInLoop(c)
    case ForceCloseTask => ForceCloseInLoop(c)
    case DestroyTask => Destroy(c)
  }

  datatype Event =
    | Established                                // once per connection
    | Polled(ready: Ready, answer: ReadResult)   // epoll reports the socket
    | LoopAction(action: Action)                 // API call on the loop thread
    | ForeignAction(action: Action)              // API call on another thread
    | PostDestroy                                // removal decided on another loop
    | RunPosted                                  // the loop runs its oldest posted task

  function Post(c: Conn, t: Task): Conn { c.(tasks := c.tasks + [t]) }

  function Foreign(c: Conn, a: Action): Conn {
    match a
    case Send(data) => if c.state.Connected? then Post(c, SendTask(data)) else c
    case Shutdown => if c.state.Connected? then Post(c.(state := Disconnecting), ShutdownTask) else c
    case ForceClose => if c.state.Open() then Post(c.(state := Disconnecting), ForceCloseTask) else c
  }

  function Step(c: Conn, ev: Event): Conn {
    match ev
    case Established => if c.state.Connecting? then Establish(c) else c
    case Polled(ready, answer) => if c.epoll.Some? then HandleEvents(c, ready, answer) else c
    case LoopAction(a) => Perform(c, a)
    case ForeignAction(a) => Foreign(c, a)
    case PostDestroy => Post(c, DestroyTask)
    case RunPosted => if c.tasks == [] then c else RunTask(c.(tasks := c.tasks[1..]), c.tasks[0])
  }

  function Run(c: Conn, events: seq<Event>): Conn
    decreases |events|
  {
    if events == [] then c else Run(Step(c, events[0]), events[1..])
  }
}
