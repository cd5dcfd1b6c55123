/**
 src/echo_server.cpp: naming and placing new connections, and the cascade of callbacks by which a failed or closed
 connection leaves the table. The connections themselves are values of `ConnectionSpec`.
 */
module EchoServers {
  import opened Bytes
  import Spec = ConnectionSpec

  // ---------------------------------------------------------------- names

  const DIGITS: string := "0123456789"

  function Decimal(n: nat): (r: string)
    ensures r != []
    ensures Value(r) == n
  {
    if n < 10 then
      assert Value([DIGITS[n]][..0]) == 0;
      [DIGITS[n]]
    else
      var r := Decimal(n / 10) + [DIGITS[n % 10]];
      assert r[..|r| - 1] == Decimal(n / 10);
      r
  }

  function Digit(c: char): nat {
    if '0' <= c <= '9' then (c as int) - ('0' as int) else 0
  }

  /** The number a string of digits stands for. */
  function Value(s: string): nat {
    if s == [] then 0 else Value(s[..|s| - 1]) * 10 + Digit(s[|s| - 1])
  }

  function Name(id: nat): string { "Connection-" + Decimal(id) }

  /** Different connections have different names. */
  lemma NameInjective(a: nat, b: nat)
    requires Name(a) == Name(b)
    ensures a == b
  {
    assert Name(a)[|"Connection-"|..] == Decimal(a);
    assert Name(b)[|"Connection-"|..] == Decimal(b);
  }

  // ---------------------------------------------------------------- placement

  const TWO31: nat := 0x8000_0000
  const TWO32: nat := 0x1_0000_0000
  const TWO64: nat := 0x1_0000_0000_0000_0000

  /** The k-th value of an atomic 32-bit `int` counter, converted to `size_t` for the remainder. */
  function Ticket(k: nat): nat {
    var wrapped := k % TWO32;
    if wrapped < TWO31 then wrapped else TWO64 - TWO32 + wrapped
  }

  /** `getNextLoop` on its k-th call. */
  function Slot(k: nat, loops: nat): (r: nat)
    requires 0 < loops
    ensures r < loops
  {
    Ticket(k) % loops
  }

  /** How many of the first `k` connections went to loop `j`. */
  function Assigned(k: nat, loops: nat, j: nat): nat
    requires 0 < loops
  {
    if k == 0 then 0 else Assigned(k - 1, loops, j) + (if Slot(k - 1, loops) == j then 1 else 0)
  }

  lemma MulLe(a: nat, b: nat, n: nat)
    requires a <= b
    ensures a * n <= b * n
  {
  }

  lemma MulNext(q: nat, n: nat)
    ensures (q + 1) * n == q * n + n
  {
  }

  lemma DivUnique(k: nat, n: nat, q: nat, r: nat)
    requires 0 < n && r < n && k == q * n + r
    ensures k / n == q && k % n == r
  {
    var p := k / n;
    assert k == p * n + k % n;
    MulNext(p, n);
    MulNext(q, n);
    if p < q {
      MulLe(p + 1, q, n);
    } else if q < p {
      MulLe(q + 1, p, n);
    }
  }

  lemma DivStep(k: nat, n: nat)
    requires 0 < n
    ensures if k % n + 1 == n then (k + 1) / n == k / n + 1 && (k + 1) % n == 0
            else (k + 1) / n == k / n && (k + 1) % n == k % n + 1
  {
    var q, r := k / n, k % n;
    assert k == q * n + r;
    if r + 1 == n {
      MulNext(q, n);
      DivUnique(k + 1, n, q + 1, 0);
    } else {
      DivUnique(k + 1, n, q, r + 1);
    }
  }

  lemma SameRemainder(a: nat, b: nat, n: nat)
    requires 0 < n && b <= a
    ensures a % n == b % n <==> (a - b) % n == 0
  {
    var q, r := (a - b) / n, (a - b) % n;
    assert a - b == q * n + r;
    var p, t := b / n, b % n;
    assert b == p * n + t;
    SumOfProducts(p, q, n);
    if r + t < n {
      DivUnique(a, n, p + q, r + t);
    } else {
      MulNext(p + q, n);
      DivUnique(a, n, p + q + 1, r + t - n);
    }
  }

  lemma SumOfProducts(p: nat, q: nat, n: nat)
    ensures p * n + q * n == (p + q) * n
  {
  }

  lemma {:induction false} MultipleOfMultiple(m: nat, times: nat, n: nat)
    requires 0 < n && m % n == 0
    ensures (m * times) % n == 0
  {
    if times == 0 {
      DivUnique(0, n, 0, 0);
    } else {
      MultipleOfMultiple(m, times - 1, n);
      MulNext(times - 1, m);
      SameRemainder(m * times, m * (times - 1), n);
    }
  }

  /** Counting on by one and taking the remainder again. */
  lemma NextRemainder(t: nat, n: nat)
    requires 0 < n
    ensures (t % n + 1) % n == (t + 1) % n
  {
    DivStep(t, n);
    var r := t % n;
    if r + 1 == n {
      DivUnique(r + 1, n, 1, 0);
    } else {
      DivUnique(r + 1, n, 0, r + 1);
    }
  }

  /** The connection after the k-th goes to the loop next to that of the k-th. */
  predicate Rotates(k: nat, loops: nat)
    requires 0 < loops
  {
    Slot(k + 1, loops) == (Slot(k, loops) + 1) % loops
  }

  /**
   The rotation breaks only where the counter leaves the positive numbers, at 2^31, and where it comes back
   from -1 to 0, at 2^32, and there exactly for these loop counts.
   */
  lemma RotatesIff(k: nat, loops: nat)
    requires 0 < loops
    ensures Rotates(k, loops) <==>
            (k % TWO32 == TWO31 - 1 ==> (TWO64 - TWO32) % loops == 0) && (k % TWO32 == TWO32 - 1 ==> TWO64 % loops == 0)
  {
    var t := Ticket(k);
    NextRemainder(t, loops);
    DivStep(k, TWO32);
    if k % TWO32 == TWO31 - 1 {
      assert Ticket(k + 1) == TWO64 - TWO32 + TWO31;
      SameRemainder(TWO64 - TWO32 + TWO31, TWO31, loops);
    } else if k % TWO32 == TWO32 - 1 {
      assert t + 1 == TWO64 && Ticket(k + 1) == 0;
      DivUnique(0, loops, 0, 0);
    }
  }

  /** Round robin never skips or repeats a loop if and only if the loop count divides 2^32. */
  lemma RotatesForever(loops: nat)
    requires 0 < loops
    ensures (forall k: nat :: Rotates(k, loops)) <==> TWO32 % loops == 0
  {
    forall k: nat ensures Rotates(k, loops) <==>
            (k % TWO32 == TWO31 - 1 ==> (TWO64 - TWO32) % loops == 0) && (k % TWO32 == TWO32 - 1 ==> TWO64 % loops == 0)
    {
      RotatesIff(k, loops);
    }
    SameRemainder(TWO64, TWO32, loops);
    if TWO32 % loops == 0 {
      MultipleOfMultiple(TWO32, TWO32, loops);
    } else {
      assert Rotates(TWO31 - 1, loops) <==> (TWO64 - TWO32) % loops == 0;
      assert Rotates(TWO32 - 1, loops) <==> TWO64 % loops == 0;
    }
  }

  /** Each of the two places is a failure of its own: seven loops fail at the first, three at the second. */
  lemma RotationBreaks()
    ensures !Rotates(TWO31 - 1, 7) && Rotates(TWO31 - 1, 3) && !Rotates(TWO32 - 1, 3)
  {
    RotatesIff(TWO31 - 1, 7);
    RotatesIff(TWO31 - 1, 3);
    RotatesIff(TWO32 - 1, 3);
  }

  /** The connections that are placed in strict rotation: all of them, or all before the first wrap. */
  predicate InRotation(k: nat, loops: nat)
    requires 0 < loops
  {
    k <= TWO31 || TWO32 % loops == 0
  }

  lemma SlotInRotation(k: nat, loops: nat)
    requires 0 < loops && InRotation(k + 1, loops)
    ensures Slot(k, loops) == k % loops
  {
    if TWO31 <= k {
      var wrapped := k % TWO32;
      MultipleOfMultiple(TWO32, k / TWO32, loops);
      assert k - wrapped == TWO32 * (k / TWO32);
      SameRemainder(k, wrapped, loops);
      MultipleOfMultiple(TWO32, TWO32 - 1, loops);
      SameRemainder(TWO64 - TWO32 + wrapped, wrapped, loops);
    }
  }

  lemma {:induction false} AssignedCount(k: nat, loops: nat, j: nat)
    requires 0 < loops && j < loops && InRotation(k, loops)
    ensures Assigned(k, loops, j) == k / loops + (if j < k % loops then 1 else 0)
  {
    if k == 0 {
      DivUnique(0, loops, 0, 0);
    } else {
      AssignedCount(k - 1, loops, j);
      DivStep(k - 1, loops);
      SlotInRotation(k - 1, loops);
    }
  }

  /** No loop is two connections ahead of another after the first `k`. */
  predicate Balanced(k: nat, loops: nat)
    requires 0 < loops
  {
    forall i: nat, j: nat :: i < loops && j < loops ==> Assigned(k, loops, i) <= Assigned(k, loops, j) + 1
  }

  lemma BalancedInRotation(k: nat, loops: nat)
    requires 0 < loops && InRotation(k, loops)
    ensures Balanced(k, loops)
  {
    forall i: nat, j: nat | i < loops && j < loops
      ensures Assigned(k, loops, i) <= Assigned(k, loops, j) + 1
    {
      AssignedCount(k, loops, i);
      AssignedCount(k, loops, j);
    }
  }

  lemma SameTicket(k: nat)
    ensures Ticket(TWO32 + k) == Ticket(k)
  {
  }

  /** The counter is back where it was after a turn of 2^32 connections. */
  lemma {:induction false} TurnAdds(turn: nat, k: nat, loops: nat, j: nat)
    requires 0 < loops && turn == TWO32
    ensures Assigned(turn + k, loops, j) == Assigned(turn, loops, j) + Assigned(k, loops, j)
  {
    if k > 0 {
      TurnAdds(turn, k - 1, loops, j);
      SameTicket(k - 1);
      AssignedNext(turn + k - 1, loops, j);
    }
  }

  lemma AssignedNext(k: nat, loops: nat, j: nat)
    requires 0 < loops
    ensures Assigned(k + 1, loops, j) == Assigned(k, loops, j) + (if Slot(k, loops) == j then 1 else 0)
  {
  }

  /** Connections assigned to the first `upto` loops. */
  function Total(k: nat, loops: nat, upto: nat): nat
    requires 0 < loops
    decreases upto
  {
    if upto == 0 then 0 else Total(k, loops, upto - 1) + Assigned(k, loops, upto - 1)
  }

  lemma {:induction false} TotalNext(k: nat, loops: nat, upto: nat)
    requires 0 < loops && 0 < k
    ensures Total(k, loops, upto) == Total(k - 1, loops, upto) + (if Slot(k - 1, loops) < upto then 1 else 0)
    decreases upto
  {
    if upto > 0 {
      TotalNext(k, loops, upto - 1);
    }
  }

  lemma {:induction false} TotalNone(loops: nat, upto: nat)
    requires 0 < loops
    ensures Total(0, loops, upto) == 0
  {
    if upto > 0 {
      TotalNone(loops, upto - 1);
    }
  }

  lemma {:induction false} TotalAll(k: nat, loops: nat)
    requires 0 < loops
    ensures Total(k, loops, loops) == k
  {
    if k == 0 {
      TotalNone(loops, loops);
    } else {
      TotalAll(k - 1, loops);
      TotalNext(k, loops, loops);
    }
  }

  lemma {:induction false} TotalOfEqual(k: nat, loops: nat, upto: nat)
    requires upto <= loops && 0 < loops
    requires forall j: nat :: j < loops ==> Assigned(k, loops, j) == Assigned(k, loops, 0)
    ensures Total(k, loops, upto) == upto * Assigned(k, loops, 0)
  {
    if upto > 0 {
      TotalOfEqual(k, loops, upto - 1);
      assert Assigned(k, loops, upto - 1) == Assigned(k, loops, 0);
      MulNext(upto - 1, Assigned(k, loops, 0));
    }
  }

  /** Unless the loop count divides 2^32, a turn of the counter favours some loop, and two turns favour it twice. */
  lemma UnbalancedAfterTwoTurns(loops: nat)
    requires 0 < loops && TWO32 % loops != 0
    ensures !Balanced(2 * TWO32, loops)
  {
    if j: nat :| j < loops && Assigned(TWO32, loops, j) != Assigned(TWO32, loops, 0) {
      TurnAdds(TWO32, TWO32, loops, j);
      TurnAdds(TWO32, TWO32, loops, 0);
      if Assigned(TWO32, loops, j) > Assigned(TWO32, loops, 0) {
        assert Assigned(2 * TWO32, loops, j) > Assigned(2 * TWO32, loops, 0) + 1;
      } else {
        assert Assigned(2 * TWO32, loops, 0) > Assigned(2 * TWO32, loops, j) + 1;
      }
    } else {
      var each := Assigned(TWO32, loops, 0);
      TotalOfEqual(TWO32, loops, loops);
      TotalAll(TWO32, loops);
      DivUnique(TWO32, loops, each, 0);
      assert false;
    }
  }

  /**
   Round robin: no loop is ever two connections ahead of another, however many arrive, if and only if the number
   of loops divides 2^32; and in any case while the 32-bit counter has not wrapped.
   */
  lemma BalancedForever(loops: nat)
    requires 0 < loops
    ensures (forall k: nat :: Balanced(k, loops)) <==> TWO32 % loops == 0
    ensures forall k: nat :: k <= TWO31 ==> Balanced(k, loops)
  {
    forall k: nat | InRotation(k, loops) ensures Balanced(k, loops) {
      BalancedInRotation(k, loops);
    }
    if TWO32 % loops != 0 {
      UnbalancedAfterTwoTurns(loops);
    }
  }

  // ---------------------------------------------------------------- removals of one connection

  /** With worker loops: removals posted to the main loop, destructions posted to the connection's own, and its state. */
  datatype Removal = Removal(main: nat, destroys: nat, connected: bool) {
    /** A main task turns into a destruction, and the destruction of a CONNECTED connection into a main task. */
    function Owed(): nat { 2 * main + destroys + (if connected then 2 else 0) }

    predicate Enabled(step: RemovalStep) {
      match step
      case MainRuns => 0 < main
      case LoopRuns => 0 < destroys
      case _ => true
    }

    function After(step: RemovalStep): Removal
      requires Enabled(step)
    {
      match step
      case Error => Removal(main + 1, destroys, connected)
      case Close => Removal(main + 1, destroys, false)
      case MainRuns => Removal(main - 1, destroys + 1, connected)
      case LoopRuns => if connected then Removal(main + 1, destroys - 1, false) else Removal(main, destroys - 1, false)
    }

    predicate Valid(steps: seq<RemovalStep>)
      decreases |steps|
    {
      steps == [] || (Enabled(steps[0]) && After(steps[0]).Valid(steps[1..]))
    }
  }

  datatype RemovalStep = Error | Close | MainRuns | LoopRuns

  function CountTrouble(steps: seq<RemovalStep>): nat {
    if steps == [] then 0 else (if steps[0].Error? || steps[0].Close? then 1 else 0) + CountTrouble(steps[1..])
  }

  /**
   A connection is not passed to and fro for ever: each error or close makes two posted tasks at the most, and its
   own end two more.
   */
  lemma {:induction false} RemovalsAreBounded(r: Removal, steps: seq<RemovalStep>)
    requires r.Valid(steps)
    ensures |steps| - CountTrouble(steps) <= r.Owed() + 2 * CountTrouble(steps)
    decreases |steps|
  {
    if steps != [] {
      RemovalsAreBounded(r.After(steps[0]), steps[1..]);
    }
  }

  // ---------------------------------------------------------------- the server

  class EchoServer {
    var connections: map<string, nat>          // by name; guarded by connections_mutex_
    var locked: bool
    var endpoints: map<nat, Spec.Conn>         // every connection object ever made
    var mainTasks: seq<nat>                    // removals posted to the main loop
    var nextConnId: nat
    var nextLoopIndex: nat
    const loops: nat                           // worker loops; none means everything runs on the main loop

    ghost predicate Valid()
      reads this
    {
      && !locked && 1 <= nextConnId && (loops > 0 ==> nextLoopIndex == nextConnId - 1)
      && (forall name :: name in connections ==> connections[name] in endpoints && name == Name(connections[name]))
      && (forall id :: id in mainTasks ==> id in endpoints)
      && (forall id :: id in endpoints ==> id < nextConnId && endpoints[id].inlineRemoval == (loops == 0))
    }

    constructor (loops: nat)
      ensures Valid() && connections == map[] && endpoints == map[] && mainTasks == [] && this.loops == loops
    {
      connections, locked, endpoints, mainTasks := map[], false, map[], [];
      nextConnId, nextLoopIndex := 1, 0;
      this.loops := loops;
    }

    /** `handleNewConnection`, for a socket whose future behaviour is `answers`, with the user's callback. */
    method HandleNewConnection(answers: seq<Spec.SendAnswer>, script: seq<seq<Spec.Action>>) returns (id: nat, slot: nat)
      requires Valid()
      modifies this
      ensures Valid() && mainTasks == old(mainTasks)
      ensures id == old(nextConnId) && id !in old(endpoints) && Name(id) !in old(connections)
      ensures connections == old(connections)[Name(id) := id]
      ensures var c := Spec.Initial(answers, script, loops == 0);
              endpoints == old(endpoints)[id := if loops == 0 then Spec.Establish(c) else c]
      ensures 1 <= id && (loops > 0 ==> slot == Slot(id - 1, loops))
      ensures nextConnId == id + 1
    {
      id := nextConnId;
      nextConnId := nextConnId + 1;
      if Name(id) in connections {
        NameInjective(id, connections[Name(id)]);
      }
      slot := GetNextLoop();
      var c := Spec.Initial(answers, script, loops == 0);
      locked := true;
      connections := connections[Name(id) := id];
      locked := false;
      endpoints := endpoints[id := if loops == 0 then Spec.Establish(c) else c];
    }

    method GetNextLoop() returns (slot: nat)
      modifies this`nextLoopIndex
      ensures if loops == 0 then nextLoopIndex == old(nextLoopIndex)
              else slot == Slot(old(nextLoopIndex), loops) && nextLoopIndex == old(nextLoopIndex) + 1
    {
      slot := 0;
      if loops > 0 {
        slot := Slot(nextLoopIndex, loops);
        nextLoopIndex := nextLoopIndex + 1;
      }
    }

    function Rank(id: nat): nat
      requires id in endpoints
      reads this
    {
      if endpoints[id].state.Connected? then 1 else 0
    }

    /** How far the removal of a connection has got. */
    ghost function Removals(id: nat): Removal
      requires id in endpoints
      reads this
    {
      Removal(multiset(mainTasks)[id], multiset(endpoints[id].tasks)[Spec.DestroyTask], endpoints[id].state.Connected?)
    }

    /** What removing a connection does to it: at once on a single loop, through its own loop otherwise. */
    function Removed(c: Spec.Conn): Spec.Conn {
      if loops == 0 then Spec.Destroy(c) else Spec.Post(c, Spec.DestroyTask)
    }

    method RemoveConnection(id: nat, onMain: bool)
      requires Valid() && id in endpoints
      modifies this
      ensures Valid() && nextConnId == old(nextConnId) && nextLoopIndex == old(nextLoopIndex)
      ensures onMain ==> connections == old(connections) - {Name(id)} && mainTasks == old(mainTasks)
                         && endpoints == old(endpoints)[id := Removed(old(endpoints[id]))]
      ensures !onMain ==> connections == old(connections) && endpoints == old(endpoints)
                          && mainTasks == old(mainTasks) + [id]
      decreases Rank(id), 2
    {
      if onMain {
        RemoveConnectionInLoop(id);
      } else {
        mainTasks := mainTasks + [id];
      }
    }

    /** The table's lock is taken only around the erase: it is free whenever a callback runs. */
    method RemoveConnectionInLoop(id: nat)
      requires Valid() && id in endpoints
      modifies this
      ensures Valid() && nextConnId == old(nextConnId) && nextLoopIndex == old(nextLoopIndex)
      ensures mainTasks == old(mainTasks)
      ensures connections == old(connections) - {Name(id)}
      ensures endpoints == old(endpoints)[id := Removed(old(endpoints[id]))]
      decreases Rank(id), 1
    {
      locked := true;
      connections := connections - {Name(id)};
      locked := false;
      if loops == 0 {
        DestroyConnection(id);
        assert connections == old(connections) - {Name(id)};
      } else {
        endpoints := endpoints[id := Spec.Post(endpoints[id], Spec.DestroyTask)];
      }
    }

    /** `destroyConnection` on the connection's own loop: its close callback comes back to `removeConnection`. */
    method DestroyConnection(id: nat)
      requires Valid() && id in endpoints
      modifies this
      ensures Valid() && nextConnId == old(nextConnId) && nextLoopIndex == old(nextLoopIndex)
      ensures endpoints == old(endpoints)[id := Spec.Destroy(old(endpoints[id]))]
      ensures connections == if loops == 0 && old(endpoints[id]).state.Connected? then old(connections) - {Name(id)}
                             else old(connections)
      ensures mainTasks == if loops > 0 && old(endpoints[id]).state.Connected? then old(mainTasks) + [id]
                           else old(mainTasks)
      decreases Rank(id), 0
    {
      var c := endpoints[id];
      if c.state.Connected? {
        endpoints := endpoints[id := Spec.Destroy(c)];
        RemoveConnection(id, loops == 0);
      } else {
        assert endpoints == endpoints[id := c];
      }
    }

    /** The error callback, on the connection's loop. */
    method HandleError(id: nat)
      requires Valid() && id in endpoints
      modifies this
      ensures Valid() && nextConnId == old(nextConnId) && nextLoopIndex == old(nextLoopIndex)
      ensures endpoints == old(endpoints)[id := Spec.HandleError(old(endpoints[id]))]
      ensures loops == 0 ==> !endpoints[id].state.Connected?
      ensures connections == if loops == 0 then old(connections) - {Name(id)} else old(connections)
      ensures mainTasks == if loops == 0 then old(mainTasks) else old(mainTasks) + [id]
      ensures loops > 0 ==> Removals(id) == old(Removals(id)).After(Error)
    {
      RemoveConnection(id, loops == 0);
      assert loops > 0 ==> endpoints == endpoints[id := endpoints[id]];
    }

    /** `handleClose` with its close callback, on the connection's loop. */
    method HandleClose(id: nat)
      requires Valid() && id in endpoints
      modifies this
      ensures Valid() && nextConnId == old(nextConnId) && nextLoopIndex == old(nextLoopIndex)
      ensures endpoints == old(endpoints)[id := Spec.HandleClose(old(endpoints[id]))]
      ensures endpoints[id].state.Disconnected?
      ensures connections == if loops == 0 then old(connections) - {Name(id)} else old(connections)
      ensures mainTasks == if loops == 0 then old(mainTasks) else old(mainTasks) + [id]
      ensures loops > 0 ==> Removals(id) == old(Removals(id)).After(Close)
    {
      endpoints := endpoints[id := Spec.HandleClose(endpoints[id])];
      RemoveConnection(id, loops == 0);
    }

    /** The main loop's next posted removal. */
    method RunMainTask()
      requires Valid() && mainTasks != []
      modifies this
      ensures old(mainTasks[0]) in old(endpoints)
      ensures Valid() && mainTasks == old(mainTasks)[1..]
      ensures connections == old(connections) - {Name(old(mainTasks[0]))}
      ensures endpoints == old(endpoints)[old(mainTasks[0]) := Removed(old(endpoints[mainTasks[0]]))]
      ensures loops > 0 ==> old(Removals(mainTasks[0])).Enabled(MainRuns)
      ensures loops > 0 ==> Removals(old(mainTasks[0])) == old(Removals(mainTasks[0])).After(MainRuns)
    {
      var id := mainTasks[0];
      assert mainTasks == [id] + mainTasks[1..];
      mainTasks := mainTasks[1..];
      RemoveConnectionInLoop(id);
    }

    /** A connection's own loop runs a posted destruction. */
    method RunDestroyTask(id: nat)
      requires Valid() && id in endpoints && endpoints[id].tasks != [] && endpoints[id].tasks[0].DestroyTask?
      modifies this
      ensures Valid() && id in old(endpoints)
      ensures endpoints == old(endpoints)[id := Spec.Step(old(endpoints[id]), Spec.RunPosted)]
      ensures loops > 0 ==> old(Removals(id)).Enabled(LoopRuns) && Removals(id) == old(Removals(id)).After(LoopRuns)
    {
      var c := endpoints[id];
      assert c.tasks == [Spec.DestroyTask] + c.tasks[1..];
      endpoints := endpoints[id := c.(tasks := c.tasks[1..])];
      DestroyConnection(id);
    }

    /** Removing one connection from the table leaves every other one in it. */
    lemma OnlyOneLeaves(id: nat, other: nat)
      requires Valid() && other != id && Name(other) in connections
      ensures Name(other) in connections - {Name(id)}
    {
      if Name(other) == Name(id) {
        NameInjective(other, id);
      }
    }
  }
}
