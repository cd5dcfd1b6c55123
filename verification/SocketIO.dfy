/**
 Line framing over a stream socket: Reactor_v4/SocketIO.cc, and `receive` of Reactor_v4/TcpConnection.cc.
 How the kernel cuts the stream is an oracle, a script of answers that the results must not depend on; once the
 script is used up, every call is served in full. Interrupted calls are finitely many because the script is finite.
 */
module SocketIO {
  import opened Bytes
  import B = ByteBuffer

  datatype Answer = Chunk(n: nat) | Interrupted | Failed

  /** No call fails for good; interruptions are allowed. */
  predicate Healthy(script: seq<Answer>) { Failed !in script }

  datatype Errno = NoError | EINTR | OtherErrno

  /** How much of `available` bytes one call moves: at least one, if there is any. */
  function Portion(n: nat, available: nat): nat {
    if available == 0 then 0 else Max(1, Min(n, available))
  }

  // ---------------------------------------------------------------- receiving

  class Inlet {
    var unread: seq<Byte>
    var script: seq<Answer>

    constructor (stream: seq<Byte>, script: seq<Answer>)
      ensures unread == stream && this.script == script
    {
      unread, this.script := stream, script;
    }

    /** `recv`, with or without MSG_PEEK: -1 and an error, 0 at end of stream, or a number of bytes. */
    method Recv(buf: array<Byte>, at: nat, len: nat, peek: bool) returns (ret: int, errno: Errno)
      requires at + len <= buf.Length
      modifies this, buf
      ensures script == if old(script) == [] then [] else old(script)[1..]
      ensures ret == -1 <==> old(script) != [] && !old(script)[0].Chunk?
      ensures ret == -1 ==> errno == (if old(script)[0].Interrupted? then EINTR else OtherErrno)
      ensures ret == -1 || 0 <= ret <= Min(len, |old(unread)|)
      ensures ret == 0 <==> ret != -1 && Min(len, |old(unread)|) == 0
      ensures unread == if peek || ret <= 0 then old(unread) else old(unread)[ret..]
      ensures ret > 0 ==> buf[at..at + ret] == old(unread)[..ret]
      ensures forall k :: 0 <= k < buf.Length && !(at <= k < at + ret) ==> buf[k] == old(buf[k])
    {
      var available := Min(len, |unread|);
      var count := available;
      if script != [] {
        var a := script[0];
        script := script[1..];
        if a.Interrupted? {
          return -1, EINTR;
        }
        if a.Failed? {
          return -1, OtherErrno;
        }
        count := Portion(a.n, available);
      }
      forall k | 0 <= k < count { buf[at + k] := unread[k]; }
      if !peek {
        unread := unread[count..];
      }
      ret, errno := count, NoError;
    }
  }

  /** Taking `n` bytes more of a stream of which `k` bytes are taken. */
  lemma TakeMore(s: seq<Byte>, k: nat, n: nat)
    requires k + n <= |s|
    ensures s[..k + n] == s[..k] + s[k..][..n] && s[k..][n..] == s[k + n..]
  {
  }

  /** One `recv` behind the bytes of `stream` that `buf` holds from `at` on. */
  method RecvOnto(io: Inlet, buf: array<Byte>, at: nat, p: nat, len: nat, ghost stream: seq<Byte>)
    returns (ret: int, errno: Errno)
    requires at <= p && p + len <= buf.Length && p - at <= |stream|
    requires buf[at..p] == stream[..p - at] && io.unread == stream[p - at..]
    modifies io, buf
    ensures io.script == if old(io.script) == [] then [] else old(io.script)[1..]
    ensures ret == -1 <==> old(io.script) != [] && !old(io.script)[0].Chunk?
    ensures ret == -1 ==> errno == (if old(io.script)[0].Interrupted? then EINTR else OtherErrno)
    ensures Healthy(old(io.script)) ==> Healthy(io.script) && (ret == -1 ==> errno == EINTR)
    ensures ret == -1 || 0 <= ret <= len
    ensures ret == 0 <==> ret != -1 && (len == 0 || p - at == |stream|)
    ensures var q := if ret > 0 then p + ret else p;
            && q - at <= |stream| && buf[at..q] == stream[..q - at] && io.unread == stream[q - at..]
            && forall k :: 0 <= k < buf.Length && !(p <= k < q) ==> buf[k] == old(buf[k])
  {
    ghost var done := buf[at..p];
    ret, errno := io.Recv(buf, p, len, false);
    assert buf[at..p] == done;
    if ret > 0 {
      TakeMore(stream, p - at, ret);
      assert buf[at..p + ret] == done + buf[p..p + ret];
    }
  }

  /** Reads exactly `len` bytes, unless the stream ends or a call fails. */
  method Readn(io: Inlet, buf: array<Byte>, at: nat, len: nat) returns (n: nat)
    requires at + len <= buf.Length
    modifies io, buf
    ensures n <= len && n <= |old(io.unread)|
    ensures buf[at..at + n] == old(io.unread)[..n] && io.unread == old(io.unread)[n..]
    ensures forall k :: 0 <= k < buf.Length && !(at <= k < at + n) ==> buf[k] == old(buf[k])
    ensures Healthy(old(io.script)) ==> n == Min(len, |old(io.unread)|) && Healthy(io.script)
  {
    ghost var stream := io.unread;
    var left, p := len, at;
    while left > 0
      invariant 0 <= left <= len && p + left == at + len && p - at <= |stream|
      invariant buf[at..p] == stream[..p - at] && io.unread == stream[p - at..]
      invariant forall k :: 0 <= k < buf.Length && !(at <= k < p) ==> buf[k] == old(buf[k])
      invariant Healthy(old(io.script)) ==> Healthy(io.script)
      decreases left, |io.script|
    {
      var ret, errno := RecvOnto(io, buf, at, p, left, stream);
      if ret == -1 && errno == EINTR {
        continue;
      } else if ret == -1 {
        return len - left;
      } else if ret == 0 {
        return len - left;
      } else {
        left := left - ret;
        p := p + ret;
      }
    }
    n := len - left;
  }

  /** Looks at what is next in the stream without taking it; -1 only for an error other than an interruption. */
  method RecvPeek(io: Inlet, buf: array<Byte>, at: nat, len: nat) returns (ret: int)
    requires at + len <= buf.Length
    modifies io, buf
    ensures ret == -1 || (0 <= ret <= Min(len, |old(io.unread)|) && (ret == 0 <==> Min(len, |old(io.unread)|) == 0))
    ensures Healthy(old(io.script)) ==> ret != -1 && Healthy(io.script)
    ensures io.unread == old(io.unread)
    ensures ret > 0 ==> buf[at..at + ret] == old(io.unread)[..ret]
    ensures forall k :: 0 <= k < buf.Length && !(at <= k < at + ret) ==> buf[k] == old(buf[k])
  {
    var errno;
    ret, errno := io.Recv(buf, at, len, true);
    while ret == -1 && errno == EINTR
      invariant Healthy(old(io.script)) ==> Healthy(io.script) && (ret == -1 ==> errno == EINTR)
      invariant ret == -1 || (0 <= ret <= Min(len, |old(io.unread)|) && (ret == 0 <==> Min(len, |old(io.unread)|) == 0))
      invariant io.unread == old(io.unread)
      invariant ret > 0 ==> buf[at..at + ret] == old(io.unread)[..ret]
      invariant forall k :: 0 <= k < buf.Length && !(at <= k < at + ret) ==> buf[k] == old(buf[k])
      decreases |io.script|, if ret == -1 then 1 else 0
    {
      ret, errno := io.Recv(buf, at, len, true);
    }
  }

  // ---------------------------------------------------------------- lines

  /** The stream starts with a whole line, or with as many bytes as fit. */
  predicate HasLine(s: seq<Byte>, maxlen: nat)
    requires 1 <= maxlen
  {
    LF in s[..Min(maxlen - 1, |s|)] || maxlen - 1 <= |s|
  }

  /** The first line with its line feed, or the first `maxlen - 1` bytes. */
  function Line(s: seq<Byte>, maxlen: nat): (r: seq<Byte>)
    requires 1 <= maxlen && HasLine(s, maxlen)
    ensures r <= s && |r| <= maxlen - 1
    ensures forall k :: 0 <= k < |r| - 1 ==> r[k] != LF
    ensures |r| == maxlen - 1 || (r != [] && r[|r| - 1] == LF)
  {
    var head := s[..Min(maxlen - 1, |s|)];
    match B.FirstByte(head, LF, 0)
    case Some(k) => s[..k + 1]
    case None => head
  }

  /** More bytes do not change a line that is there. */
  lemma LineStays(s: seq<Byte>, more: seq<Byte>, maxlen: nat)
    requires 1 <= maxlen && HasLine(s, maxlen)
    ensures HasLine(s + more, maxlen) && Line(s + more, maxlen) == Line(s, maxlen)
  {
    LineUnique(s + more, maxlen, Line(s, maxlen));
  }

  /** Those properties determine the line. */
  lemma LineUnique(s: seq<Byte>, maxlen: nat, r: seq<Byte>)
    requires 1 <= maxlen && r <= s && |r| <= maxlen - 1
    requires forall k :: 0 <= k < |r| - 1 ==> r[k] != LF
    requires |r| == maxlen - 1 || (r != [] && r[|r| - 1] == LF)
    ensures HasLine(s, maxlen) && Line(s, maxlen) == r
  {
    if |r| > 0 && r[|r| - 1] == LF {
      assert s[..Min(maxlen - 1, |s|)][|r| - 1] == LF;
    }
    var line := Line(s, maxlen);
    assert forall k :: 0 <= k < |r| && k < |line| ==> r[k] == line[k];
    assert |r| == |line|;
  }

  /** The first `p` bytes of `stream` are in `buf`, the others still unread. */
  ghost predicate Upto(io: Inlet, buf: array<Byte>, stream: seq<Byte>, p: nat)
    reads io, buf
  {
    Healthy(io.script) && p <= buf.Length && p <= |stream| && buf[..p] == stream[..p] && io.unread == stream[p..]
  }

  /** `readn` of bytes that were just peeked; `stream` is what the line is being read from. */
  method Consume(io: Inlet, buf: array<Byte>, p: nat, len: nat, ghost stream: seq<Byte>)
    requires p + len <= buf.Length && p + len <= |stream| && Healthy(io.script)
    requires buf[..p] == stream[..p] && io.unread == stream[p..]
    modifies io, buf
    ensures Healthy(io.script)
    ensures buf[..p + len] == stream[..p + len] && io.unread == stream[p + len..]
  {
    ghost var before := buf[..p];
    var n := Readn(io, buf, p, len);
    assert buf[..p] == before;
    assert buf[..p + len] == before + buf[p..p + len];
    TakeMore(stream, p, len);
  }

  // ---------------------------------------------------------------- readline, pass by pass

  /** The outer loop of `readline` on values: what is read so far, what is left of the stream, whether it returned. */
  datatype Scan = Scan(taken: seq<Byte>, rest: seq<Byte>, left: nat, returned: bool)

  /** One pass of the loop, when the kernel offers `n` bytes (at least one, at most what there is) to the peek. */
  function Pass(s: Scan, n: nat): Scan {
    if s.returned || s.left == 0 then s.(returned := true)
    else
      var ret := Portion(n, Min(s.left, |s.rest|));
      match B.FirstByte(s.rest[..ret], LF, 0)
      case Some(k) => Scan(s.taken + s.rest[..k + 1], s.rest[k + 1..], s.left, true)
      case None => Scan(s.taken + s.rest[..ret], s.rest[ret..], s.left - ret, s.left == ret)
  }

  function Passes(s: Scan, chunks: seq<nat>): Scan
    decreases |chunks|
  {
    if chunks == [] then s else Passes(Pass(s, chunks[0]), chunks[1..])
  }

  /** What is still missing is in the rest of the stream, or not. */
  predicate WillReturn(s: Scan) {
    s.returned || HasLine(s.rest, s.left + 1)
  }

  lemma PassKeepsFate(s: Scan, n: nat)
    ensures WillReturn(Pass(s, n)) <==> WillReturn(s)
    ensures Pass(s, n).left <= s.left
    ensures WillReturn(s) && !s.returned ==> Pass(s, n).returned || Pass(s, n).left < s.left
  {
    if !s.returned && s.left > 0 {
      var ret := Portion(n, Min(s.left, |s.rest|));
      var head := s.rest[..Min(s.left, |s.rest|)];
      var d := Pass(s, n);
      assert head == s.rest[..ret] + s.rest[ret..][..Min(s.left, |s.rest|) - ret];
      if k :| 0 <= k < ret && s.rest[..ret][k] == LF {
        assert head[k] == LF;
      } else {
        assert s.rest[ret..][..Min(s.left - ret, |s.rest| - ret)] == head[ret..];
        assert LF in head <==> LF in head[ret..];
      }
    }
  }

  lemma {:induction false} FateIsFinal(s: Scan, chunks: seq<nat>)
    requires s.returned || !WillReturn(s)
    ensures Passes(s, chunks).returned == s.returned
    decreases |chunks|
  {
    if chunks != [] {
      PassKeepsFate(s, chunks[0]);
      FateIsFinal(Pass(s, chunks[0]), chunks[1..]);
    }
  }

  /**
   `readline` does not look for end of stream: on a stream without a whole line or `maxlen - 1` bytes it peeks for
   ever, and otherwise it returns within `maxlen` passes, however the peeks are cut.
   */
  lemma {:induction false} ReadlineReturns(s: Scan, chunks: seq<nat>)
    requires s.left < |chunks|
    ensures Passes(s, chunks).returned <==> WillReturn(s)
    decreases |chunks|
  {
    PassKeepsFate(s, chunks[0]);
    var d := Pass(s, chunks[0]);
    if d.left < |chunks[1..]| {
      ReadlineReturns(d, chunks[1..]);
    } else {
      FateIsFinal(d, chunks[1..]);
    }
  }

  lemma ReadlineReturnsIff(stream: seq<Byte>, maxlen: nat, chunks: seq<nat>)
    requires 1 <= maxlen <= |chunks|
    ensures Passes(Scan([], stream, maxlen - 1, false), chunks).returned <==> HasLine(stream, maxlen)
  {
    ReadlineReturns(Scan([], stream, maxlen - 1, false), chunks);
  }

  /** The scan for a line feed among the bytes just peeked. */
  method FindLF(buf: array<Byte>, p: nat, ret: nat, ghost stream: seq<Byte>) returns (idx: nat)
    requires p + ret <= buf.Length && p + ret <= |stream| && buf[..p + ret] == stream[..p + ret]
    ensures idx <= ret && LF !in stream[p..p + idx] && (idx < ret ==> stream[p + idx] == LF)
  {
    idx := 0;
    while idx != ret
      invariant idx <= ret && LF !in stream[p..p + idx]
    {
      assert buf[p + idx] == buf[..p + ret][p + idx] == stream[..p + ret][p + idx];
      if buf[p + idx] == LF {
        return;
      }
      assert stream[p..p + idx + 1] == stream[p..p + idx] + [stream[p + idx]];
      idx := idx + 1;
    }
  }

  /** The first `total` bytes end in their only line feed. */
  ghost predicate EndsFirstLine(s: seq<Byte>, total: nat) {
    0 < total <= |s| && s[total - 1] == LF && LF !in s[..total - 1]
  }

  lemma NoneBefore(s: seq<Byte>, p: nat, n: nat)
    requires p + n <= |s| && LF !in s[..p] && LF !in s[p..p + n]
    ensures LF !in s[..p + n]
  {
    assert s[..p + n] == s[..p] + s[p..p + n];
  }

  /** `recvPeek` just behind the part of the line already read. */
  method PeekOnto(io: Inlet, buf: array<Byte>, p: nat, len: nat, ghost stream: seq<Byte>) returns (ret: int)
    requires p + len <= buf.Length && p <= |stream| && Healthy(io.script)
    requires buf[..p] == stream[..p] && io.unread == stream[p..]
    modifies io, buf
    ensures 0 <= ret <= len && p + ret <= |stream| && Healthy(io.script)
    ensures ret == 0 <==> len == 0 || p == |stream|
    ensures buf[..p + ret] == stream[..p + ret] && io.unread == stream[p..] && buf[..p] == stream[..p]
  {
    ghost var before := buf[..p];
    ret := RecvPeek(io, buf, p, len);
    assert buf[..p] == before;
    assert buf[..p + ret] == before + buf[p..p + ret];
    TakeMore(stream, p, ret);
  }

  /** Consumes the rest of the line and terminates it. */
  method TakeLine(io: Inlet, buf: array<Byte>, p: nat, sz: nat, ghost stream: seq<Byte>)
    requires p + sz < buf.Length && p + sz <= |stream| && Healthy(io.script)
    requires buf[..p] == stream[..p] && io.unread == stream[p..]
    modifies io, buf
    ensures Healthy(io.script) && io.unread == stream[p + sz..]
    ensures buf[..p + sz] == stream[..p + sz] && buf[p + sz] == NUL
  {
    Consume(io, buf, p, sz, stream);
    Terminate(buf, p + sz);
  }

  method Terminate(buf: array<Byte>, at: nat)
    requires at < buf.Length
    modifies buf
    ensures buf[..at] == old(buf[..at]) && buf[at] == NUL
  {
    buf[at] := NUL;
  }

  lemma FirstLF(s: seq<Byte>, idx: nat)
    requires idx <= |s| && (forall k :: 0 <= k < idx ==> s[k] != LF) && (idx < |s| ==> s[idx] == LF)
    ensures B.FirstByte(s, LF, 0) == if idx < |s| then Some(idx) else None
  {
    var r := B.FirstByte(s, LF, 0);
    assert r.Some? ==> s[r.value] == LF;
  }

  lemma PassResult(stream: seq<Byte>, p: nat, left: nat, ret: nat, idx: nat)
    requires p + ret <= |stream| && 0 < left && ret <= left && (ret == 0 <==> p == |stream|)
    requires idx <= ret && LF !in stream[p..p + idx] && (idx < ret ==> stream[p + idx] == LF)
    ensures var sz := if idx < ret then idx + 1 else ret;
            Pass(Scan(stream[..p], stream[p..], left, false), ret) ==
            Scan(stream[..p + sz], stream[p + sz..], if idx < ret then left else left - sz, idx < ret || sz == left)
  {
    var sz := if idx < ret then idx + 1 else ret;
    assert Portion(ret, Min(left, |stream[p..]|)) == ret;
    var peeked := stream[p..][..ret];
    forall k | 0 <= k < idx ensures peeked[k] != LF {
      assert peeked[k] == stream[p + k] == stream[p..p + idx][k];
    }
    FirstLF(peeked, idx);
    TakeMore(stream, p, sz);
  }

  /** One pass of the loop: peeks, looks for a line feed, and consumes up to it, or all that was peeked. */
  method ReadlinePass(io: Inlet, buf: array<Byte>, p: nat, left: nat, ghost stream: seq<Byte>)
    returns (sz: nat, found: bool, ghost n: nat)
    requires 0 < left && p + left < buf.Length && Upto(io, buf, stream, p)
    modifies io, buf
    ensures sz <= left && Upto(io, buf, stream, p + sz)
    ensures if found then buf[p + sz] == NUL && 0 < sz && LF !in stream[p..p + sz - 1] && stream[p + sz - 1] == LF
            else LF !in stream[p..p + sz]
    ensures Pass(Scan(stream[..p], stream[p..], left, false), n) ==
            Scan(stream[..p + sz], stream[p + sz..], if found then left else left - sz, found || sz == left)
  {
    var ret := PeekOnto(io, buf, p, left, stream);
    var idx := FindLF(buf, p, ret, stream);
    n, found := ret, idx < ret;
    PassResult(stream, p, left, ret, idx);
    if found {
      sz := idx + 1;
      TakeLine(io, buf, p, sz, stream);
    } else {
      sz := ret;
      Consume(io, buf, p, ret, stream);
    }
  }

  lemma {:induction false} PassesSnoc(s: Scan, chunks: seq<nat>, n: nat)
    ensures Passes(s, chunks + [n]) == Pass(Passes(s, chunks), n)
    decreases |chunks|
  {
    if chunks == [] {
      assert [n][1..] == [];
    } else {
      PassesSnoc(Pass(s, chunks[0]), chunks[1..], n);
      assert (chunks + [n])[1..] == chunks[1..] + [n];
    }
  }

  /** The loop has not found a line feed; the passes so far are those of `Passes`. */
  ghost predicate Reading(stream: seq<Byte>, maxlen: nat, total: nat, left: nat, chunks: seq<nat>) {
    && total + left + 1 == maxlen && total <= |stream| && LF !in stream[..total]
    && (0 < left ==>
          Passes(Scan([], stream, maxlen - 1, false), chunks) == Scan(stream[..total], stream[total..], left, false))
  }

  lemma ReadOn(stream: seq<Byte>, maxlen: nat, total: nat, left: nat, chunks: seq<nat>, sz: nat, n: nat)
    requires Reading(stream, maxlen, total, left, chunks) && 0 < left && sz <= left && total + sz <= |stream|
    requires LF !in stream[total..total + sz]
    requires Pass(Scan(stream[..total], stream[total..], left, false), n) ==
             Scan(stream[..total + sz], stream[total + sz..], left - sz, sz == left)
    ensures Reading(stream, maxlen, total + sz, left - sz, chunks + [n])
  {
    PassesSnoc(Scan([], stream, maxlen - 1, false), chunks, n);
    NoneBefore(stream, total, sz);
  }

  /** A pass, as one more of the passes so far. */
  method ReadlineStep(io: Inlet, buf: array<Byte>, maxlen: nat, p: nat, left: nat, ghost stream: seq<Byte>,
                      ghost chunks: seq<nat>)
    returns (sz: nat, found: bool, ghost more: seq<nat>)
    requires 0 < left && maxlen <= buf.Length && Reading(stream, maxlen, p, left, chunks) && Upto(io, buf, stream, p)
    modifies io, buf
    ensures sz <= left && Upto(io, buf, stream, p + sz) && |more| == |chunks| + 1
    ensures if found then buf[p + sz] == NUL && EndsFirstLine(stream, p + sz)
            else Reading(stream, maxlen, p + sz, left - sz, more)
  {
    ghost var n;
    sz, found, n := ReadlinePass(io, buf, p, left, stream);
    more := chunks + [n];
    if found {
      NoneBefore(stream, p, sz - 1);
    } else {
      ReadOn(stream, maxlen, p, left, chunks, sz, n);
    }
  }

  /** The loop of `readline`, for at most a number of passes because it need not end. */
  method ReadlineLoop(io: Inlet, buf: array<Byte>, maxlen: nat, passes: nat)
    returns (total: nat, left: nat, found: bool, ghost chunks: seq<nat>)
    requires 1 <= maxlen <= buf.Length && Healthy(io.script)
    modifies io, buf
    ensures total < maxlen && Upto(io, buf, old(io.unread), total)
    ensures if found then buf[total] == NUL && EndsFirstLine(old(io.unread), total)
            else Reading(old(io.unread), maxlen, total, left, chunks) && (left == 0 || |chunks| == passes)
  {
    ghost var stream := io.unread;
    var pass := 0;
    total, left, found, chunks := 0, maxlen - 1, false, [];
    while left > 0 && pass < passes
      invariant Reading(stream, maxlen, total, left, chunks) && |chunks| == pass <= passes
      invariant Upto(io, buf, stream, total) && !found
    {
      var sz;
      sz, found, chunks := ReadlineStep(io, buf, maxlen, total, left, stream, chunks);
      total := total + sz;
      if found {
        return;
      }
      left, pass := left - sz, pass + 1;
    }
  }

  /**
   `readline`, cut off after a number of passes. It returns exactly when the stream holds a line, at the latest in
   pass `maxlen`, and then with that line.
   */
  method ReadlineFor(io: Inlet, buf: array<Byte>, maxlen: nat, passes: nat) returns (total: nat, returned: bool)
    requires 1 <= maxlen <= buf.Length && Healthy(io.script)
    modifies io, buf
    ensures Healthy(io.script) && total < maxlen && total <= |old(io.unread)|
    ensures buf[..total] == old(io.unread)[..total] && io.unread == old(io.unread)[total..]
    ensures returned ==>
              HasLine(old(io.unread), maxlen) && buf[..total] == Line(old(io.unread), maxlen) && buf[total] == NUL
    ensures maxlen <= passes ==> (returned <==> HasLine(old(io.unread), maxlen))
  {
    ghost var stream, chunks := io.unread, [];
    var left;
    total, left, returned, chunks := ReadlineLoop(io, buf, maxlen, passes);
    if !returned && left == 0 {
      Terminate(buf, total);
      returned := true;
    }
    if returned {
      LineUnique(stream, maxlen, stream[..total]);
    } else if maxlen <= passes {
      ReadlineReturnsIff(stream, maxlen, chunks);
    }
  }

  /** On a stream that holds a line, `readline` returns it, however peeks and reads are cut. */
  method Readline(io: Inlet, buf: array<Byte>, maxlen: nat) returns (total: nat)
    requires 1 <= maxlen <= buf.Length
    requires Healthy(io.script) && HasLine(io.unread, maxlen)
    modifies io, buf
    ensures Healthy(io.script) && total < maxlen
    ensures buf[..total] == Line(old(io.unread), maxlen) && buf[total] == NUL
    ensures io.unread == old(io.unread)[total..]
  {
    var returned;
    total, returned := ReadlineFor(io, buf, maxlen, maxlen);
  }

  // ---------------------------------------------------------------- sending

  class Outlet {
    var wire: seq<Byte>
    var script: seq<Answer>

    constructor (script: seq<Answer>)
      ensures wire == [] && this.script == script
    {
      wire, this.script := [], script;
    }

    method Send(data: seq<Byte>) returns (ret: int, errno: Errno)
      requires data != []
      modifies this
      ensures script == if old(script) == [] then [] else old(script)[1..]
      ensures ret == -1 <==> old(script) != [] && !old(script)[0].Chunk?
      ensures ret == -1 ==> errno == (if old(script)[0].Interrupted? then EINTR else OtherErrno) && wire == old(wire)
      ensures ret == -1 || (0 < ret <= |data| && wire == old(wire) + data[..ret])
    {
      var count := |data|;
      if script != [] {
        var a := script[0];
        script := script[1..];
        if a.Interrupted? {
          return -1, EINTR;
        }
        if a.Failed? {
          return -1, OtherErrno;
        }
        count := Portion(a.n, |data|);
      }
      wire := wire + data[..count];
      ret, errno := count, NoError;
    }
  }

  method Writen(io: Outlet, buff: seq<Byte>) returns (n: nat)
    modifies io
    ensures n <= |buff| && io.wire == old(io.wire) + buff[..n]
    ensures Healthy(old(io.script)) ==> n == |buff| && Healthy(io.script)
  {
    var left, p := |buff|, 0;
    while left > 0
      invariant 0 <= left && p + left == |buff|
      invariant io.wire == old(io.wire) + buff[..p]
      invariant Healthy(old(io.script)) ==> Healthy(io.script)
      decreases left, |io.script|
    {
      var ret, errno := io.Send(buff[p..]);
      if ret == -1 && errno == EINTR {
        continue;
      } else if ret == -1 {
        return |buff| - left;
      } else {
        assert buff[..p + ret] == buff[..p] + buff[p..][..ret];
        left := left - ret;
        p := p + ret;
      }
    }
    n := |buff| - left;
  }

  // ---------------------------------------------------------------- messages

  /** A message as the protocol wants it: its only line feed is its last byte, and it fits the reader's buffer. */
  predicate Framed(m: seq<Byte>, maxlen: nat) {
    0 < |m| < maxlen && m[|m| - 1] == LF && forall k :: 0 <= k < |m| - 1 ==> m[k] != LF
  }

  lemma FramedLine(m: seq<Byte>, tail: seq<Byte>, maxlen: nat)
    requires Framed(m, maxlen)
    ensures HasLine(m + tail, maxlen) && Line(m + tail, maxlen) == m
  {
    LineUnique(m + tail, maxlen, m);
  }

  /** What `count` calls of `readline` return, and what they leave unread. */
  function Lines(s: seq<Byte>, maxlen: nat, count: nat): (r: Option<(seq<seq<Byte>>, seq<Byte>)>)
    requires 1 <= maxlen
    ensures r.Some? ==> |r.value.0| == count
  {
    if count == 0 then Some(([], s))
    else if !HasLine(s, maxlen) then None
    else
      var line := Line(s, maxlen);
      match Lines(s[|line|..], maxlen, count - 1)
      case None => None
      case Some((lines, rest)) => Some(([line] + lines, rest))
  }

  /** Reading loses and adds nothing, framed or not: the lines spell the stream up to where reading stopped. */
  lemma {:induction false} LinesSpellStream(s: seq<Byte>, maxlen: nat, count: nat)
    requires 1 <= maxlen && Lines(s, maxlen, count).Some?
    ensures var (lines, rest) := Lines(s, maxlen, count).value; Concat(lines) + rest == s
    decreases count
  {
    if count > 0 {
      var line := Line(s, maxlen);
      LinesSpellStream(s[|line|..], maxlen, count - 1);
      var (lines, rest) := Lines(s[|line|..], maxlen, count - 1).value;
      assert ([line] + lines)[1..] == lines;
      Associate(line, Concat(lines), rest);
      assert s == line + s[|line|..];
    }
  }

  lemma LinesFirst(s: seq<Byte>, maxlen: nat, count: nat)
    requires 1 <= maxlen && 0 < count && HasLine(s, maxlen)
    ensures var later := Lines(s[|Line(s, maxlen)|..], maxlen, count - 1);
            && (Lines(s, maxlen, count).Some? <==> later.Some?)
            && (later.Some? ==> Lines(s, maxlen, count).value == ([Line(s, maxlen)] + later.value.0, later.value.1))
  {
  }

  lemma FirstStays(s: seq<Byte>, more: seq<Byte>, maxlen: nat, count: nat)
    requires 1 <= maxlen && 0 < count && HasLine(s, maxlen)
    requires var rest := s[|Line(s, maxlen)|..];
             && Lines(rest, maxlen, count - 1).Some?
             && Lines(rest + more, maxlen, count - 1) ==
                Some((Lines(rest, maxlen, count - 1).value.0, Lines(rest, maxlen, count - 1).value.1 + more))
    ensures Lines(s, maxlen, count).Some?
    ensures Lines(s + more, maxlen, count) ==
            Some((Lines(s, maxlen, count).value.0, Lines(s, maxlen, count).value.1 + more))
  {
    var line := Line(s, maxlen);
    LineStays(s, more, maxlen);
    assert (s + more)[|line|..] == s[|line|..] + more;
    LinesFirst(s, maxlen, count);
    LinesFirst(s + more, maxlen, count);
  }

  /** Bytes that arrive later do not change the lines already there. */
  lemma {:induction false} LinesStay(s: seq<Byte>, more: seq<Byte>, maxlen: nat, count: nat)
    requires 1 <= maxlen && Lines(s, maxlen, count).Some?
    ensures var (lines, rest) := Lines(s, maxlen, count).value;
            Lines(s + more, maxlen, count) == Some((lines, rest + more))
    decreases count
  {
    if count > 0 {
      var rest := s[|Line(s, maxlen)|..];
      LinesFirst(s, maxlen, count);
      LinesStay(rest, more, maxlen, count - 1);
      FirstStays(s, more, maxlen, count);
    }
  }

  /** Reading one line more. */
  lemma {:induction false} LinesSnoc(s: seq<Byte>, maxlen: nat, count: nat)
    requires 1 <= maxlen && Lines(s, maxlen, count).Some? && HasLine(Lines(s, maxlen, count).value.1, maxlen)
    ensures var (lines, rest) := Lines(s, maxlen, count).value;
            var line := Line(rest, maxlen);
            Lines(s, maxlen, count + 1) == Some((lines + [line], rest[|line|..]))
    decreases count
  {
    if count == 0 {
      var line := Line(s, maxlen);
      assert Lines(s[|line|..], maxlen, 0) == Some(([], s[|line|..]));
      assert [line] + [] == [line] == [] + [line];
    } else {
      var line := Line(s, maxlen);
      LinesSnoc(s[|line|..], maxlen, count - 1);
      var (lines, rest) := Lines(s[|line|..], maxlen, count - 1).value;
      Associate([line], lines, [Line(rest, maxlen)]);
    }
  }

  /** Framing round trip: framed messages written one after the other are read back one by one. */
  lemma {:induction false} FramingRoundTrip(messages: seq<seq<Byte>>, tail: seq<Byte>, maxlen: nat)
    requires 1 <= maxlen && forall m :: m in messages ==> Framed(m, maxlen)
    ensures Lines(Concat(messages) + tail, maxlen, |messages|) == Some((messages, tail))
  {
    if messages == [] {
      assert [] + tail == tail;
    } else {
      var m := messages[0];
      var rest := Concat(messages[1..]) + tail;
      Associate(m, Concat(messages[1..]), tail);
      FramedLine(m, rest, maxlen);
      FramingRoundTrip(messages[1..], tail, maxlen);
      assert (m + rest)[|m|..] == rest;
      assert [m] + messages[1..] == messages;
    }
  }

  method SendMessages(io: Outlet, messages: seq<seq<Byte>>)
    requires Healthy(io.script)
    modifies io
    ensures io.wire == old(io.wire) + Concat(messages)
  {
    for i := 0 to |messages|
      invariant Healthy(io.script)
      invariant io.wire == old(io.wire) + Concat(messages[..i])
    {
      var n := Writen(io, messages[i]);
      ConcatSnoc(messages[..i], messages[i]);
      assert messages[..i + 1] == messages[..i] + [messages[i]];
      Associate(old(io.wire), Concat(messages[..i]), messages[i]);
    }
    assert messages[..|messages|] == messages;
  }

  /** `lines` have been read of `count`, and `now` is what is left of the stream `start`. */
  ghost predicate ReadSoFar(start: seq<Byte>, maxlen: nat, count: nat, lines: seq<seq<Byte>>, now: seq<Byte>)
    requires 1 <= maxlen
  {
    && |lines| <= count
    && var all, more := Lines(start, maxlen, count), Lines(now, maxlen, count - |lines|);
    all.Some? && more.Some? && all.value == (lines + more.value.0, more.value.1)
  }

  lemma ReadOneMore(start: seq<Byte>, maxlen: nat, count: nat, lines: seq<seq<Byte>>, now: seq<Byte>)
    requires 1 <= maxlen && ReadSoFar(start, maxlen, count, lines, now) && |lines| < count
    ensures HasLine(now, maxlen)
    ensures var line := Line(now, maxlen); ReadSoFar(start, maxlen, count, lines + [line], now[|line|..])
  {
    var line := Line(now, maxlen);
    var more := Lines(now[|line|..], maxlen, count - |lines| - 1).value.0;
    assert lines + ([line] + more) == lines + [line] + more;
  }

  method ReceiveMessages(io: Inlet, maxlen: nat, count: nat) returns (lines: seq<seq<Byte>>)
    requires 1 <= maxlen && Healthy(io.script) && Lines(io.unread, maxlen, count).Some?
    modifies io
    ensures Lines(old(io.unread), maxlen, count) == Some((lines, io.unread))
  {
    lines := [];
    var buf := new Byte[maxlen](_ => 0);
    assert [] + Lines(io.unread, maxlen, count).value.0 == Lines(io.unread, maxlen, count).value.0;
    for i := 0 to count
      invariant Healthy(io.script) && |lines| == i
      invariant ReadSoFar(old(io.unread), maxlen, count, lines, io.unread)
    {
      ReadOneMore(old(io.unread), maxlen, count, lines, io.unread);
      var total := Readline(io, buf, maxlen);
      lines := lines + [buf[..total]];
    }
    assert lines + [] == lines;
  }

  /** A peer writes framed messages, the server reads them: any partial sends, peeks and reads in between. */
  method Conversation(messages: seq<seq<Byte>>, maxlen: nat, sends: seq<Answer>, recvs: seq<Answer>)
    returns (lines: seq<seq<Byte>>)
    requires 1 <= maxlen && forall m :: m in messages ==> Framed(m, maxlen)
    requires Healthy(sends) && Healthy(recvs)
    ensures lines == messages
  {
    var peer := new Outlet(sends);
    SendMessages(peer, messages);
    var server := new Inlet(peer.wire, recvs);
    assert peer.wire == Concat(messages) + [];
    FramingRoundTrip(messages, [], maxlen);
    lines := ReceiveMessages(server, maxlen, |messages|);
  }

  // ---------------------------------------------------------------- TcpConnection::receive

  const RECEIVE_SIZE: nat := 65536

  /** `string(buff)` stops at the first NUL byte. */
  function CString(s: seq<Byte>): (r: seq<Byte>)
    ensures r <= s && NUL !in r
    ensures r == s <==> NUL !in s
  {
    match B.FirstByte(s, NUL, 0)
    case Some(k) => s[..k]
    case None => s
  }

  /** So the message handed to the pool is the line, if and only if the line holds no NUL byte. */
  method Receive(io: Inlet) returns (message: seq<Byte>)
    requires Healthy(io.script) && HasLine(io.unread, RECEIVE_SIZE)
    modifies io
    ensures Healthy(io.script)
    ensures var line := Line(old(io.unread), RECEIVE_SIZE);
            && (|line| == 65535 || (0 < |line| < 65535 && line[|line| - 1] == LF))
            && message == CString(line)
            && io.unread == old(io.unread)[|line|..]
            && (message == line <==> NUL !in line)
  {
    var buff := new Byte[RECEIVE_SIZE](_ => 0);
    var total := Readline(io, buff, RECEIVE_SIZE);
    message := CString(buff[..]);
    CutAtTerminator(buff[..], total);
    assert buff[..][..total] == buff[..total];
  }

  lemma CutAtTerminator(s: seq<Byte>, total: nat)
    requires total < |s| && s[total] == NUL
    ensures CString(s) == CString(s[..total])
  {
    var head := s[..total];
    var r := B.FirstByte(s, NUL, 0);
    assert r.Some? && r.value <= total;
    assert forall k :: 0 <= k < total ==> s[k] == head[k];
  }
}
