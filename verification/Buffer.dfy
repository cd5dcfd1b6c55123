/**
 The growable byte buffer of src/buffer.cpp and include/buffer.h: one flat array, a read index and
 a write index. `Layout` is the index arithmetic on its own, so that whole runs can be reasoned
 about; `Buffer` is the class that works in place and is proved against it.
 */
module ByteBuffer {
  import opened Bytes

  const CHEAP_PREPEND: nat := 8
  const INITIAL_SIZE: nat := 1024
  const EXTRA_SIZE: nat := 65536

  // ---------------------------------------------------------------- index arithmetic

  datatype Layout = Layout(size: nat, read: nat, write: nat) {
    predicate Valid() { read <= write <= size && CHEAP_PREPEND <= size }

    function Readable(): nat requires Valid() { write - read }

    function Writable(): nat requires Valid() { size - write }
  }

  /** What one call does to the indices; only the lengths of the data matter. */
  datatype LayoutOp =
    | Appended(len: nat)
    | Ensured(len: nat)
    | Retrieved(len: nat)
    | Prepended(len: nat)
    | Shrunk(reserve: nat)
    | Filled(len: nat)

  function Fresh(initialSize: nat): (l: Layout)
    ensures l.Valid() && l.Readable() == 0
  {
    Layout(CHEAP_PREPEND + initialSize, CHEAP_PREPEND, CHEAP_PREPEND)
  }

  /** Grow at the back, or slide the readable bytes down to the prepend mark. */
  function MakeSpaceLayout(l: Layout, len: nat): (r: Layout)
    requires l.Valid() && l.Writable() < len
    ensures r.Valid() && r.Readable() == l.Readable() && len <= r.Writable()
    // Grows only when sliding would not make room, and then by no more than asked for, moving nothing ...
    ensures r.size == l.size <==> len <= l.size - CHEAP_PREPEND - l.Readable()
    ensures r.size != l.size ==> r.read == l.read && r.Writable() == len
    // ... and otherwise slides left, to just behind the prepend area.
    ensures r.size == l.size ==> r.read == CHEAP_PREPEND < l.read
  {
    if l.Writable() + l.read < len + CHEAP_PREPEND then l.(size := l.write + len)
    else l.(read := CHEAP_PREPEND, write := CHEAP_PREPEND + l.Readable())
  }

  function EnsureLayout(l: Layout, len: nat): (r: Layout)
    requires l.Valid()
    ensures r.Valid() && r.Readable() == l.Readable() && len <= r.Writable()
  {
    if l.Writable() < len then MakeSpaceLayout(l, len) else l
  }

  function AppendLayout(l: Layout, len: nat): (r: Layout)
    requires l.Valid()
    ensures r.Valid() && r.Readable() == l.Readable() + len
  {
    var m := EnsureLayout(l, len);
    m.(write := m.write + len)
  }

  function Step(l: Layout, op: LayoutOp): (r: Layout)
    requires l.Valid()
    ensures r.Valid()
  {
    match op
    case Appended(len) => AppendLayout(l, len)
    case Ensured(len) => EnsureLayout(l, len)
    case Retrieved(len) =>
      if len < l.Readable() then l.(read := l.read + len)
      else l.(read := CHEAP_PREPEND, write := CHEAP_PREPEND)
    case Prepended(len) => if len > l.read then l else l.(read := l.read - len)
    case Shrunk(reserve) =>
      AppendLayout(EnsureLayout(Fresh(INITIAL_SIZE), l.Readable() + reserve), l.Readable())
    case Filled(len) =>
      if len <= l.Writable() then l.(write := l.write + len)
      else AppendLayout(l.(write := l.size), len - l.Writable())
  }

  function Run(l: Layout, ops: seq<LayoutOp>): (r: Layout)
    requires l.Valid()
    ensures r.Valid()
    decreases |ops|
  {
    if ops == [] then l else Run(Step(l, ops[0]), ops[1..])
  }

  /**
   The prepend area: as long as nothing was prepended since the buffer was created, there is room for eight bytes in
   front, whatever calls were made.
   */
  lemma {:induction false} PrependArea(initialSize: nat, ops: seq<LayoutOp>, len: nat)
    requires forall k :: 0 <= k < |ops| ==> !ops[k].Prepended?
    requires len <= 8
    ensures var l := Run(Fresh(initialSize), ops);
            8 <= l.read && Step(l, Prepended(len)) == l.(read := l.read - len)
  {
    AreaStays(Fresh(initialSize), ops);
  }

  lemma {:induction false} AreaStays(l: Layout, ops: seq<LayoutOp>)
    requires l.Valid() && CHEAP_PREPEND <= l.read && forall k :: 0 <= k < |ops| ==> !ops[k].Prepended?
    ensures CHEAP_PREPEND <= Run(l, ops).read
    decreases |ops|
  {
    if ops != [] {
      assert !ops[0].Prepended?;
      AreaStays(Step(l, ops[0]), ops[1..]);
    }
  }

  /** What is prepended to an empty area can be retrieved again, and the area is as it was. */
  lemma PrependedAndRetrieved(l: Layout, len: nat)
    requires l.Valid() && len <= l.read && 0 < l.Readable()
    ensures Run(l, [Prepended(len), Retrieved(len)]) == l
  {
    var m := Step(l, Prepended(len));
    assert [Prepended(len), Retrieved(len)][1..] == [Retrieved(len)];
    assert Run(m, [Retrieved(len)]) == Run(Step(m, Retrieved(len)), []) == l;
  }

  /** Once everything has been retrieved, all but the prepend area is writable again; before, nothing is. */
  lemma EmptyingFreesAll(l: Layout, len: nat)
    requires l.Valid()
    ensures var r := Step(l, Retrieved(len));
            && r.size == l.size && r.Readable() == l.Readable() - Min(len, l.Readable())
            && r.Writable() == (if r.Readable() == 0 then l.size - CHEAP_PREPEND else l.Writable())
            && (r.Readable() == 0 ==> r.read == CHEAP_PREPEND)
  {
  }

  /** Shrinking leaves what was readable and what was asked for, or the default size. */
  lemma ShrunkSize(l: Layout, reserve: nat)
    requires l.Valid()
    ensures var r := Step(l, Shrunk(reserve));
            && r.size == 8 + Max(1024, l.Readable() + reserve)
            && r.read == 8 && r.Readable() == l.Readable()
  {
  }

  /** The space a call asks `makeSpace` for; for a scatter read, its spill. */
  function Demand(l: Layout, op: LayoutOp): nat
    requires l.Valid()
  {
    match op
    case Appended(len) => len
    case Ensured(len) => len
    case Shrunk(reserve) => 0
    case Retrieved(_) => 0
    case Prepended(_) => 0
    case Filled(len) => if len <= l.Writable() then 0 else len - l.Writable()
  }

  /** The bytes a call holds or has promised room for. */
  function Load(l: Layout, op: LayoutOp): nat
    requires l.Valid()
  {
    match op
    case Appended(len) => l.Readable() + len
    case Ensured(len) => l.Readable() + len
    case Shrunk(reserve) => l.Readable() + reserve
    case Retrieved(_) => l.Readable()
    case Prepended(len) => l.Readable()
    case Filled(len) => l.Readable() + len
  }

  /** Along the run no call's load exceeds `bytes` and no single request exceeds `chunk`. */
  predicate Modest(l: Layout, ops: seq<LayoutOp>, bytes: nat, chunk: nat)
    requires l.Valid()
    decreases |ops|
  {
    ops != [] ==>
      && Load(l, ops[0]) <= bytes
      && Demand(l, ops[0]) <= chunk
      && Modest(Step(l, ops[0]), ops[1..], bytes, chunk)
  }

  function SizeBound(size: nat, shrinks: bool, bytes: nat, chunk: nat): nat {
    if shrinks then Max(Max(size, CHEAP_PREPEND + INITIAL_SIZE), bytes + chunk + CHEAP_PREPEND)
    else Max(size, bytes + chunk + CHEAP_PREPEND - 1)
  }

  lemma StepBound(l: Layout, op: LayoutOp, bytes: nat, chunk: nat)
    requires l.Valid() && Load(l, op) <= bytes && Demand(l, op) <= chunk
    ensures Step(l, op).size <= SizeBound(l.size, op.Shrunk?, bytes, chunk)
  {
  }

  /**
   Memory stays bounded over any run: the array never outgrows its first size or the live bytes
   plus one request plus the slack of the prepend area.
   */
  lemma {:induction false} StorageBound(l: Layout, ops: seq<LayoutOp>, shrinks: bool, bytes: nat, chunk: nat)
    requires l.Valid() && Modest(l, ops, bytes, chunk)
    requires forall k :: 0 <= k < |ops| && ops[k].Shrunk? ==> shrinks
    ensures Run(l, ops).size <= SizeBound(l.size, shrinks, bytes, chunk)
    decreases |ops|
  {
    if ops != [] {
      StepBound(l, ops[0], bytes, chunk);
      StorageBound(Step(l, ops[0]), ops[1..], shrinks, bytes, chunk);
    }
  }

  /** The bound is reached: no smaller one holds of every run. */
  lemma StorageBoundReached(bytes: nat, chunk: nat)
    requires 1 <= chunk < bytes
    ensures var ops := [Filled(bytes - 1), Retrieved(chunk - 1), Appended(chunk)];
            && Modest(Fresh(bytes - 1), ops, bytes, chunk)
            && Run(Fresh(bytes - 1), ops).size == SizeBound(Fresh(bytes - 1).size, false, bytes, chunk)
            && Fresh(bytes - 1).size < Run(Fresh(bytes - 1), ops).size
  {
    var ops := [Filled(bytes - 1), Retrieved(chunk - 1), Appended(chunk)];
    var l0 := Fresh(bytes - 1);
    var l1 := Step(l0, ops[0]);
    var l2 := Step(l1, ops[1]);
    var l3 := Step(l2, ops[2]);
    assert l3 == Layout(bytes + chunk + 7, chunk + 7, bytes + chunk + 7);
    assert ops[1..][1..] == [ops[2]] && ops[1..][0] == ops[1];
    assert [ops[2]][1..] == [];
    assert Run(l2, [ops[2]]) == l3 by { assert Run(l3, []) == l3; }
    assert Modest(l2, [ops[2]], bytes, chunk) by { assert Modest(l3, [], bytes, chunk); }
    assert Run(l1, ops[1..]) == l3;
    assert Modest(l1, ops[1..], bytes, chunk);
  }

  // ---------------------------------------------------------------- searches

  predicate CRLFAt(s: seq<Byte>, k: int) {
    0 <= k < |s| - 1 && s[k] == CR && s[k + 1] == LF
  }

  /** `std::search` for CR LF: the first match at or after `from`. */
  function FirstCRLF(s: seq<Byte>, from: nat): (r: Option<nat>)
    requires from <= |s|
    ensures r.Some? ==> from <= r.value && CRLFAt(s, r.value)
    ensures forall k :: from <= k && CRLFAt(s, k) ==> r.Some? && r.value <= k
    decreases |s| - from
  {
    if |s| - from < 2 then None
    else if s[from] == CR && s[from + 1] == LF then Some(from)
    else FirstCRLF(s, from + 1)
  }

  /** `memchr`: the first occurrence of a byte at or after `from`. */
  function FirstByte(s: seq<Byte>, b: Byte, from: nat): (r: Option<nat>)
    requires from <= |s|
    ensures r.Some? ==> from <= r.value < |s| && s[r.value] == b
    ensures forall k :: from <= k < (if r.Some? then r.value else |s|) ==> s[k] != b
    decreases |s| - from
  {
    if from == |s| then None
    else if s[from] == b then Some(from)
    else FirstByte(s, b, from + 1)
  }

  // ---------------------------------------------------------------- copying

  /**
   `std::copy` within one array, in ascending order. Its precondition (section 28.6.1 of ISO C++17) is
   that the destination does not lie inside the source range.
   */
  method CopyWithin(a: array<Byte>, first: nat, last: nat, dest: nat)
    requires first <= last <= a.Length && dest + (last - first) <= a.Length
    requires !(first <= dest < last)
    modifies a
    ensures a[dest..dest + (last - first)] == old(a[first..last])
    ensures forall k :: 0 <= k < a.Length && !(dest <= k < dest + (last - first)) ==> a[k] == old(a[k])
  {
    var i := 0;
    while i < last - first
      invariant i <= last - first
      invariant forall k :: dest <= k < dest + i ==> a[k] == old(a[k - dest + first])
      invariant forall k :: first + i <= k < last ==> a[k] == old(a[k])
      invariant forall k :: 0 <= k < a.Length && !(dest <= k < dest + i) ==> a[k] == old(a[k])
    {
      a[dest + i] := a[first + i];
      i := i + 1;
    }
  }

  /** `std::copy` from outside the array. */
  method CopyIn(data: seq<Byte>, a: array<Byte>, dest: nat)
    requires dest + |data| <= a.Length
    modifies a
    ensures a[dest..dest + |data|] == data
    ensures forall k :: 0 <= k < a.Length && !(dest <= k < dest + |data|) ==> a[k] == old(a[k])
  {
    var i := 0;
    while i < |data|
      invariant i <= |data|
      invariant forall k :: 0 <= k < i ==> a[dest + k] == data[k]
      invariant forall k :: 0 <= k < a.Length && !(dest <= k < dest + i) ==> a[k] == old(a[k])
    {
      a[dest + i] := data[i];
      i := i + 1;
    }
  }

  // ---------------------------------------------------------------- the peer's byte stream

  /** What the kernel does with one `readv`: at most so many bytes, or an error. */
  datatype ReadChoice = Take(n: nat) | Fail

  /**
   The result of one `readv` with `room` bytes to fill and `available` bytes to come: -1 on an error, 0 only at the end
   of the stream, and otherwise at least one byte. Past the end of the script it is served in full.
   */
  function ReadOutcome(script: seq<ReadChoice>, room: nat, available: nat): (n: int)
    ensures -1 <= n <= available && n <= room
    ensures n == 0 <==> Min(room, available) == 0 && !(script != [] && script[0].Fail?)
  {
    var limit := Min(room, available);
    if script == [] then limit
    else
      match script[0]
      case Fail => -1
      case Take(n) => if limit == 0 then 0 else Max(1, Min(n, limit))
  }

  /** The space of one scatter read: the second vector is used only while the first is small. */
  function ScatterRoom(writable: nat): (room: nat)
    ensures 65536 <= room && (room == writable || (writable < 65536 && room == writable + 65536))
  {
    writable + (if writable < EXTRA_SIZE then EXTRA_SIZE else 0)
  }

  /** The receiving half of a socket: the bytes the peer has sent and nobody has read yet, and the kernel's choices. */
  class Inbound {
    var unread: seq<Byte>
    var script: seq<ReadChoice>

    constructor (stream: seq<Byte>, script: seq<ReadChoice>)
      ensures unread == stream && this.script == script
    {
      unread, this.script := stream, script;
    }

    /** `readv` over two vectors; the kernel fills the first before the second. */
    method Readv(a: array<Byte>, at: nat, extra: array<Byte>, both: bool) returns (n: int)
      requires at <= a.Length && a != extra
      modifies this, a, extra
      ensures n == ReadOutcome(old(script), a.Length - at + (if both then extra.Length else 0), |old(unread)|)
      ensures script == if old(script) == [] then [] else old(script)[1..]
      ensures n < 0 ==> unread == old(unread)
      ensures n >= 0 ==> unread == old(unread)[n..]
      ensures 0 <= n <= a.Length - at ==> a[at..at + n] == old(unread)[..n]
      ensures n > a.Length - at ==> a[at..] + extra[..n - (a.Length - at)] == old(unread)[..n]
      ensures a[..at] == old(a[..at])
    {
      n := ReadOutcome(script, a.Length - at + (if both then extra.Length else 0), |unread|);
      script := if script == [] then [] else script[1..];
      if n < 0 {
        return;
      }
      var k := Min(n, a.Length - at);
      forall i | 0 <= i < k { a[at + i] := unread[i]; }
      forall i | 0 <= i < n - k { extra[i] := unread[k + i]; }
      unread := unread[n..];
    }
  }

  // ---------------------------------------------------------------- the buffer

  class Buffer {
    var storage: array<Byte>
    var readIndex: nat
    var writeIndex: nat

    ghost predicate Valid()
      reads this
    {
      readIndex <= writeIndex <= storage.Length && CHEAP_PREPEND <= storage.Length
    }

    /** The abstract value: the bytes between the two indices. */
    ghost function Contents(): seq<Byte>
      requires Valid()
      reads this, storage
    {
      storage[readIndex..writeIndex]
    }

    ghost function Shape(): Layout
      requires Valid()
      reads this
    {
      Layout(storage.Length, readIndex, writeIndex)
    }

    constructor (initialSize: nat := INITIAL_SIZE)
      ensures Valid() && fresh(storage)
      ensures Contents() == [] && Shape() == Fresh(initialSize)
    {
      storage := new Byte[CHEAP_PREPEND + initialSize](_ => 0);
      readIndex, writeIndex := CHEAP_PREPEND, CHEAP_PREPEND;
    }

    function ReadableBytes(): (n: nat)
      requires Valid()
      reads this, storage
      ensures n == |Contents()|
    {
      writeIndex - readIndex
    }

    function WritableBytes(): nat
      requires Valid()
      reads this
    {
      storage.Length - writeIndex
    }

    function PrependableBytes(): nat
      reads this
    {
      readIndex
    }

    /** The position in the array of the first CR LF at or after position `start`. */
    function FindCRLF(start: int): (r: Option<nat>)
      requires Valid()
      reads this, storage
      ensures r.Some? ==> readIndex <= start <= r.value && CRLFAt(storage[..writeIndex], r.value)
      ensures readIndex <= start <= writeIndex ==>
                forall k :: start <= k && CRLFAt(storage[..writeIndex], k) ==> r.Some? && r.value <= k
    {
      if start < readIndex || start > writeIndex then None
      else FirstCRLF(storage[..writeIndex], start)
    }

    /** The position in the array of the first line feed at or after position `start`. */
    function FindEOL(start: int): (r: Option<nat>)
      requires Valid()
      reads this, storage
      ensures r.Some? <==> readIndex <= start <= writeIndex && LF in storage[start..writeIndex]
      ensures r.Some? ==> start <= r.value < writeIndex && storage[r.value] == LF && LF !in storage[start..r.value]
    {
      if start < readIndex || start > writeIndex then None
      else
        var r := FirstByte(storage[..writeIndex], LF, start);
        assert r.Some? ==> storage[start..writeIndex][r.value - start] == LF;
        r
    }

    method RetrieveAll()
      requires Valid()
      modifies this`readIndex, this`writeIndex
      ensures Valid() && Contents() == []
      ensures Shape() == Step(old(Shape()), Retrieved(old(ReadableBytes())))
    {
      readIndex, writeIndex := CHEAP_PREPEND, CHEAP_PREPEND;
    }

    method Retrieve(len: nat)
      requires Valid()
      modifies this`readIndex, this`writeIndex
      ensures Valid() && Contents() == old(Contents())[Min(len, |old(Contents())|)..]
      ensures Shape() == Step(old(Shape()), Retrieved(len))
    {
      if len < ReadableBytes() {
        readIndex := readIndex + len;
      } else {
        RetrieveAll();
      }
    }

    /** A position outside the readable range is ignored. */
    method RetrieveUntil(end: int)
      requires Valid()
      modifies this`readIndex, this`writeIndex
      ensures Valid()
      ensures old(readIndex) <= end <= old(writeIndex) ==>
                && Contents() == old(Contents())[end - old(readIndex)..]
                && Shape() == Step(old(Shape()), Retrieved(end - old(readIndex)))
      ensures !(old(readIndex) <= end <= old(writeIndex)) ==> Contents() == old(Contents()) && Shape() == old(Shape())
    {
      if end >= readIndex && end <= writeIndex {
        Retrieve(end - readIndex);
      }
    }

    method RetrieveAsString(len: nat) returns (result: seq<Byte>)
      requires Valid()
      modifies this`readIndex, this`writeIndex
      ensures Valid() && |result| == Min(len, |old(Contents())|)
      ensures result == old(Contents())[..|result|] && Contents() == old(Contents())[|result|..]
      ensures Shape() == Step(old(Shape()), Retrieved(|result|))
    {
      var n := len;
      if n > ReadableBytes() {
        n := ReadableBytes();
      }
      result := storage[readIndex..readIndex + n];
      assert result == Contents()[..n];
      Retrieve(n);
    }

    method RetrieveAllAsString() returns (result: seq<Byte>)
      requires Valid()
      modifies this`readIndex, this`writeIndex
      ensures Valid() && result == old(Contents()) && Contents() == []
      ensures Shape() == Step(old(Shape()), Retrieved(|result|))
    {
      result := RetrieveAsString(ReadableBytes());
    }

    method Append(data: seq<Byte>)
      requires Valid()
      modifies this, storage
      ensures Valid() && (storage == old(storage) || fresh(storage))
      ensures Contents() == old(Contents()) + data
      ensures Shape() == Step(old(Shape()), Appended(|data|))
    {
      EnsureWritableBytes(|data|);
      CopyIn(data, storage, writeIndex);
      assert Contents() == old(Contents());
      HasWritten(|data|);
    }

    method HasWritten(len: nat)
      requires Valid() && len <= WritableBytes()
      modifies this`writeIndex
      ensures Valid() && writeIndex == old(writeIndex) + len
      ensures Contents() == old(Contents()) + old(storage[writeIndex..writeIndex + len])
    {
      writeIndex := writeIndex + len;
    }

    method Unwrite(len: nat)
      requires Valid() && len <= ReadableBytes()
      modifies this`writeIndex
      ensures Valid() && Contents() == old(Contents())[..old(ReadableBytes()) - len]
    {
      writeIndex := writeIndex - len;
    }

    method EnsureWritableBytes(len: nat)
      requires Valid()
      modifies this, storage
      ensures Valid() && (storage == old(storage) || fresh(storage))
      ensures Contents() == old(Contents()) && len <= WritableBytes()
      ensures Shape() == Step(old(Shape()), Ensured(len))
    {
      if WritableBytes() < len {
        MakeSpace(len);
      }
    }

    method MakeSpace(len: nat)
      requires Valid() && WritableBytes() < len
      modifies this, storage
      ensures Valid() && (storage == old(storage) || fresh(storage))
      ensures Contents() == old(Contents()) && len <= WritableBytes()
      ensures Shape() == MakeSpaceLayout(old(Shape()), len)
    {
      if WritableBytes() + PrependableBytes() < len + CHEAP_PREPEND {
        Resize(writeIndex + len);
        assert Contents() == storage[..old(storage.Length)][readIndex..writeIndex];
      } else {
        var readable := ReadableBytes();
        CopyWithin(storage, readIndex, writeIndex, CHEAP_PREPEND);
        readIndex := CHEAP_PREPEND;
        writeIndex := readIndex + readable;
      }
    }

    /** `std::vector::resize` to a larger size: the old bytes, then zeros. */
    method Resize(size: nat)
      requires Valid() && storage.Length <= size
      modifies this`storage
      ensures Valid() && fresh(storage) && storage.Length == size
      ensures storage[..old(storage.Length)] == old(storage[..])
    {
      var bigger := new Byte[size](_ => 0);
      CopyIn(storage[..], bigger, 0);
      storage := bigger;
    }

    /** Fails, changing nothing, when the bytes in front of the read index do not suffice. */
    method Prepend(data: seq<Byte>) returns (ok: bool)
      requires Valid()
      modifies this`readIndex, storage
      ensures Valid() && ok == (|data| <= old(PrependableBytes()))
      ensures Contents() == if ok then data + old(Contents()) else old(Contents())
      ensures Shape() == Step(old(Shape()), Prepended(|data|))
    {
      if |data| > PrependableBytes() {
        return false;
      }
      readIndex := readIndex - |data|;
      CopyIn(data, storage, readIndex);
      ok := true;
    }

    method Shrink(reserve: nat)
      requires Valid()
      modifies this
      ensures Valid() && fresh(storage)
      ensures Contents() == old(Contents()) && reserve <= WritableBytes()
      ensures Shape() == Step(old(Shape()), Shrunk(reserve))
    {
      var other := new Buffer();
      other.EnsureWritableBytes(ReadableBytes() + reserve);
      other.Append(storage[readIndex..writeIndex]);
      storage := other.storage;
      readIndex := other.readIndex;
      writeIndex := other.writeIndex;
    }

    /**
     One scatter read: up to the writable space in place, and the rest through a stack buffer that is
     then appended. Whatever the kernel answers, exactly the next `n` bytes of the stream are added.
     */
    method ReadFd(source: Inbound) returns (n: int)
      requires Valid()
      modifies this, storage, source
      ensures Valid() && (storage == old(storage) || fresh(storage))
      ensures n == ReadOutcome(old(source.script), ScatterRoom(old(WritableBytes())), |old(source.unread)|)
      ensures source.script == if old(source.script) == [] then [] else old(source.script)[1..]
      ensures n >= 0 ==> source.unread == old(source.unread)[n..]
      ensures n >= 0 ==> Contents() == old(Contents()) + old(source.unread)[..n]
      ensures n >= 0 ==> Shape() == Step(old(Shape()), Filled(n))
      ensures n < 0 ==> source.unread == old(source.unread) && Contents() == old(Contents()) && Shape() == old(Shape())
    {
      var writable, extrabuf := WritableBytes(), new Byte[EXTRA_SIZE](_ => 0);
      n := Scatter(source, extrabuf);
      if n < 0 {
      } else if n <= writable {
        HasWritten(n);
      } else {
        Overflow(old(source.unread)[..n], extrabuf[..n - writable]);
      }
    }

    /** The read itself: into the writable space and, where that is small, on into `extrabuf`. */
    method Scatter(source: Inbound, extrabuf: array<Byte>) returns (n: int)
      requires Valid() && extrabuf != storage && extrabuf.Length == EXTRA_SIZE
      modifies storage, source, extrabuf
      ensures Contents() == old(Contents())
      ensures n == ReadOutcome(old(source.script), ScatterRoom(WritableBytes()), |old(source.unread)|)
      ensures source.script == if old(source.script) == [] then [] else old(source.script)[1..]
      ensures source.unread == if n < 0 then old(source.unread) else old(source.unread)[n..]
      ensures 0 <= n <= WritableBytes() ==> storage[writeIndex..writeIndex + n] == old(source.unread)[..n]
      ensures n > WritableBytes() ==> storage[writeIndex..] + extrabuf[..n - WritableBytes()] == old(source.unread)[..n]
    {
      n := source.Readv(storage, writeIndex, extrabuf, WritableBytes() < EXTRA_SIZE);
      assert Contents() == storage[..writeIndex][readIndex..];
    }

    /** The in-place part has filled the array up to its end; the rest is appended. */
    method Overflow(ghost got: seq<Byte>, spill: seq<Byte>)
      requires Valid() && |got| == WritableBytes() + |spill|
      requires got == storage[writeIndex..] + spill
      modifies this, storage
      ensures Valid() && (storage == old(storage) || fresh(storage))
      ensures Contents() == old(Contents()) + got
      ensures Shape() == AppendLayout(old(Shape()).(write := old(storage.Length)), |spill|)
    {
      writeIndex := storage.Length;
      assert Contents() == old(Contents()) + old(storage[writeIndex..]);
      Append(spill);
      Associate(old(Contents()), old(storage[writeIndex..]), spill);
    }
  }
}
