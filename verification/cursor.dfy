/** The three buffer views of the packet layer: a reader over a slice and two bounded in-place writers. */
module Cursors {
  import opened Bytes
  import opened Wire

  /** A read position: the slice that is still unread. */
  class Cursor {
    var rest: bytes

    constructor (data: bytes)
      ensures rest == data
    {
      rest := data;
    }

    method Advance(n: nat)
      requires n <= |rest|
      modifies this
      ensures rest == old(rest)[n..]
    {
      rest := rest[n..];
    }

    method TakeU8() returns (b: byte)
      requires rest != []
      modifies this
      ensures old(rest) == [b] + rest
    {
      b := rest[0];
      Advance(1);
    }

    method TakeU16() returns (n: u16)
      requires |rest| >= 2
      modifies this
      ensures old(rest) == BigEndian(n) + rest
    {
      var high, low := rest[0], rest[1];
      Advance(2);
      n := FromBigEndian(high, low);
    }

    method SplitTo(at: nat) returns (front: bytes)
      requires at <= |rest|
      modifies this
      ensures |front| == at && old(rest) == front + rest
    {
      front := rest[..at];
      Advance(at);
    }
  }

  /** The front of the buffer holds `encoding` and every cell behind it is as before. */
  ghost predicate FillsFront(encoding: bytes, before: bytes, after: bytes) {
    |encoding| <= |before| && after == encoding + before[|encoding|..]
  }

  /**
   A writer over the cells of `buffer` from `start` on: the Rust slice `&mut buffer[start..]`.
   The ghost `initial` remembers the buffer as it was handed over; no cell outside the written
   window ever differs from it.
   */
  class WriteCursor {
    const buffer: array<byte>
    const start: nat
    ghost const initial: bytes
    var next: nat

    ghost predicate Valid()
      reads this, buffer
      ensures Valid() ==> start + next <= buffer.Length == |initial|
    {
      && start + next <= buffer.Length == |initial|
      && buffer[..start] == initial[..start]
      && buffer[start + next..] == initial[start + next..]
    }

    ghost function Written(): (w: bytes)
      reads this, buffer
      requires start + next <= buffer.Length
      ensures |w| == next
    {
      buffer[start..start + next]
    }

    constructor (buffer: array<byte>, start: nat)
      requires start <= buffer.Length
      ensures this.buffer == buffer && this.start == start && next == 0 && initial == buffer[..]
      ensures Valid() && Written() == []
    {
      this.buffer := buffer;
      this.start := start;
      initial := buffer[..];
      next := 0;
    }

    function Capacity(): nat
      requires start <= buffer.Length
    {
      buffer.Length - start
    }

    function BytesWritten(): nat
      reads this
    {
      next
    }

    function RemainingCapacity(): nat
      reads this
      requires start + next <= buffer.Length
    {
      Capacity() - BytesWritten()
    }

    method PutU8(b: byte) returns (r: Result<(), WriteError>)
      requires Valid()
      modifies this`next, buffer
      ensures Valid()
      ensures r == if old(next) < Capacity() then Ok(()) else Err(NotEnoughCapacity)
      ensures Written() == old(Written()) + if r.Ok? then [b] else []
    {
      if next == Capacity() {
        return Err(NotEnoughCapacity);
      }
      buffer[start + next] := b;
      next := next + 1;
      return Ok(());
    }

    method PutU16(n: u16) returns (r: Result<(), WriteError>)
      requires Valid()
      modifies this`next, buffer
      ensures Valid()
      ensures r == if old(next) + 2 <= Capacity() then Ok(()) else Err(NotEnoughCapacity)
      ensures Written() == old(Written()) + if r.Ok? then BigEndian(n) else []
    {
      if RemainingCapacity() < 2 {
        return Err(NotEnoughCapacity);
      }
      r := PutSlice(BigEndian(n));
    }

    method PutSlice(data: bytes) returns (r: Result<(), WriteError>)
      requires Valid()
      modifies this`next, buffer
      ensures Valid()
      ensures r == if old(next) + |data| <= Capacity() then Ok(()) else Err(NotEnoughCapacity)
      ensures Written() == old(Written()) + if r.Ok? then data else []
    {
      if RemainingCapacity() < |data| {
        return Err(NotEnoughCapacity);
      }
      forall i | 0 <= i < |data| {
        buffer[start + next + i] := data[i];
      }
      next := next + |data|;
      return Ok(());
    }

    /** A writer over a whole buffer accounts for every cell of it. */
    lemma FillsBuffer()
      requires Valid() && start == 0
      ensures FillsFront(Written(), initial, buffer[..])
    {
      assert buffer[..] == buffer[..next] + buffer[next..];
    }

    /** Indexed assignment into what has been written: the back-patch. */
    method Patch(index: nat, b: byte)
      requires Valid() && index < next
      modifies buffer
      ensures Valid()
      ensures Written() == old(Written())[index := b]
    {
      buffer[start + index] := b;
    }
  }

  /** A growing prefix of the cells of `buffer` from `start` on, with the same guarantee outside it. */
  class BorrowedBuf {
    const buffer: array<byte>
    const start: nat
    ghost const initial: bytes
    var len: nat

    ghost predicate Valid()
      reads this, buffer
      ensures Valid() ==> start + len <= buffer.Length == |initial|
    {
      && start + len <= buffer.Length == |initial|
      && buffer[..start] == initial[..start]
      && buffer[start + len..] == initial[start + len..]
    }

    ghost function Contents(): (c: bytes)
      reads this, buffer
      requires start + len <= buffer.Length
      ensures |c| == len
    {
      buffer[start..start + len]
    }

    constructor (buffer: array<byte>, start: nat)
      requires start <= buffer.Length
      ensures this.buffer == buffer && this.start == start && len == 0 && initial == buffer[..]
      ensures Valid() && Contents() == []
    {
      this.buffer := buffer;
      this.start := start;
      initial := buffer[..];
      len := 0;
    }

    function Capacity(): nat
      requires start <= buffer.Length
    {
      buffer.Length - start
    }

    function SpareCapacity(): nat
      reads this
      requires start + len <= buffer.Length
    {
      Capacity() - len
    }

    method AddSlice(data: bytes) returns (r: Result<(), WriteError>)
      requires Valid()
      modifies this`len, buffer
      ensures Valid()
      ensures r == if old(len) + |data| <= Capacity() then Ok(()) else Err(NotEnoughCapacity)
      ensures Contents() == old(Contents()) + if r.Ok? then data else []
    {
      if |data| > SpareCapacity() {
        return Err(NotEnoughCapacity);
      }
      forall i | 0 <= i < |data| {
        buffer[start + len + i] := data[i];
      }
      len := len + |data|;
      return Ok(());
    }

    /** Indexed assignment of two bytes of the contents. */
    method PatchU16(index: nat, n: u16)
      requires Valid() && index + 2 <= len
      modifies buffer
      ensures Valid()
      ensures Contents() == old(Contents())[..index] + BigEndian(n) + old(Contents())[index + 2..]
    {
      var pair := BigEndian(n);
      buffer[start + index] := pair[0];
      buffer[start + index + 1] := pair[1];
    }
  }
}
