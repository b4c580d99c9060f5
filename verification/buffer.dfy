/** The sliding receive window of the client. */
module Buffers {
  import opened Bytes

  /** The used bytes after the first `n` of them have been dropped. */
  function DropPrefix(used: bytes, n: nat): (r: bytes)
    ensures n <= |used| ==> used == used[..n] + r
    ensures n >= |used| ==> r == []
  {
    if n >= |used| then [] else used[n..]
  }

  class Buffer {
    const buffer: array<byte>
    var used: nat

    ghost predicate Valid()
      reads this
    {
      used <= buffer.Length
    }

    ghost function Used(): (u: bytes)
      reads this, buffer
      requires Valid()
      ensures |u| == used
    {
      buffer[..used]
    }

    constructor (buffer: array<byte>)
      ensures this.buffer == buffer && Valid() && Used() == []
    {
      this.buffer := buffer;
      used := 0;
    }

    function Capacity(): nat {
      buffer.Length
    }

    method Reset()
      modifies this
      ensures Valid() && Used() == []
    {
      used := 0;
    }

    /** The `n` cells behind the used ones have been filled by a read. */
    method Advance(n: nat)
      requires Valid() && used + n <= buffer.Length
      modifies this
      ensures Valid() && Used() == old(Used()) + buffer[old(used)..old(used) + n]
    {
      used := used + n;
    }

    method UsedSlice() returns (s: bytes)
      requires Valid()
      ensures s == Used()
    {
      return buffer[..used];
    }

    method RemovePrefix(len: nat)
      requires Valid()
      modifies this, buffer
      ensures Valid() && Used() == DropPrefix(old(Used()), len)
      ensures buffer[used..] == old(buffer[..])[used..]
    {
      if len >= used {
        used := 0;
        return;
      }
      forall i | 0 <= i < used - len {
        buffer[i] := buffer[len + i];
      }
      used := used - len;
    }
  }
}
