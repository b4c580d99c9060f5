/**
 The environment. It answers every call arbitrarily within what `src/nano_client/platform.rs` promises, and keeps
 ghost records of what it delivered and of what was handed to it.
 */
module Platforms {
  import opened Bytes
  import opened Time

  /** One call of `write_all`: the data handed over, and whether it was accepted. */
  datatype Attempt = Attempt(data: bytes, accepted: bool)

  /** A look at the clock, or one call of `read_some` with the timeout it was given. */
  datatype Poll = ClockRead(now: Instant) | ReadCall(timeout: Option<nat>)

  datatype ReadResult = ReadBytes(n: nat) | ReadTimedOut | ReadError

  class Platform {
    /** Every `write_all` so far. */
    ghost var log: seq<Attempt>
    /** Every byte delivered so far. */
    ghost var received: bytes
    /** Every look at the clock and every read so far, in order. */
    ghost var polls: seq<Poll>

    method WriteAll(data: bytes) returns (ok: bool)
      modifies this
      ensures log == old(log) + [Attempt(data, ok)] && received == old(received) && polls == old(polls)
    {
      ok := *;
      log := log + [Attempt(data, ok)];
    }

    /** Fills some cells behind `from`; the cells behind those may be overwritten with anything. */
    method ReadSome(buf: array<byte>, from: nat, timeout: Option<nat>) returns (r: ReadResult)
      requires from <= buf.Length
      modifies this, buf
      ensures log == old(log) && polls == old(polls) + [ReadCall(timeout)]
      ensures r.ReadTimedOut? ==> timeout.Some?
      ensures r.ReadBytes? ==> from + r.n <= buf.Length
      ensures received == old(received) + if r.ReadBytes? then buf[from..from + r.n] else []
      ensures buf[..from] == old(buf[..from])
    {
      for i := from to buf.Length
        invariant buf[..from] == old(buf[..from])
        invariant log == old(log) && received == old(received) && polls == old(polls)
      {
        buf[i] := *;
      }
      polls := polls + [ReadCall(timeout)];
      var n: nat, choice: int := *, *;
      if choice == 0 {
        r := ReadError;
      } else if choice == 1 && timeout.Some? {
        r := ReadTimedOut;
      } else {
        r := ReadBytes(if from + n > buf.Length then buf.Length - from else n);
        received := received + buf[from..from + r.n];
      }
    }

    method Now() returns (t: Instant)
      modifies this
      ensures log == old(log) && received == old(received) && polls == old(polls) + [ClockRead(t)]
    {
      t := *;
      polls := polls + [ClockRead(t)];
    }
  }
}
