/** Machine values: bytes, 16-bit words and the two wrapper types used by every other module. */
module Bytes {

  type byte = n: int | 0 <= n < 0x100
  type bytes = seq<byte>
  type u16 = n: int | 0 <= n < 0x1_0000

  const U16_MAX := 0xFFFF

  datatype Option<+T> = None | Some(value: T)

  datatype Result<+T, +E> = Ok(value: T) | Err(error: E) {
    predicate IsFailure() {
      Err?
    }

    function PropagateFailure<U>(): Result<U, E>
      requires Err?
    {
      Err(error)
    }

    function Extract(): T
      requires Ok?
    {
      value
    }
  }

  /** `u16::to_be_bytes` */
  function BigEndian(n: u16): (r: bytes)
    ensures |r| == 2
  {
    [n / 0x100, n % 0x100]
  }

  /** `u16::from_be_bytes` */
  function FromBigEndian(high: byte, low: byte): (n: u16)
    ensures BigEndian(n) == [high, low]
  {
    high * 0x100 + low
  }

  /** The cast `n as u16`, which drops the high bits. */
  function TruncateU16(n: nat): (r: u16)
    ensures r == n <==> n <= U16_MAX
  {
    n % 0x1_0000
  }

  /** All chunks, in order, as one sequence. */
  function Flatten(chunks: seq<bytes>): bytes {
    if chunks == [] then [] else chunks[0] + Flatten(chunks[1..])
  }

  /** Comparing two sequences item by item. */
  lemma SameFromFirst<T>(x: T, xs: seq<T>, y: T, ys: seq<T>)
    ensures [x] + xs == [y] + ys <==> x == y && xs == ys
  {
    assert ([x] + xs)[0] == x && ([y] + ys)[0] == y;
    assert ([x] + xs)[1..] == xs && ([y] + ys)[1..] == ys;
  }

  lemma FlattenCons(first: bytes, rest: seq<bytes>)
    ensures Flatten([first] + rest) == first + Flatten(rest)
  {
    assert ([first] + rest)[1..] == rest;
  }

  lemma {:induction false} FlattenSnoc(chunks: seq<bytes>, last: bytes)
    ensures Flatten(chunks + [last]) == Flatten(chunks) + last
  {
    if chunks == [] {
      assert chunks + [last] == [last];
      assert Flatten([last]) == last + Flatten([]);
    } else {
      assert (chunks + [last])[1..] == chunks[1..] + [last];
      FlattenSnoc(chunks[1..], last);
    }
  }

  lemma {:induction false} FlattenConcat(a: seq<bytes>, b: seq<bytes>)
    ensures Flatten(a + b) == Flatten(a) + Flatten(b)
  {
    if a == [] {
      assert a + b == b;
    } else {
      assert (a + b)[1..] == a[1..] + b;
      FlattenConcat(a[1..], b);
    }
  }
}
