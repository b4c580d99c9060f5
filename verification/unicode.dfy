/** UTF-8 from the other end: the encodings of lists of Unicode scalar values (section 3 of RFC 3629). */
module Unicode {
  import opened Bytes
  import opened Utf8

  /** A code point that is no surrogate. */
  predicate Scalar(c: nat) {
    c < 0xD800 || 0xE000 <= c < 0x11_0000
  }

  /** One to four bytes, six bits in each but the first. */
  function EncodeScalar(c: nat): (s: bytes)
    requires Scalar(c)
    ensures 1 <= |s| <= 4
  {
    if c < 0x80 then [c]
    else if c < 0x800 then [0xC0 + c / 64, 0x80 + c % 64]
    else if c < 0x1_0000 then [0xE0 + c / 4096, 0x80 + c / 64 % 64, 0x80 + c % 64]
    else [0xF0 + c / 262_144, 0x80 + c / 4096 % 64, 0x80 + c / 64 % 64, 0x80 + c % 64]
  }

  predicate Scalars(cs: seq<nat>) {
    forall i :: 0 <= i < |cs| ==> Scalar(cs[i])
  }

  function EncodeScalars(cs: seq<nat>): bytes
    requires Scalars(cs)
  {
    if cs == [] then [] else EncodeScalar(cs[0]) + EncodeScalars(cs[1..])
  }

  lemma ScalarIsText(c: nat, rest: bytes)
    requires Scalar(c) && Valid(rest)
    ensures Valid(EncodeScalar(c) + rest)
  {
    var s := EncodeScalar(c);
    assert (s + rest)[|s|..] == rest;
    assert ValidFrom(s + rest);
  }

  lemma {:induction false} EncodedIsText(cs: seq<nat>)
    requires Scalars(cs)
    ensures Valid(EncodeScalars(cs))
  {
    if cs != [] {
      EncodedIsText(cs[1..]);
      ScalarIsText(cs[0], EncodeScalars(cs[1..]));
    }
  }

  lemma SixBits(high: nat, low: nat)
    requires low < 64
    ensures (64 * high + low) / 64 == high && (64 * high + low) % 64 == low
  {
  }

  /** The code point of a character of two bytes or more, its leading byte without the marker being `h`. */
  function Joined(h: nat, x: nat, y: nat, z: nat): nat {
    64 * (64 * (64 * h + x) + y) + z
  }

  lemma JoinedDigits(h: nat, x: nat, y: nat, z: nat)
    requires x < 64 && y < 64 && z < 64
    ensures var c := Joined(h, x, y, z);
            c / 262_144 == h && c / 4096 == 64 * h + x && c / 4096 % 64 == x && c / 64 % 64 == y && c % 64 == z
    ensures h == 0 ==> Joined(h, x, y, z) / 4096 == x
    ensures h == 0 && x == 0 ==> Joined(h, x, y, z) / 64 == y
  {
    SixBits(64 * (64 * h + x) + y, z);
    SixBits(64 * h + x, y);
    SixBits(h, x);
    Nested(Joined(h, x, y, z));
    hide Joined;
  }

  lemma Nested(c: nat)
    ensures c / 64 / 64 == c / 4096 && c / 4096 / 64 == c / 262_144
  {
  }

  /** The first character of a valid string, and what is behind it. */
  lemma FirstScalar(s: bytes) returns (c: nat, n: nat)
    requires s != [] && Valid(s)
    ensures n <= |s| && Scalar(c) && EncodeScalar(c) == s[..n] && Valid(s[n..])
  {
    assert ValidFrom(s);
    if s[0] < 0x80 {
      c, n := s[0], 1;
    } else if s[0] < 0xE0 {
      c, n := TwoBytes(s);
    } else if s[0] < 0xF0 {
      c, n := ThreeBytes(s);
    } else {
      c, n := FourBytes(s);
    }
    hide Valid, ValidFrom;
  }

  lemma TwoBytes(s: bytes) returns (c: nat, n: nat)
    requires s != [] && 0x80 <= s[0] < 0xE0 && ValidFrom(s)
    ensures n <= |s| && Scalar(c) && EncodeScalar(c) == s[..n] && Valid(s[n..])
  {
    hide Valid;
    var y: nat, z: nat := s[0] as int - 0xC0, s[1] as int - 0x80;
    c, n := Joined(0, 0, y, z), 2;
    assert 0x80 <= c < 0x800;
    JoinedDigits(0, 0, y, z);
    hide Joined, ValidFrom;
  }

  lemma ThreeBytes(s: bytes) returns (c: nat, n: nat)
    requires s != [] && 0xE0 <= s[0] < 0xF0 && ValidFrom(s)
    ensures n <= |s| && Scalar(c) && EncodeScalar(c) == s[..n] && Valid(s[n..])
  {
    hide Valid;
    var x: nat, y: nat, z: nat := s[0] as int - 0xE0, s[1] as int - 0x80, s[2] as int - 0x80;
    c, n := Joined(0, x, y, z), 3;
    assert 0x800 <= c < 0x1_0000 && Scalar(c);
    JoinedDigits(0, x, y, z);
    hide Joined, ValidFrom, Scalar;
  }

  lemma FourBytes(s: bytes) returns (c: nat, n: nat)
    requires s != [] && 0xF0 <= s[0] && ValidFrom(s)
    ensures n <= |s| && Scalar(c) && EncodeScalar(c) == s[..n] && Valid(s[n..])
  {
    hide Valid;
    var h: nat, x: nat := s[0] as int - 0xF0, s[1] as int - 0x80;
    var y: nat, z: nat := s[2] as int - 0x80, s[3] as int - 0x80;
    c, n := Joined(h, x, y, z), 4;
    assert 0x1_0000 <= c < 0x11_0000;
    JoinedDigits(h, x, y, z);
    hide Joined, ValidFrom, Scalar;
  }

  /** What passes the validation is exactly what encodes some list of scalar values. */
  lemma {:induction false} ValidIff(s: bytes)
    ensures Valid(s) <==> exists cs: seq<nat> :: Scalars(cs) && EncodeScalars(cs) == s
    decreases |s|
  {
    if Valid(s) {
      var cs := Decoded(s);
    }
    if cs: seq<nat> :| Scalars(cs) && EncodeScalars(cs) == s {
      EncodedIsText(cs);
    }
  }

  lemma {:induction false} Decoded(s: bytes) returns (cs: seq<nat>)
    requires Valid(s)
    ensures Scalars(cs) && EncodeScalars(cs) == s
    decreases |s|
  {
    hide Valid, EncodeScalar;
    if s == [] {
      cs := [];
    } else {
      var c, n := FirstScalar(s);
      var rest := Decoded(s[n..]);
      cs := [c] + rest;
      assert cs[1..] == rest && s == s[..n] + s[n..];
    }
  }
}
