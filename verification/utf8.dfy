/** Well-formed UTF-8 byte sequences: what `core::str::from_utf8` accepts, and what a `&str` holds. */
module Utf8 {
  import opened Bytes

  predicate Continuation(b: byte) {
    0x80 <= b < 0xC0
  }

  /** A sequence of well-formed code points (table 3-7 of the Unicode standard). */
  predicate Valid(s: bytes)
    decreases |s|, 1
  {
    s == [] || ValidFrom(s)
  }

  predicate ValidFrom(s: bytes)
    requires s != []
    decreases |s|, 0
  {
    if s[0] < 0x80 then
      Valid(s[1..])
    else if 0xC2 <= s[0] < 0xE0 then
      |s| >= 2 && Continuation(s[1]) && Valid(s[2..])
    else if 0xE0 <= s[0] < 0xF0 then
      var low := if s[0] == 0xE0 then 0xA0 else 0x80;
      var high := if s[0] == 0xED then 0xA0 else 0xC0;
      |s| >= 3 && low <= s[1] < high && Continuation(s[2]) && Valid(s[3..])
    else if 0xF0 <= s[0] < 0xF5 then
      var low := if s[0] == 0xF0 then 0x90 else 0x80;
      var high := if s[0] == 0xF4 then 0x90 else 0xC0;
      |s| >= 4 && low <= s[1] < high && Continuation(s[2]) && Continuation(s[3]) && Valid(s[4..])
    else
      false
  }

  type str = s: bytes | Valid(s)

  /** Joining strings gives a string. */
  lemma {:induction false} ValidConcat(a: bytes, b: bytes)
    requires Valid(a) && Valid(b)
    ensures Valid(a + b)
  {
    if a == [] {
      assert a + b == b;
    } else {
      assert ValidFrom(a);
      var n := if a[0] < 0x80 then 1 else if a[0] < 0xE0 then 2 else if a[0] < 0xF0 then 3 else 4;
      assert (a + b)[n..] == a[n..] + b;
      ValidConcat(a[n..], b);
      assert ValidFrom(a + b);
    }
  }
}
