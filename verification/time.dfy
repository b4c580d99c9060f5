/** Points in time as 64-bit millisecond counts, and durations as whole milliseconds. */
module Time {
  import opened Bytes

  const U64_MAX := 0xFFFF_FFFF_FFFF_FFFF

  type u64 = n: int | 0 <= n <= U64_MAX

  datatype Instant = Instant(milliseconds: u64) {
    /** `self + duration`: the duration is cast to 64 bits, the sum saturates. */
    function Plus(duration: nat): Instant {
      var sum := milliseconds + duration % (U64_MAX + 1);
      Instant(if sum > U64_MAX then U64_MAX else sum)
    }

    /** `self - earlier`: zero when `earlier` is in fact later. */
    function Since(earlier: Instant): nat {
      if milliseconds < earlier.milliseconds then 0 else milliseconds - earlier.milliseconds
    }
  }

  const EPOCH := Instant(0)

  function FromSeconds(seconds: u16): nat {
    1000 * seconds
  }
}
