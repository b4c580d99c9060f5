/**
 Flag bytes. The packet layer packs and tests flags with bit operators; everything else in this project
 reads a byte as a number, so each packing and each mask is tied here to its arithmetic meaning.
 */
module Flags {
  import opened Bytes
  import opened Wire

  function BoolBits(b: bool): bv8 {
    if b then 1 else 0
  }

  /** `qos as u8` as a bit pattern. */
  function QosBits(q: QoS): bv8 {
    match q
    case AtMostOnce => 0
    case AtLeastOnce => 1
    case ExactlyOnce => 2
  }

  function BoolByte(b: bool): byte {
    if b then 1 else 0
  }

  /** The flag of weight `weight` in a byte read as a number. */
  predicate Bit(b: byte, weight: nat)
    requires weight > 0
  {
    b / weight % 2 == 1
  }

  lemma MaskedBits(b: byte)
    ensures b as bv8 & 0x01 != 0 <==> Bit(b, 1)
    ensures b as bv8 & 0x02 != 0 <==> Bit(b, 2)
    ensures b as bv8 & 0x04 != 0 <==> Bit(b, 4)
    ensures b as bv8 & 0x08 != 0 <==> Bit(b, 8)
    ensures b as bv8 & 0x10 != 0 <==> Bit(b, 16)
    ensures b as bv8 & 0x20 != 0 <==> Bit(b, 32)
    ensures b as bv8 & 0x40 != 0 <==> Bit(b, 64)
    ensures b as bv8 & 0x80 != 0 <==> Bit(b, 128)
  {
  }

  function TwoBits(low: bool, high: bool): bv8 {
    if low then (if high then 3 else 1) else (if high then 2 else 0)
  }

  lemma TwoBitsRead(low: bool, high: bool)
    ensures TwoBits(low, high) as int == BoolByte(low) + 2 * BoolByte(high)
  {
  }

  lemma FieldIsTwoBits(x: bv8)
    ensures (x & 0x06) >> 1 == TwoBits(x & 0x02 != 0, x & 0x04 != 0)
    ensures (x & 0x18) >> 3 == TwoBits(x & 0x08 != 0, x & 0x10 != 0)
  {
  }

  lemma LowDigits(n: nat)
    ensures n % 4 == n % 2 + 2 * (n / 2 % 2)
  {
    var high := n / 4;
    assert n == 4 * high + n % 4;
    assert n / 2 == 2 * high + n % 4 / 2;
  }

  lemma TwoDigits(b: byte)
    ensures b / 2 % 4 == BoolByte(Bit(b, 2)) + 2 * BoolByte(Bit(b, 4))
    ensures b / 8 % 4 == BoolByte(Bit(b, 8)) + 2 * BoolByte(Bit(b, 16))
  {
    LowDigits(b / 2);
    LowDigits(b / 8);
    assert b / 2 / 2 == b / 4;
    assert b / 8 / 2 == b / 16;
  }

  /** The two-bit QoS fields of a PUBLISH first byte and of the CONNECT flags, masked and shifted down. */
  lemma MaskedQos(b: byte)
    ensures ((b as bv8 & 0x06) >> 1) as int == b / 2 % 4
    ensures ((b as bv8 & 0x18) >> 3) as int == b / 8 % 4
  {
    MaskedBits(b);
    FieldIsTwoBits(b as bv8);
    TwoBitsRead(Bit(b, 2), Bit(b, 4));
    TwoBitsRead(Bit(b, 8), Bit(b, 16));
    TwoDigits(b);
    hide *;
  }

  lemma MaskedWillFields(b: byte)
    ensures b as bv8 & 0x38 != 0 <==> b / 8 % 8 != 0
  {
  }

  // ---- First byte of PUBLISH ----

  /** Packet type 3 with RETAIN, QoS and DUP in the low four bits. */
  function PublishByte1(dup: bool, qos: QoS, retain: bool): byte {
    0x30 + BoolByte(retain) + 2 * QosByte(qos) + 8 * BoolByte(dup)
  }

  method PublishFlags(dup: bool, qos: QoS, retain: bool) returns (b: byte)
    ensures b == PublishByte1(dup, qos, retain)
  {
    var bits: bv8 := 0x30 | BoolBits(retain) | (QosBits(qos) << 1) | (BoolBits(dup) << 3);
    b := bits as int;
  }

  method MaskPublish(byte1: byte) returns (qos: byte, dup: bool, retain: bool)
    ensures qos == byte1 / 2 % 4 && dup == Bit(byte1, 8) && retain == Bit(byte1, 1)
  {
    hide Bit;
    MaskedQos(byte1);
    MaskedBits(byte1);
    var bits := byte1 as bv8;
    var field := (bits & 0x06) >> 1;
    qos, dup, retain := field as int, bits & 0x08 != 0, bits & 0x01 != 0;
  }

  lemma PublishByte1Reads(dup: bool, qos: QoS, retain: bool)
    ensures var b := PublishByte1(dup, qos, retain);
            && b / 16 == 3 && b / 2 % 4 == QosByte(qos) && Bit(b, 8) == dup && Bit(b, 1) == retain
  {
  }

  // ---- CONNECT flags ----

  function WillBits(qos: QoS, retain: bool): bv8 {
    0x04 | (QosBits(qos) << 3) | (if retain then 0x20 else 0)
  }

  function LoginBits(username: bool, password: bool): bv8 {
    (if username then 0x80 else 0) | (if password then 0x40 else 0)
  }

  /** The flags byte a CONNECT must carry: each field has bits of its own, so they add up. */
  function ConnectFlags(clean: bool, will: Option<(QoS, bool)>, username: bool, password: bool): byte {
    2 * BoolByte(clean)
    + (match will case Some((qos, retain)) => 4 + 8 * QosByte(qos) + 32 * BoolByte(retain) case None => 0)
    + 128 * BoolByte(username) + 64 * BoolByte(password)
  }

  method ConnectFlagsByte(bits: bv8, ghost clean: bool, ghost will: Option<(QoS, bool)>,
                          ghost username: bool, ghost password: bool)
    returns (b: byte)
    requires bits == (if clean then 0x02 else 0)
                     | (match will case Some((qos, retain)) => WillBits(qos, retain) case None => 0)
                     | LoginBits(username, password)
    ensures b == ConnectFlags(clean, will, username, password)
  {
    b := bits as int;
  }

  datatype ConnectFlagSet = ConnectFlagSet(
    clean: bool, will: bool, willQos: byte, willRetain: bool, anyWillFlag: bool, username: bool, password: bool)

  function ReadConnectFlags(b: byte): ConnectFlagSet {
    ConnectFlagSet(Bit(b, 2), Bit(b, 4), b / 8 % 4, Bit(b, 32), b / 8 % 8 != 0, Bit(b, 128), Bit(b, 64))
  }

  method MaskConnect(b: byte) returns (f: ConnectFlagSet)
    ensures f == ReadConnectFlags(b)
  {
    hide Bit;
    MaskedQos(b);
    MaskedWillFields(b);
    MaskedBits(b);
    var bits := b as bv8;
    var field := (bits & 0x18) >> 3;
    f := ConnectFlagSet(
      bits & 0x02 != 0, bits & 0x04 != 0, field as int, bits & 0x20 != 0, bits & 0x38 != 0, bits & 0x80 != 0,
      bits & 0x40 != 0);
  }

  lemma FlagDigits(c: byte, w: byte, q: byte, r: byte, p: byte, u: byte, b: byte)
    requires c < 2 && w < 2 && q < 4 && r < 2 && p < 2 && u < 2
    requires b == 2 * c + 4 * w + 8 * q + 32 * r + 64 * p + 128 * u
    ensures b / 2 % 2 == c && b / 4 % 2 == w && b / 8 % 4 == q && b / 32 % 2 == r && b / 64 % 2 == p && b / 128 % 2 == u
    ensures b / 8 % 8 == q + 4 * r
  {
    assert b / 2 == c + 2 * (w + 2 * q + 8 * r + 16 * p + 32 * u);
    assert b / 4 == w + 2 * (q + 4 * r + 8 * p + 16 * u);
    assert b / 8 == q + 4 * (r + 2 * p + 4 * u);
    assert b / 8 == q + 4 * r + 8 * (p + 2 * u);
    assert b / 32 == r + 2 * (p + 2 * u);
    assert b / 64 == p + 2 * u;
    assert b / 128 == u;
  }

  /** Reading undoes packing, for every combination of the fields. */
  lemma ConnectFlagsRead(clean: bool, will: Option<(QoS, bool)>, username: bool, password: bool)
    ensures var f := ReadConnectFlags(ConnectFlags(clean, will, username, password));
            && f.clean == clean && f.username == username && f.password == password
            && f.will == will.Some?
            && (will.Some? ==> QosOf(f.willQos) == Ok(will.value.0) && f.willRetain == will.value.1)
            && (will.None? ==> !f.anyWillFlag)
  {
    var q: byte := if will.Some? then QosByte(will.value.0) else 0;
    var retain := will.Some? && will.value.1;
    FlagDigits(BoolByte(clean), BoolByte(will.Some?), q, BoolByte(retain), BoolByte(password), BoolByte(username),
               ConnectFlags(clean, will, username, password));
  }
}
