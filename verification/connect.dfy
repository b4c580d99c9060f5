/** CONNECT packets: section 3.1 of MQTT 3.1.1. */
module Connects {
  import opened Bytes
  import opened Utf8
  import opened Wire
  import opened Flags
  import opened Cursors
  import opened Streams

  datatype Login = Login(username: str, password: bytes) {
    function Len(): nat {
      (if username == [] then 0 else 2 + |username|) + (if password == [] then 0 else 2 + |password|)
    }
  }

  datatype LastWill = LastWill(topic: str, message: bytes, qos: QoS, retain: bool) {
    function Len(): nat {
      2 + |topic| + 2 + |message|
    }
  }

  datatype ConnectOptions = ConnectOptions(
    clientId: str, lastWill: Option<LastWill>, login: Option<Login>, keepAlive: u16, cleanSession: bool)
  {
    function AsConnect(): Connect {
      Connect(V4, keepAlive, clientId, cleanSession, lastWill, login)
    }
  }

  datatype Connect = Connect(
    protocol: Protocol, keepAlive: u16, clientId: str, cleanSession: bool,
    lastWill: Option<LastWill>, login: Option<Login>)

  /** The protocol name "MQTT". */
  const PROTOCOL_NAME: bytes := [0x4D, 0x51, 0x54, 0x54]

  // ---- Wire form ----

  function OptionalField(s: bytes): bytes {
    if s == [] then [] else EncodeBytes(s)
  }

  function WillPayload(will: Option<LastWill>): bytes {
    match will
    case None => []
    case Some(w) => EncodeBytes(w.topic) + EncodeBytes(w.message)
  }

  function LoginPayload(login: Option<Login>): bytes {
    match login
    case None => []
    case Some(l) => OptionalField(l.username) + OptionalField(l.password)
  }

  function WillFlags(will: Option<LastWill>): Option<(QoS, bool)> {
    match will
    case None => None
    case Some(w) => Some((w.qos, w.retain))
  }

  predicate HasUsername(login: Option<Login>) {
    login.Some? && login.value.username != []
  }

  predicate HasPassword(login: Option<Login>) {
    login.Some? && login.value.password != []
  }

  function FlagsOf(c: Connect): byte {
    ConnectFlags(c.cleanSession, WillFlags(c.lastWill), HasUsername(c.login), HasPassword(c.login))
  }

  function LevelOf(c: Connect): byte {
    match c.protocol
    case V4 => 4
    case V5 => 5
  }

  function ConnectPayload(c: Connect): bytes {
    EncodeBytes(c.clientId) + WillPayload(c.lastWill) + LoginPayload(c.login)
  }

  function ConnectBody(c: Connect): bytes {
    EncodeBytes(PROTOCOL_NAME) + [LevelOf(c)] + [FlagsOf(c)] + BigEndian(c.keepAlive) + ConnectPayload(c)
  }

  function ConnectLen(c: Connect): (n: nat)
    ensures n == |ConnectBody(c)|
  {
    2 + |PROTOCOL_NAME| + 1 + 1 + 2
    + (2 + |c.clientId|)
    + (match c.lastWill case Some(will) => will.Len() case None => 0)
    + (match c.login case Some(login) => login.Len() case None => 0)
  }

  function EncodeConnect(c: Connect): bytes {
    [0x10] + VarInt(ConnectLen(c)) + ConnectBody(c)
  }

  // ---- Reading ----

  function ParseWill(f: ConnectFlagSet, s: bytes): (r: Result<(Option<LastWill>, bytes), Error>)
    ensures r.Err? ==> !r.error.NeedMoreData?
  {
    if !f.will then
      if f.anyWillFlag then Err(MalformedPacket) else Ok((None, s))
    else
      var (topic, afterTopic) :- ParseString(s);
      var (message, rest) :- ParseBytes(afterTopic);
      var qos :- QosOf(f.willQos);
      Ok((Some(LastWill(topic, message, qos, f.willRetain)), rest))
  }

  function ParseLogin(f: ConnectFlagSet, s: bytes): (r: Result<(Option<Login>, bytes), Error>)
    ensures r.Err? ==> !r.error.NeedMoreData?
  {
    var (username, afterUsername) :- if f.username then ParseString(s) else Ok(([], s));
    var (password, rest) :- if f.password then ParseBytes(afterUsername) else Ok(([], afterUsername));
    if username == [] && password == [] then
      Ok((None, rest))
    else
      Ok((Some(Login(username, password)), rest))
  }

  /** Everything behind the protocol level. */
  function ParseConnectFields(s: bytes): (r: Result<Connect, Error>)
    ensures r.Err? ==> !r.error.NeedMoreData?
  {
    var (flagByte, afterFlags) :- ParseU8(s);
    var f := ReadConnectFlags(flagByte);
    var (keepAlive, afterKeepAlive) :- ParseU16(afterFlags);
    var (clientId, afterId) :- ParseString(afterKeepAlive);
    var (lastWill, afterWill) :- ParseWill(f, afterId);
    var (login, _) :- ParseLogin(f, afterWill);
    Ok(Connect(V4, keepAlive, clientId, f.clean, lastWill, login))
  }

  function DecodeConnect(body: bytes): (r: Result<Connect, Error>)
    ensures r.Err? ==> !r.error.NeedMoreData?
  {
    var (name, afterName) :- ParseString(body);
    var (level, rest) :- ParseU8(afterName);
    if name != PROTOCOL_NAME then Err(InvalidProtocol)
    else if level != 4 then Err(InvalidProtocolLevel(level))
    else ParseConnectFields(rest)
  }

  method ReadWill(f: ConnectFlagSet, stream: Cursor) returns (r: Result<Option<LastWill>, Error>)
    modifies stream
    ensures match ParseWill(f, old(stream.rest))
            case Ok((will, rest)) => r == Ok(will) && stream.rest == rest
            case Err(e) => r == Err(e)
  {
    hide ParseString, ParseBytes, Utf8.Valid;
    if !f.will {
      if f.anyWillFlag {
        return Err(MalformedPacket);
      }
      return Ok(None);
    }
    var topic :- ReadMqttString(stream);
    var message :- ReadMqttBytes(stream);
    var qos :- QosOf(f.willQos);
    return Ok(Some(LastWill(topic, message, qos, f.willRetain)));
  }

  method ReadLogin(f: ConnectFlagSet, stream: Cursor) returns (r: Result<Option<Login>, Error>)
    modifies stream
    ensures match ParseLogin(f, old(stream.rest))
            case Ok((login, rest)) => r == Ok(login) && stream.rest == rest
            case Err(e) => r == Err(e)
  {
    hide ParseString, ParseBytes;
    var username: str := [];
    if f.username {
      username :- ReadMqttString(stream);
    }
    var password: bytes := [];
    if f.password {
      password :- ReadMqttBytes(stream);
    }
    if username == [] && password == [] {
      return Ok(None);
    }
    return Ok(Some(Login(username, password)));
  }

  method ReadConnectFields(stream: Cursor) returns (r: Result<Connect, Error>)
    modifies stream
    ensures r == ParseConnectFields(old(stream.rest))
  {
    hide ParseString, ParseBytes, ParseWill, ParseLogin, ReadConnectFlags, Utf8.Valid;
    var flagByte :- ReadU8(stream);
    var f := MaskConnect(flagByte);
    var keepAlive :- ReadU16(stream);
    var clientId :- ReadMqttString(stream);
    var lastWill :- ReadWill(f, stream);
    var login :- ReadLogin(f, stream);
    return Ok(Connect(V4, keepAlive, clientId, f.clean, lastWill, login));
  }

  method ReadConnect(header: FixedHeader, data: bytes) returns (r: Result<Connect, Error>)
    requires header.fixedHeaderLen <= |data|
    ensures r == DecodeConnect(data[header.fixedHeaderLen..])
  {
    hide ParseString, ParseConnectFields, Utf8.Valid;
    var stream := new Cursor(data);
    stream.Advance(header.fixedHeaderLen);
    var name :- ReadMqttString(stream);
    var level :- ReadU8(stream);
    if name != PROTOCOL_NAME {
      return Err(InvalidProtocol);
    }
    if level != 4 {
      return Err(InvalidProtocolLevel(level));
    }
    r := ReadConnectFields(stream);
  }

  // ---- Writing ----

  method WriteWill(will: LastWill, w: WriteCursor) returns (r: Result<bv8, WriteError>)
    requires w.Valid()
    modifies w`next, w.buffer
    ensures w.Valid()
    ensures r == if old(w.next) + |WillPayload(Some(will))| <= w.Capacity()
                 then Ok(WillBits(will.qos, will.retain)) else Err(NotEnoughCapacity)
    ensures r.Ok? ==> w.Written() == old(w.Written()) + WillPayload(Some(will))
  {
    hide EncodeBytes, QosBits, WriteCursor.Valid, WriteCursor.Written, Utf8.Valid;
    var flags: bv8 := 0x04 | (QosBits(will.qos) << 3);
    if will.retain {
      flags := flags | 0x20;
    }
    var _ :- WriteMqttBytes(w, will.topic);
    var _ :- WriteMqttBytes(w, will.message);
    return Ok(flags);
  }

  method WriteLogin(login: Login, w: WriteCursor) returns (r: Result<bv8, WriteError>)
    requires w.Valid()
    modifies w`next, w.buffer
    ensures w.Valid()
    ensures r == if old(w.next) + |LoginPayload(Some(login))| <= w.Capacity()
                 then Ok(LoginBits(login.username != [], login.password != [])) else Err(NotEnoughCapacity)
    ensures r.Ok? ==> w.Written() == old(w.Written()) + LoginPayload(Some(login))
  {
    hide EncodeBytes, WriteCursor.Valid, WriteCursor.Written, Utf8.Valid;
    var flags: bv8 := 0;
    if login.username != [] {
      flags := flags | 0x80;
      var _ :- WriteMqttBytes(w, login.username);
    }
    if login.password != [] {
      flags := flags | 0x40;
      var _ :- WriteMqttBytes(w, login.password);
    }
    return Ok(flags);
  }

  function CleanBits(c: Connect): bv8 {
    if c.cleanSession then 0x02 else 0
  }

  function WillPart(will: Option<LastWill>): bv8 {
    match WillFlags(will) case Some((qos, retain)) => WillBits(qos, retain) case None => 0
  }

  function LoginPart(login: Option<Login>): bv8 {
    LoginBits(HasUsername(login), HasPassword(login))
  }

  /** The flags as the source or-s them together. */
  function PackedFlags(c: Connect): bv8 {
    CleanBits(c) | WillPart(c.lastWill) | LoginPart(c.login)
  }

  method FlagsByte(ghost c: Connect, bits: bv8) returns (b: byte)
    requires bits == PackedFlags(c)
    ensures b == FlagsOf(c)
  {
    b := ConnectFlagsByte(bits, c.cleanSession, WillFlags(c.lastWill), HasUsername(c.login), HasPassword(c.login));
  }

  /** `if let Some(last_will)`: the will is appended and its bits are or-ed in. */
  method AddWill(will: Option<LastWill>, flags: bv8, w: WriteCursor) returns (r: Result<bv8, WriteError>)
    requires w.Valid()
    modifies w`next, w.buffer
    ensures w.Valid()
    ensures r == if old(w.next) + |WillPayload(will)| <= w.Capacity() then Ok(flags | WillPart(will))
            else Err(NotEnoughCapacity)
    ensures r.Ok? ==> w.Written() == old(w.Written()) + WillPayload(will)
  {
    hide EncodeBytes, WillBits, WriteCursor.Valid, WriteCursor.Written, Utf8.Valid;
    if will.None? {
      return Ok(flags);
    }
    var more :- WriteWill(will.value, w);
    return Ok(flags | more);
  }

  /** `if let Some(login)`, in the same way. */
  method AddLogin(login: Option<Login>, flags: bv8, w: WriteCursor) returns (r: Result<bv8, WriteError>)
    requires w.Valid()
    modifies w`next, w.buffer
    ensures w.Valid()
    ensures r == if old(w.next) + |LoginPayload(login)| <= w.Capacity() then Ok(flags | LoginPart(login))
            else Err(NotEnoughCapacity)
    ensures r.Ok? ==> w.Written() == old(w.Written()) + LoginPayload(login)
  {
    hide EncodeBytes, OptionalField, WriteCursor.Valid, WriteCursor.Written, Utf8.Valid;
    if login.None? {
      return Ok(flags);
    }
    var more :- WriteLogin(login.value, w);
    return Ok(flags | more);
  }

  /** Client id, will and login are appended while the flags they call for are or-ed together. */
  method WritePayload(c: Connect, cleanBits: bv8, w: WriteCursor) returns (r: Result<bv8, WriteError>)
    requires w.Valid() && cleanBits == CleanBits(c)
    modifies w`next, w.buffer
    ensures w.Valid()
    ensures r.Ok? <==> old(w.next) + |ConnectPayload(c)| <= w.Capacity()
    ensures r.Err? ==> r.error == NotEnoughCapacity
    ensures r.Ok? ==> w.Written() == old(w.Written()) + ConnectPayload(c)
    ensures r.Ok? ==> r.value == PackedFlags(c)
  {
    hide EncodeBytes, LoginPayload, WillPayload, WillPart, LoginPart, WriteCursor.Valid, WriteCursor.Written,
      Utf8.Valid;
    var _ :- WriteMqttBytes(w, c.clientId);
    var flags :- AddWill(c.lastWill, cleanBits, w);
    r := AddLogin(c.login, flags, w);
  }

  /** Fixed header, protocol name and protocol level: everything in front of the flags byte. */
  function ConnectHead(c: Connect): bytes {
    [0x10] + VarInt(ConnectLen(c)) + EncodeBytes(PROTOCOL_NAME) + [LevelOf(c)]
  }

  method WriteHead(c: Connect, w: WriteCursor) returns (r: Result<(), WriteError>)
    requires w.Valid() && w.next == 0
    modifies w`next, w.buffer
    ensures w.Valid()
    ensures r == var outcome := PrintOutcome(ConnectLen(c), |ConnectHead(c)|, w.Capacity());
                 if outcome.Ok? then Ok(()) else Err(outcome.error)
    ensures r.Ok? ==> w.Written() == ConnectHead(c)
  {
    hide VarInt, EncodeBytes, ConnectLen, WriteCursor.Valid, WriteCursor.Written, Utf8.Valid;
    var _ :- w.PutU8(0x10);
    var _ :- WriteRemainingLength(w, ConnectLen(c));
    var _ :- WriteMqttBytes(w, PROTOCOL_NAME);
    r := w.PutU8(LevelOf(c));
  }

  /** From the flags byte to the end of the payload. */
  function ConnectTail(c: Connect): bytes {
    [FlagsOf(c)] + BigEndian(c.keepAlive) + ConnectPayload(c)
  }

  /** The flags byte goes out as a placeholder and is patched once the payload has been written. */
  method WriteTail(c: Connect, w: WriteCursor) returns (r: Result<(), WriteError>)
    requires w.Valid()
    modifies w`next, w.buffer
    ensures w.Valid()
    ensures r == if old(w.next) + |ConnectTail(c)| <= w.Capacity() then Ok(()) else Err(NotEnoughCapacity)
    ensures r.Ok? ==> w.Written() == old(w.Written()) + ConnectTail(c)
  {
    hide BigEndian, ConnectPayload, FlagsOf, PackedFlags, CleanBits, WriteCursor.Valid, WriteCursor.Written, Utf8.Valid;
    ghost var before := w.Written();
    var cleanBits := CleanBits(c);
    var flagsIndex := w.BytesWritten();
    var placeholder := 2 * BoolByte(c.cleanSession);
    var _ :- w.PutU8(placeholder);
    var _ :- w.PutU16(c.keepAlive);
    var bits :- WritePayload(c, cleanBits, w);
    var flags := FlagsByte(c, bits);
    assert w.Written() == before + [placeholder] + BigEndian(c.keepAlive) + ConnectPayload(c);
    w.Patch(flagsIndex, flags);
    assert w.Written() == before + [flags] + BigEndian(c.keepAlive) + ConnectPayload(c);
    return Ok(());
  }

  method WriteConnect(c: Connect, buffer: array<byte>) returns (r: Result<nat, WriteError>)
    modifies buffer
    ensures r == PrintOutcome(ConnectLen(c), |EncodeConnect(c)|, buffer.Length)
    ensures r.Ok? ==> FillsFront(EncodeConnect(c), old(buffer[..]), buffer[..])
  {
    hide ConnectHead, ConnectTail, ConnectLen, EncodeConnect, WriteCursor.Valid, WriteCursor.Written, FillsFront,
      Utf8.Valid;
    var w := new WriteCursor(buffer, 0);
    EncodedInTwo(c);
    var _ :- WriteHead(c, w);
    var _ :- WriteTail(c, w);
    w.FillsBuffer();
    return Ok(w.BytesWritten());
  }

  lemma EncodedInTwo(c: Connect)
    ensures EncodeConnect(c) == ConnectHead(c) + ConnectTail(c)
  {
    hide VarInt, BigEndian, EncodeBytes, ConnectLen, ConnectPayload, ConnectFlags;
  }

  // ---- Round trip ----

  predicate ShortFields(c: Connect) {
    && |c.clientId| <= U16_MAX
    && (c.lastWill.Some? ==> |c.lastWill.value.topic| <= U16_MAX && |c.lastWill.value.message| <= U16_MAX)
    && (c.login.Some? ==> |c.login.value.username| <= U16_MAX && |c.login.value.password| <= U16_MAX)
  }

  predicate RepresentableConnect(c: Connect) {
    c.protocol == V4 && ShortFields(c) && ConnectLen(c) <= MAX_REMAINING
  }

  /** A login without username and password leaves no trace on the wire. */
  function NormalConnect(c: Connect): Connect {
    if c.login == Some(Login([], [])) then c.(login := None) else c
  }

  lemma WillRoundTrip(will: Option<LastWill>, f: ConnectFlagSet, rest: bytes)
    requires will.Some? ==> |will.value.topic| <= U16_MAX && |will.value.message| <= U16_MAX
    requires f.will == will.Some? && (will.None? ==> !f.anyWillFlag)
    requires will.Some? ==> QosOf(f.willQos) == Ok(will.value.qos) && f.willRetain == will.value.retain
    ensures ParseWill(f, WillPayload(will) + rest) == Ok((will, rest))
  {
    hide EncodeBytes, ParseString, ParseBytes, Utf8.Valid;
    match will
    case None =>
      assert WillPayload(will) + rest == rest;
    case Some(w) =>
      var tail := EncodeBytes(w.message) + rest;
      assert WillPayload(will) + rest == EncodeBytes(w.topic) + tail;
      StringRoundTrip(w.topic, tail);
      BytesRoundTrip(w.message, rest);
  }

  // The login fields that the flags announce, present or not; the printer announces those that are not empty.

  function FlaggedField(present: bool, s: bytes): bytes {
    if present then EncodeBytes(s) else []
  }

  function LoginFields(f: ConnectFlagSet, username: str, password: bytes): bytes {
    FlaggedField(f.username, username) + FlaggedField(f.password, password)
  }

  predicate LoginFlags(f: ConnectFlagSet, username: str, password: bytes) {
    (!f.username ==> username == []) && (!f.password ==> password == [])
  }

  function LoginOf(username: str, password: bytes): Option<Login> {
    if username == [] && password == [] then None else Some(Login(username, password))
  }

  lemma LoginParses(f: ConnectFlagSet, username: str, password: bytes, rest: bytes)
    requires |username| <= U16_MAX && |password| <= U16_MAX && LoginFlags(f, username, password)
    ensures ParseLogin(f, LoginFields(f, username, password) + rest) == Ok((LoginOf(username, password), rest))
  {
    hide EncodeBytes, ParseString, ParseBytes, Utf8.Valid;
    var tail := FlaggedField(f.password, password) + rest;
    assert LoginFields(f, username, password) + rest == FlaggedField(f.username, username) + tail;
    StringRoundTrip(username, tail);
    BytesRoundTrip(password, rest);
    assert [] + tail == tail && [] + rest == rest;
  }

  lemma LoginRoundTrip(login: Option<Login>, f: ConnectFlagSet, rest: bytes)
    requires login.Some? ==> |login.value.username| <= U16_MAX && |login.value.password| <= U16_MAX
    requires f.username == HasUsername(login) && f.password == HasPassword(login)
    ensures ParseLogin(f, LoginPayload(login) + rest)
            == Ok((if login == Some(Login([], [])) then None else login, rest))
  {
    assert Valid([]);
    hide EncodeBytes, ParseLogin, Utf8.Valid;
    assert [] + [] + rest == rest;
    match login
    case None => LoginParses(f, [], [], rest);
    case Some(l) => LoginParses(f, l.username, l.password, rest);
  }

  lemma FieldsRoundTrip(c: Connect)
    requires c.protocol == V4 && ShortFields(c)
    ensures ParseConnectFields(ConnectTail(c)) == Ok(NormalConnect(c))
  {
    hide EncodeBytes, BigEndian, ParseString, ParseU16, ParseWill, ParseLogin, WillPayload, LoginPayload, ConnectFlags,
      ReadConnectFlags, Utf8.Valid;
    var f := ReadConnectFlags(FlagsOf(c));
    ConnectFlagsRead(c.cleanSession, WillFlags(c.lastWill), HasUsername(c.login), HasPassword(c.login));
    var login := LoginPayload(c.login);
    var afterId := WillPayload(c.lastWill) + login;
    var afterKeepAlive := EncodeBytes(c.clientId) + afterId;
    assert ConnectPayload(c) == afterKeepAlive;
    var s := ConnectTail(c);
    assert s[1..] == BigEndian(c.keepAlive) + afterKeepAlive;
    U16RoundTrip(c.keepAlive, afterKeepAlive);
    StringRoundTrip(c.clientId, afterId);
    WillRoundTrip(c.lastWill, f, login);
    LoginRoundTrip(c.login, f, []);
    assert login + [] == login;
  }

  lemma ConnectRoundTrip(c: Connect)
    requires c.protocol == V4 && ShortFields(c)
    ensures DecodeConnect(ConnectBody(c)) == Ok(NormalConnect(c)) && |ConnectBody(c)| >= 2
  {
    hide EncodeBytes, BigEndian, ParseString, ParseConnectFields, ConnectPayload, ConnectFlags, Utf8.Valid;
    FieldsRoundTrip(c);
    var fields := ConnectTail(c);
    var tail := [4] + fields;
    assert ConnectBody(c) == EncodeBytes(PROTOCOL_NAME) + tail;
    assert Valid(PROTOCOL_NAME) by {
      NameIsText();
    }
    StringRoundTrip(PROTOCOL_NAME, tail);
    assert tail[1..] == fields;
  }

  lemma NameIsText()
    ensures Valid(PROTOCOL_NAME)
  {
    assert Valid(PROTOCOL_NAME[4..]);
    assert ValidFrom(PROTOCOL_NAME[3..]);
    assert ValidFrom(PROTOCOL_NAME[2..]);
    assert ValidFrom(PROTOCOL_NAME[1..]);
  }

  /** What is accepted is V4 with short fields and no empty login, and never prints longer than it was. */
  lemma DecodedConnect(body: bytes)
    requires DecodeConnect(body).Ok?
    ensures var c := DecodeConnect(body).value;
            c.protocol == V4 && ShortFields(c) && NormalConnect(c) == c && ConnectLen(c) <= |body|
  {
    hide EncodeBytes, BigEndian, ParseString, ParseBytes, ParseU16, ConnectBody, ReadConnectFlags, Utf8.Valid;
    var (_, afterName) := ParseString(body).value;
    var s := afterName[1..];
    var f := ReadConnectFlags(s[0]);
    var (_, afterKeepAlive) := ParseU16(s[1..]).value;
    var (id, afterId) := ParseString(afterKeepAlive).value;
    var (will, afterWill) := ParseWill(f, afterId).value;
    DecodedWill(f, afterId);
    DecodedLogin(f, afterWill);
  }

  lemma DecodedWill(f: ConnectFlagSet, s: bytes)
    requires ParseWill(f, s).Ok?
    ensures var (will, rest) := ParseWill(f, s).value;
            && (will.None? ==> |rest| <= |s|)
            && (will.Some? ==>
               |will.value.topic| <= U16_MAX && |will.value.message| <= U16_MAX && will.value.Len() + |rest| <= |s|)
  {
    hide EncodeBytes, ParseString, ParseBytes, Utf8.Valid;
  }

  lemma DecodedLogin(f: ConnectFlagSet, s: bytes)
    requires ParseLogin(f, s).Ok?
    ensures var (login, rest) := ParseLogin(f, s).value;
            && login != Some(Login([], []))
            && (login.None? ==> |rest| <= |s|)
            && (login.Some? ==>
               && |login.value.username| <= U16_MAX && |login.value.password| <= U16_MAX
               && login.value.Len() + |rest| <= |s|)
  {
    hide EncodeBytes, ParseString, ParseBytes, Utf8.Valid;
  }

  // ---- Exactly which bodies are accepted ----

  /** The flags tell the truth about `c`, whose login consists of these two fields. */
  predicate Describes(f: ConnectFlagSet, c: Connect, username: str, password: bytes) {
    && c.protocol == V4 && |c.clientId| <= U16_MAX && |username| <= U16_MAX && |password| <= U16_MAX
    && f.clean == c.cleanSession
    && f.will == c.lastWill.Some? && (c.lastWill.None? ==> !f.anyWillFlag)
    && (c.lastWill.Some? ==>
          var will := c.lastWill.value;
          && |will.topic| <= U16_MAX && |will.message| <= U16_MAX
          && QosOf(f.willQos) == Ok(will.qos) && f.willRetain == will.retain)
    && LoginFlags(f, username, password) && c.login == LoginOf(username, password)
  }

  function FieldsUnder(flagByte: byte, c: Connect, username: str, password: bytes, tail: bytes): bytes {
    var login := LoginFields(ReadConnectFlags(flagByte), username, password);
    [flagByte] + (BigEndian(c.keepAlive) + (EncodeBytes(c.clientId) + (WillPayload(c.lastWill) + (login + tail))))
  }

  ghost predicate WrittenAs(body: bytes, c: Connect, flagByte: byte, username: str, password: bytes, tail: bytes) {
    && Describes(ReadConnectFlags(flagByte), c, username, password)
    && body == EncodeBytes(PROTOCOL_NAME) + ([4] + FieldsUnder(flagByte, c, username, password, tail))
  }

  lemma ParsedWill(f: ConnectFlagSet, s: bytes)
    requires ParseWill(f, s).Ok?
    ensures var (will, rest) := ParseWill(f, s).value;
            && s == WillPayload(will) + rest
            && f.will == will.Some? && (will.None? ==> !f.anyWillFlag)
            && (will.Some? ==> |will.value.topic| <= U16_MAX && |will.value.message| <= U16_MAX
                               && QosOf(f.willQos) == Ok(will.value.qos) && f.willRetain == will.value.retain)
  {
    hide EncodeBytes, ParseString, ParseBytes, Utf8.Valid;
    var (will, rest) := ParseWill(f, s).value;
    if will.Some? {
      assert s == EncodeBytes(will.value.topic) + (EncodeBytes(will.value.message) + rest);
    } else {
      assert s == [] + rest;
    }
  }

  /** The two optional fields in turn. */
  lemma LoginSteps(f: ConnectFlagSet, s: bytes)
    returns (username: str, afterUsername: bytes, password: bytes, rest: bytes)
    requires ParseLogin(f, s).Ok?
    ensures if f.username then ParseString(s) == Ok((username, afterUsername)) else username == [] && afterUsername == s
    ensures if f.password then ParseBytes(afterUsername) == Ok((password, rest))
            else password == [] && rest == afterUsername
    ensures ParseLogin(f, s) == Ok((LoginOf(username, password), rest))
  {
    assert Valid([]);
    hide EncodeBytes, ParseString, ParseBytes, Utf8.Valid;
    username, afterUsername := [], s;
    if f.username {
      var field := ParseString(s).value;
      username, afterUsername := field.0, field.1;
    }
    password, rest := [], afterUsername;
    if f.password {
      var field := ParseBytes(afterUsername).value;
      password, rest := field.0, field.1;
    }
  }

  lemma ParsedLogin(f: ConnectFlagSet, s: bytes) returns (username: str, password: bytes)
    requires ParseLogin(f, s).Ok?
    ensures var (login, rest) := ParseLogin(f, s).value;
            && s == LoginFields(f, username, password) + rest && login == LoginOf(username, password)
            && LoginFlags(f, username, password) && |username| <= U16_MAX && |password| <= U16_MAX
  {
    hide EncodeBytes, ParseString, ParseBytes, ParseLogin, LoginOf, FlaggedField, Utf8.Valid;
    var afterUsername, rest;
    username, afterUsername, password, rest := LoginSteps(f, s);
    InFront(f.username, username, s, afterUsername);
    InFront(f.password, password, afterUsername, rest);
    assert s == LoginFields(f, username, password) + rest;
  }

  lemma InFront(present: bool, field: bytes, s: bytes, rest: bytes)
    requires if present then s == EncodeBytes(field) + rest else s == rest
    ensures s == FlaggedField(present, field) + rest
  {
    assert [] + rest == rest;
  }

  lemma AcceptedFields(s: bytes) returns (flagByte: byte, username: str, password: bytes, tail: bytes)
    requires ParseConnectFields(s).Ok?
    ensures var c := ParseConnectFields(s).value;
            && Describes(ReadConnectFlags(flagByte), c, username, password)
            && s == FieldsUnder(flagByte, c, username, password, tail)
  {
    hide EncodeBytes, BigEndian, ParseString, ParseU16, ParseWill, ParseLogin, ReadConnectFlags, LoginFields,
      LoginFlags, LoginOf, WillPayload, Utf8.Valid;
    flagByte := s[0];
    var f := ReadConnectFlags(flagByte);
    var (_, afterKeepAlive) := ParseU16(s[1..]).value;
    var (_, afterId) := ParseString(afterKeepAlive).value;
    var (_, afterWill) := ParseWill(f, afterId).value;
    ParsedWill(f, afterId);
    username, password := ParsedLogin(f, afterWill);
    tail := ParseLogin(f, afterWill).value.1;
    assert s == [flagByte] + s[1..];
  }

  lemma DescribedFields(flagByte: byte, c: Connect, username: str, password: bytes, tail: bytes)
    requires Describes(ReadConnectFlags(flagByte), c, username, password)
    ensures ParseConnectFields(FieldsUnder(flagByte, c, username, password, tail)) == Ok(c)
  {
    hide EncodeBytes, BigEndian, ParseString, ParseU16, ParseWill, ParseLogin, ReadConnectFlags, LoginFields,
      LoginFlags, LoginOf, WillPayload, Utf8.Valid;
    var f := ReadConnectFlags(flagByte);
    var afterWill := LoginFields(f, username, password) + tail;
    var afterId := WillPayload(c.lastWill) + afterWill;
    var afterKeepAlive := EncodeBytes(c.clientId) + afterId;
    var s := FieldsUnder(flagByte, c, username, password, tail);
    assert s[1..] == BigEndian(c.keepAlive) + afterKeepAlive;
    U16RoundTrip(c.keepAlive, afterKeepAlive);
    StringRoundTrip(c.clientId, afterId);
    WillRoundTrip(c.lastWill, f, afterWill);
    LoginParses(f, username, password, tail);
  }

  /**
   The reader accepts exactly the bodies made of the protocol name, level 4, a flags byte that tells the truth about the
   fields, and the fields; bytes behind the login are ignored, and so is the lowest flag.
   */
  lemma AcceptedConnectIff(body: bytes, c: Connect)
    ensures DecodeConnect(body) == Ok(c) <==>
            exists flagByte, username, password, tail :: WrittenAs(body, c, flagByte, username, password, tail)
  {
    hide EncodeBytes, ParseString, ParseConnectFields, ReadConnectFlags, Describes, FieldsUnder, Utf8.Valid;
    if DecodeConnect(body) == Ok(c) {
      var (_, afterName) := ParseString(body).value;
      var s := afterName[1..];
      var flagByte, username, password, tail := AcceptedFields(s);
      assert afterName == [4] + s;
      assert WrittenAs(body, c, flagByte, username, password, tail);
    }
    if flagByte, username, password, tail :| WrittenAs(body, c, flagByte, username, password, tail) {
      var fields := FieldsUnder(flagByte, c, username, password, tail);
      DescribedFields(flagByte, c, username, password, tail);
      assert Valid(PROTOCOL_NAME) by {
        NameIsText();
      }
      StringRoundTrip(PROTOCOL_NAME, [4] + fields);
      assert ([4] + fields)[1..] == fields;
    }
  }
}
