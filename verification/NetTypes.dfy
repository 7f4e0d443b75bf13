/** Network value types, protocol constants and the derived nonce and token. */
module NetTypes {
  import opened Prelude
  import opened Wire

  datatype Channel = Reliable | Unreliable

  datatype HandshakeState = NoHandshake | HelloSent | ChallengeSent | ResponseSent | Established

  datatype ConnectionState = Disconnected | Connecting | Handshaking | Connected | Disconnecting

  datatype DisconnectReason =
    | NoReason | Timeout | Graceful | Rejected | ProtocolError | CapacityFull | TransportError

  datatype TransportOutcome = SendOk | WouldBlock | SendQueued | SendRejected | EndpointMissing | SendError

  /** One row of the connection table. */
  datatype Connection = Connection(
    id: nat,
    endpoint: u32,
    state: ConnectionState,
    handshake: HandshakeState,
    createdTick: nat,
    lastRecvTick: nat,
    lastSendTick: nat,
    establishedTick: nat)

  const PROTOCOL_MAGIC: u16 := 0x5350
  const PROTOCOL_VERSION: u16 := 1

  const MSG_HELLO: u16 := 1
  const MSG_CHALLENGE: u16 := 2
  const MSG_RESPONSE: u16 := 3
  const MSG_ESTABLISHED: u16 := 4
  const MSG_PING: u16 := 5
  const MSG_PONG: u16 := 6
  const MSG_BYE: u16 := 7

  const FLAG_CONTROL: u8 := 4
  const DEFINED_FLAGS: u8 := 7

  const HEADER_SIZE: nat := 18

  predicate IsControlId(id: u16) { id <= 0xFF }

  predicate IsHandshakeId(id: u16) {
    id == MSG_HELLO || id == MSG_CHALLENGE || id == MSG_RESPONSE || id == MSG_ESTABLISHED
  }

  predicate IsHandshakeComplete(s: HandshakeState) { s == Established }

  /** The challenge value of a connection: recomputable from the id, never zero. */
  function ServerNonce(id: nat): (nonce: u32)
    ensures nonce != 0
  {
    var x := Low32(id * 2654435761);
    var y := Low32(Xor(x, 0x5350AA55));
    var z := Low32(y * 0x2000) + y / 0x80000;
    if Low32(z) == 0 then 1 else Low32(z)
  }

  /** The reconnect token handed to observers when a member leaves; never zero. */
  function MintToken(id: nat, joinTick: nat): (token: u64)
    ensures token != 0
  {
    var t := Xor(Low64(id * 0x1_0000_0000), Low64(joinTick * 2654435761));
    var u := Low64(Xor(t, 0x5350AA55A55A5350));
    if u == 0 then 1 else u
  }

  // ---------------------------------------------------------------- packet header

  datatype PacketHeader = PacketHeader(
    magic: u16, protocolVersion: u16, channel: u8, flags: u8,
    sequence: u16, ack: u16, ackBits: u32, messageId: u16, payloadLength: u16)

  function ChannelByte(c: Channel): u8 { if c == Reliable then 0 else 1 }

  /** The 18 header bytes, field by field. */
  function HeaderBytes(h: PacketHeader): (b: seq<u8>)
    ensures |b| == HEADER_SIZE
  {
    LE(h.magic, 2) + LE(h.protocolVersion, 2) + LE(h.channel, 1) + LE(h.flags, 1) + LE(h.sequence, 2)
    + LE(h.ack, 2) + LE(h.ackBits, 4) + LE(h.messageId, 2) + LE(h.payloadLength, 2)
  }

  /** Magic, version, channel, reserved flags: the checks that need no payload. */
  predicate HeaderAcceptable(h: PacketHeader) {
    && h.magic == PROTOCOL_MAGIC
    && h.protocolVersion == PROTOCOL_VERSION
    && h.channel <= 1
    && h.flags <= DEFINED_FLAGS
  }

  /** The fields of an 18-byte prefix, before any semantic check. */
  function HeaderFields(data: seq<u8>): PacketHeader
    requires |data| >= HEADER_SIZE
  {
    FieldBounds(data);
    PacketHeader(
      Field(data, 0, 2), Field(data, 2, 2), Field(data, 4, 1), Field(data, 5, 1), Field(data, 6, 2),
      Field(data, 8, 2), Field(data, 10, 4), Field(data, 14, 2), Field(data, 16, 2))
  }

  /** Truncated and malformed headers are None. */
  function DeserializeHeader(data: seq<u8>): Option<PacketHeader> {
    if |data| < HEADER_SIZE then None
    else
      var h := HeaderFields(data);
      if HeaderAcceptable(h) then Some(h) else None
  }

  /** Every header round trips, and is accepted exactly when it passes the semantic checks. */
  lemma HeaderRoundTrip(h: PacketHeader, payload: seq<u8>)
    ensures HeaderFields(HeaderBytes(h) + payload) == h
    ensures DeserializeHeader(HeaderBytes(h) + payload) == if HeaderAcceptable(h) then Some(h) else None
    ensures HeaderAcceptable(h) <==> h.magic == 0x5350 && h.protocolVersion == 1 && h.channel < 2 && h.flags < 8
  {
    Widths();
    var d := HeaderBytes(h) + payload;
    assert d[0..2] == LE(h.magic, 2);
    assert d[2..4] == LE(h.protocolVersion, 2);
    assert d[4..5] == LE(h.channel, 1);
    assert d[5..6] == LE(h.flags, 1);
    assert d[6..8] == LE(h.sequence, 2);
    assert d[8..10] == LE(h.ack, 2);
    assert d[10..14] == LE(h.ackBits, 4);
    assert d[14..16] == LE(h.messageId, 2);
    assert d[16..18] == LE(h.payloadLength, 2);
    LittleEndianRoundTrip(h.magic, 2);
    LittleEndianRoundTrip(h.protocolVersion, 2);
    LittleEndianRoundTrip(h.channel, 1);
    LittleEndianRoundTrip(h.flags, 1);
    LittleEndianRoundTrip(h.sequence, 2);
    LittleEndianRoundTrip(h.ack, 2);
    LittleEndianRoundTrip(h.ackBits, 4);
    LittleEndianRoundTrip(h.messageId, 2);
    LittleEndianRoundTrip(h.payloadLength, 2);
  }

  // ------------------------------------------------------------ handshake messages

  datatype HandshakeMessage = HandshakeMessage(id: u16, version: u16, nonce: u32)

  /** The version and nonce that follow a header; None on underflow. */
  function DeserializeHandshake(id: u16, body: seq<u8>): Option<HandshakeMessage> {
    if |body| < 6 then None
    else
      FieldBounds(body);
      Some(HandshakeMessage(id, Field(body, 0, 2), Field(body, 2, 4)))
  }

  function HandshakePayload(nonce: u32): seq<u8> { LE(0, 2) + LE(nonce, 4) }

  /** The tick as two 32-bit words, low word first. */
  function TickPayload(tick: nat): seq<u8> {
    LE(tick % 0x1_0000_0000, 4) + LE(tick / 0x1_0000_0000, 4)
  }

  /** A control packet: header then payload. */
  function BuildPacket(id: u16, channel: Channel, sequence: u16, payload: seq<u8>): (pkt: seq<u8>)
    ensures |pkt| == HEADER_SIZE + |payload|
  {
    HeaderBytes(PacketHeader(PROTOCOL_MAGIC, PROTOCOL_VERSION, ChannelByte(channel), FLAG_CONTROL,
                             sequence, 0, 0, id, |payload| % 0x1_0000))
    + payload
  }

  /** What a peer reads from a control packet. */
  lemma BuildPacketReadsBack(id: u16, channel: Channel, sequence: u16, payload: seq<u8>)
    ensures var pkt := BuildPacket(id, channel, sequence, payload);
            && DeserializeHeader(pkt).Some?
            && DeserializeHeader(pkt).value.sequence == sequence
            && DeserializeHeader(pkt).value.messageId == id
            && DeserializeHeader(pkt).value.channel == ChannelByte(channel)
            && DeserializeHeader(pkt).value.flags == FLAG_CONTROL
            && DeserializeHeader(pkt).value.payloadLength == |payload| % 0x1_0000
            && pkt[HEADER_SIZE..] == payload
            && pkt[..6] == [0x50, 0x53, 1, 0, if channel == Reliable then 0 else 1, 4]
  {
    var h := PacketHeader(PROTOCOL_MAGIC, PROTOCOL_VERSION, ChannelByte(channel), FLAG_CONTROL,
                          sequence, 0, 0, id, |payload| % 0x1_0000);
    HeaderRoundTrip(h, payload);
    HeaderStarts(h);
  }

  /** The protocol's own messages are numbered from 1 in this order. */
  lemma ControlIds()
    ensures [MSG_HELLO, MSG_CHALLENGE, MSG_RESPONSE, MSG_ESTABLISHED, MSG_PING, MSG_PONG, MSG_BYE]
         == [1, 2, 3, 4, 5, 6, 7]
  {
  }

  /** Magic and version, low byte first, then channel and flags. */
  lemma HeaderStarts(h: PacketHeader)
    ensures HeaderBytes(h)[..6]
         == [h.magic % 0x100, h.magic / 0x100, h.protocolVersion % 0x100, h.protocolVersion / 0x100, h.channel, h.flags]
  {
    assert LE(h.magic, 2) == [h.magic % 0x100, h.magic / 0x100];
    assert LE(h.protocolVersion, 2) == [h.protocolVersion % 0x100, h.protocolVersion / 0x100];
    assert LE(h.channel, 1) == [h.channel] && LE(h.flags, 1) == [h.flags];
  }

  /** A challenge sent by the host and echoed by a client carries the same nonce back. */
  lemma HandshakePayloadReadsBack(id: u16, nonce: u32)
    ensures DeserializeHandshake(id, HandshakePayload(nonce)) == Some(HandshakeMessage(id, 0, nonce))
  {
    var p := HandshakePayload(nonce);
    assert p[0..2] == LE(0, 2) && p[2..6] == LE(nonce, 4);
    Widths();
    LittleEndianRoundTrip(0, 2);
    LittleEndianRoundTrip(nonce, 4);
  }

  // ------------------------------------------------------- the handshake transition

  datatype OutboundControl = OutboundControl(id: u16, nonce: u32)

  datatype HandshakeResult = HandshakeResult(
    state: HandshakeState,
    outbound: Option<OutboundControl>,
    drop: Option<DisconnectReason>,
    advanced: bool)

  function NoChange(s: HandshakeState): HandshakeResult { HandshakeResult(s, None, None, false) }

  function Drop(s: HandshakeState, reason: DisconnectReason): HandshakeResult {
    HandshakeResult(s, None, Some(reason), false)
  }

  predicate IsIgnorable(id: u16) { IsControlId(id) && !IsHandshakeId(id) }

  /** Handshake::Advance with a message present; `allow` is the authenticator's decision. */
  function Advance(id: nat, s: HandshakeState, m: HandshakeMessage, allow: bool): HandshakeResult {
    match s
    case NoHandshake =>
      if m.id == MSG_HELLO then
        if m.version != PROTOCOL_VERSION then Drop(s, ProtocolError)
        else HandshakeResult(ChallengeSent, Some(OutboundControl(MSG_CHALLENGE, ServerNonce(id))), None, true)
      else if IsIgnorable(m.id) then NoChange(s)
      else Drop(s, ProtocolError)
    case ChallengeSent =>
      if m.id == MSG_RESPONSE then
        if m.nonce != ServerNonce(id) then Drop(s, ProtocolError)
        else if !allow then Drop(s, Rejected)
        else HandshakeResult(Established, Some(OutboundControl(MSG_ESTABLISHED, 0)), None, true)
      else if IsIgnorable(m.id) then NoChange(s)
      else Drop(s, ProtocolError)
    case _ =>
      if IsIgnorable(m.id) then NoChange(s) else Drop(s, ProtocolError)
  }

  /**
   * A handshake goes on by a Hello of version 1 and then an allowed Response with the connection's nonce. Control
   * messages that are no handshake messages are passed over; anything else ends it.
   */
  lemma AdvanceAnswers(id: nat, s: HandshakeState, m: HandshakeMessage, allow: bool)
    ensures var r := Advance(id, s, m, allow);
      var hello := s == NoHandshake && m.id == 1 && m.version == 1;
      var response := s == ChallengeSent && m.id == 3 && m.nonce == ServerNonce(id);
      var passed := m.id == 0 || 5 <= m.id <= 0xFF;
      && r.advanced == (hello || (response && allow))
      && (hello ==> r.state == ChallengeSent && r.outbound == Some(OutboundControl(2, ServerNonce(id))))
      && (response && allow ==> r.state == Established && r.outbound == Some(OutboundControl(4, 0)))
      && (!r.advanced ==> r.state == s && r.outbound == None)
      && r.drop == (if r.advanced || passed then None else if response then Some(Rejected) else Some(ProtocolError))
  {
    hide ServerNonce;
  }
}
