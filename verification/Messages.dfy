/** Wire messages of the tunnel: fixed layouts with little-endian fields. */
module Messages {
  import opened Options
  import opened Words
  import opened Buffers

  const TYPE_HANDSHAKE_INIT: u8 := 1
  const TYPE_HANDSHAKE_RESP: u8 := 2
  const TYPE_DATA: u8 := 3
  const HANDSHAKE_INIT_SIZE := 104
  const HANDSHAKE_RESP_SIZE := 60
  const DATA_HEADER_SIZE := 16
  const AUTH_TAG_SIZE := 16

  type Block16 = b: Bytes | |b| == 16 witness seq(16, i => 0)
  type Block32 = b: Bytes | |b| == 32 witness seq(32, i => 0)
  type Block48 = b: Bytes | |b| == 48 witness seq(48, i => 0)

  datatype HandshakeInit = HandshakeInit(sender: u32, ephemeral: Block32, encStatic: Block48, encPayload: Block16)
  datatype HandshakeResp = HandshakeResp(sender: u32, receiver: u32, ephemeral: Block32, encPayload: Block16)
  datatype Data = Data(receiver: u32, counter: u64, ciphertext: Bytes)

  function Read32(b: Bytes, at: nat): u32
    requires at + 4 <= |b|
  {
    LittleOnto(b[at..at + 4]); Widths();
    FromLittle(b[at..at + 4])
  }

  function Read64(b: Bytes, at: nat): u64
    requires at + 8 <= |b|
  {
    LittleOnto(b[at..at + 8]); Widths();
    FromLittle(b[at..at + 8])
  }

  // ---------------------------------------------------------------- layouts

  function InitBytes(m: HandshakeInit): Bytes {
    [TYPE_HANDSHAKE_INIT, 0, 0, 0] + Little(m.sender, 4) + m.ephemeral + m.encStatic + m.encPayload
  }

  function RespBytes(m: HandshakeResp): Bytes {
    [TYPE_HANDSHAKE_RESP, 0, 0, 0] + Little(m.sender, 4) + Little(m.receiver, 4) + m.ephemeral + m.encPayload
  }

  function DataBytes(m: Data): Bytes {
    [TYPE_DATA, 0, 0, 0] + Little(m.receiver, 4) + Little(m.counter, 8) + m.ciphertext
  }

  function ParseInit(b: Bytes): Option<HandshakeInit> {
    if |b| < HANDSHAKE_INIT_SIZE || b[0] != TYPE_HANDSHAKE_INIT then None
    else Some(HandshakeInit(Read32(b, 4), b[8..40], b[40..88], b[88..104]))
  }

  function ParseResp(b: Bytes): Option<HandshakeResp> {
    if |b| < HANDSHAKE_RESP_SIZE || b[0] != TYPE_HANDSHAKE_RESP then None
    else Some(HandshakeResp(Read32(b, 4), Read32(b, 8), b[12..44], b[44..60]))
  }

  function ParseData(b: Bytes): Option<Data> {
    if |b| < DATA_HEADER_SIZE + AUTH_TAG_SIZE || b[0] != TYPE_DATA then None
    else Some(Data(Read32(b, 4), Read64(b, 8), b[16..]))
  }

  // ---------------------------------------------------------------- marshalling

  method MarshalInit(m: HandshakeInit) returns (b: array<u8>)
    ensures fresh(b) && b[..] == InitBytes(m)
  {
    b := new u8[HANDSHAKE_INIT_SIZE](i => 0);
    b[0] := TYPE_HANDSHAKE_INIT;
    assert b[..4] == [TYPE_HANDSHAKE_INIT, 0, 0, 0];
    PutLittle(b, 4, m.sender, 4);
    assert b[..8] == [TYPE_HANDSHAKE_INIT, 0, 0, 0] + Little(m.sender, 4);
    CopyAt(b, 8, m.ephemeral);
    CopyAt(b, 40, m.encStatic);
    CopyAt(b, 88, m.encPayload);
  }

  method MarshalResp(m: HandshakeResp) returns (b: array<u8>)
    ensures fresh(b) && b[..] == RespBytes(m)
  {
    b := new u8[HANDSHAKE_RESP_SIZE](i => 0);
    b[0] := TYPE_HANDSHAKE_RESP;
    PutLittle(b, 4, m.sender, 4);
    PutLittle(b, 8, m.receiver, 4);
    CopyAt(b, 12, m.ephemeral);
    CopyAt(b, 44, m.encPayload);
    assert b[..4] == [TYPE_HANDSHAKE_RESP, 0, 0, 0];
  }

  method MarshalData(m: Data) returns (b: array<u8>)
    ensures fresh(b) && b[..] == DataBytes(m)
  {
    b := new u8[DATA_HEADER_SIZE + |m.ciphertext|](i => 0);
    b[0] := TYPE_DATA;
    assert b[..4] == [TYPE_DATA, 0, 0, 0];
    PutLittle(b, 4, m.receiver, 4);
    assert b[..8] == [TYPE_DATA, 0, 0, 0] + Little(m.receiver, 4);
    PutLittle(b, 8, m.counter, 8);
    assert b[..16] == [TYPE_DATA, 0, 0, 0] + Little(m.receiver, 4) + Little(m.counter, 8);
    CopyAt(b, DATA_HEADER_SIZE, m.ciphertext);
  }

  /** Four bytes as a number, the least significant first. */
  function Number(b0: int, b1: int, b2: int, b3: int): int {
    b0 + 256 * (b1 + 256 * (b2 + 256 * b3))
  }

  /** The fixed layouts: a type byte and three reserved ones, numbers, and then the fields one after the other. */
  lemma InitLayout(m: HandshakeInit)
    ensures var b := InitBytes(m);
            |b| == 104 && b[..4] == [1, 0, 0, 0] && Number(b[4], b[5], b[6], b[7]) == m.sender &&
            b[8..40] == m.ephemeral && b[40..88] == m.encStatic && b[88..] == m.encPayload
  {
    var b := InitBytes(m);
    assert b[4..8] == Little(m.sender, 4);
    LittleFour(b[4..8], m.sender);
  }

  lemma RespLayout(m: HandshakeResp)
    ensures var b := RespBytes(m);
            |b| == 60 && b[..4] == [2, 0, 0, 0] && Number(b[4], b[5], b[6], b[7]) == m.sender &&
            Number(b[8], b[9], b[10], b[11]) == m.receiver && b[12..44] == m.ephemeral && b[44..] == m.encPayload
  {
    var b := RespBytes(m);
    assert b[4..8] == Little(m.sender, 4) && b[8..12] == Little(m.receiver, 4);
    LittleFour(b[4..8], m.sender);
    LittleFour(b[8..12], m.receiver);
  }

  lemma DataLayout(m: Data)
    ensures var b := DataBytes(m);
            |b| == 16 + |m.ciphertext| && b[..4] == [3, 0, 0, 0] && Number(b[4], b[5], b[6], b[7]) == m.receiver &&
            Number(b[8], b[9], b[10], b[11]) + TWO32 * Number(b[12], b[13], b[14], b[15]) == m.counter &&
            b[16..] == m.ciphertext
  {
    var b := DataBytes(m);
    assert b[4..8] == Little(m.receiver, 4) && b[8..16] == Little(m.counter, 8);
    LittleFour(b[4..8], m.receiver);
    LittleEight(b[8..16], m.counter);
  }

  // ---------------------------------------------------------------- round trips

  /** A parser recovers what the matching marshaller wrote, whatever bytes follow a fixed-size message. */
  lemma InitRoundTrip(m: HandshakeInit, tail: Bytes)
    ensures ParseInit(InitBytes(m) + tail) == Some(m)
  {
    var b := InitBytes(m) + tail;
    Widths();
    LittleRoundTrip(m.sender, 4);
    assert b[4..8] == Little(m.sender, 4);
    assert b[8..40] == m.ephemeral && b[40..88] == m.encStatic && b[88..104] == m.encPayload;
  }

  lemma RespRoundTrip(m: HandshakeResp, tail: Bytes)
    ensures ParseResp(RespBytes(m) + tail) == Some(m)
  {
    var b := RespBytes(m) + tail;
    Widths();
    LittleRoundTrip(m.sender, 4);
    LittleRoundTrip(m.receiver, 4);
    assert b[4..8] == Little(m.sender, 4) && b[8..12] == Little(m.receiver, 4);
    assert b[12..44] == m.ephemeral && b[44..60] == m.encPayload;
  }

  /** A data message comes back exactly when its ciphertext has room for the authentication tag. */
  lemma DataRoundTrip(m: Data)
    ensures ParseData(DataBytes(m)) == if |m.ciphertext| >= 16 then Some(m) else None
  {
    var b := DataBytes(m);
    Widths();
    LittleRoundTrip(m.receiver, 4);
    LittleRoundTrip(m.counter, 8);
    assert b[4..8] == Little(m.receiver, 4) && b[8..16] == Little(m.counter, 8);
    assert b[16..] == m.ciphertext;
  }

  /** Parsing loses nothing but the reserved bytes and, in a handshake message, the bytes past its size. */
  lemma ParsedInitMarshalsBack(b: Bytes)
    requires ParseInit(b).Some?
    ensures InitBytes(ParseInit(b).value) == b[..1] + [0, 0, 0] + b[4..HANDSHAKE_INIT_SIZE]
  {
    LittleOnto(b[4..8]);
  }

  lemma ParsedRespMarshalsBack(b: Bytes)
    requires ParseResp(b).Some?
    ensures RespBytes(ParseResp(b).value) == b[..1] + [0, 0, 0] + b[4..HANDSHAKE_RESP_SIZE]
  {
    LittleOnto(b[4..8]);
    LittleOnto(b[8..12]);
  }

  lemma ParsedDataMarshalsBack(b: Bytes)
    requires ParseData(b).Some?
    ensures DataBytes(ParseData(b).value) == b[..1] + [0, 0, 0] + b[4..]
  {
    LittleOnto(b[4..8]);
    LittleOnto(b[8..16]);
  }
}
