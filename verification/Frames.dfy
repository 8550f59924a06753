/** The relay's frames on a byte stream: type, 32-bit big-endian length, payload. */
module Frames {
  import opened Words
  import opened Buffers

  const MAX_FRAME := 65536
  const HEADER := 5
  const KEY_SIZE := 32

  const SEND_PACKET: u8 := 2
  const RECV_PACKET: u8 := 3
  const PEER_PRESENT: u8 := 4
  const PEER_GONE: u8 := 5
  const PONG: u8 := 7

  datatype Frame = Frame(kind: u8, payload: seq<u8>)

  /** The bytes of a frame; the length field keeps 32 bits. */
  function Wire(f: Frame): seq<u8> {
    [f.kind] + Big(|f.payload| % TWO32, 4) + f.payload
  }

  datatype ReadResult =
    | Read(frame: Frame, rest: seq<u8>)
    | ShortHeader
    | TooLarge
    | ShortPayload

  function ReadOne(s: seq<u8>): ReadResult {
    if |s| < HEADER then ShortHeader
    else
      var length := FromBig(s[1..HEADER]);
      if length > MAX_FRAME then TooLarge
      else if |s| < HEADER + length then ShortPayload
      else Read(Frame(s[0], s[HEADER..HEADER + length]), s[HEADER + length..])
  }

  lemma HeaderOf(f: Frame, rest: seq<u8>)
    ensures var s := Wire(f) + rest;
            |s| >= HEADER && s[0] == f.kind && FromBig(s[1..HEADER]) == |f.payload| % TWO32 &&
            s[HEADER..] == f.payload + rest
  {
    var s := Wire(f) + rest;
    assert s[1..HEADER] == Big(|f.payload| % TWO32, 4);
    Widths();
    BigRoundTrip(|f.payload| % TWO32, 4);
  }

  lemma FromBigFour(b: Bytes)
    requires |b| == 4
    ensures var b0: int, b1: int, b2: int, b3: int := b[0], b[1], b[2], b[3];
            FromBig(b) == 256 * (256 * (256 * b0 + b1) + b2) + b3
  {
    assert b[..3][..2] == b[..2] && b[..2][..1] == b[..1] && b[..1][..0] == [];
    assert FromBig(b[..1]) == b[0];
    assert FromBig(b[..2]) == 256 * FromBig(b[..1]) + b[1];
    assert FromBig(b[..3]) == 256 * FromBig(b[..2]) + b[2];
  }

  /** The layout of a frame: its type in one byte, the length in four, most significant first, and the payload. */
  lemma WireLayout(f: Frame)
    requires |f.payload| < TWO32
    ensures var w := Wire(f);
            |w| == 5 + |f.payload| && w[0] == f.kind && w[5..] == f.payload &&
            var b1: int, b2: int, b3: int, b4: int := w[1], w[2], w[3], w[4];
            |f.payload| == 256 * (256 * (256 * b1 + b2) + b3) + b4
  {
    HeaderOf(f, []);
    assert Wire(f) + [] == Wire(f);
    FromBigFour(Wire(f)[1..5]);
  }

  /** A written frame is read back, whatever follows it, exactly when its payload is at most 65536 bytes. */
  lemma FrameRoundTripIff(f: Frame, rest: seq<u8>)
    ensures ReadOne(Wire(f) + rest) == Read(f, rest) <==> |f.payload| <= 65536
  {
    HeaderOf(f, rest);
    var s := Wire(f) + rest;
    if |f.payload| <= MAX_FRAME {
      assert s[HEADER..HEADER + |f.payload|] == f.payload;
      assert s[HEADER + |f.payload|..] == rest;
    }
  }

  /** What reads as a frame was written as that frame. */
  lemma ReadIsWritten(s: seq<u8>)
    requires ReadOne(s).Read?
    ensures Wire(ReadOne(s).frame) + ReadOne(s).rest == s
  {
    var header := s[1..HEADER];
    BigOnto(header);
    var n := FromBig(header);
    assert |ReadOne(s).frame.payload| % TWO32 == n;
    SplitsInFour(s, n);
  }

  lemma SplitsInFour(s: seq<u8>, n: nat)
    requires HEADER + n <= |s|
    ensures [s[0]] + s[1..HEADER] + s[HEADER..HEADER + n] + s[HEADER + n..] == s
  {
  }

  function WireAll(fs: seq<Frame>): seq<u8> {
    if fs == [] then [] else Wire(fs[0]) + WireAll(fs[1..])
  }

  /** All frames that can be read, and why reading stopped. */
  function ReadAll(s: seq<u8>): (seq<Frame>, ReadResult)
    decreases |s|
  {
    match ReadOne(s)
    case Read(f, rest) => var (fs, stop) := ReadAll(rest); ([f] + fs, stop)
    case stop => ([], stop)
  }

  /** Any list of frames is read back identically exactly when no payload exceeds 65536 bytes. */
  lemma {:induction false} FramesRoundTripIff(fs: seq<Frame>)
    ensures ReadAll(WireAll(fs)) == (fs, ShortHeader) <==> forall f | f in fs :: |f.payload| <= 65536
  {
    if fs != [] {
      FramesRoundTripIff(fs[1..]);
      FrameRoundTripIff(fs[0], WireAll(fs[1..]));
      assert fs == [fs[0]] + fs[1..];
      if |fs[0].payload| > MAX_FRAME {
        HeaderOf(fs[0], WireAll(fs[1..]));
        FirstIsMisread(fs);
      }
    }
  }

  lemma FirstIsMisread(fs: seq<Frame>)
    requires fs != [] && |fs[0].payload| > MAX_FRAME
    ensures ReadAll(WireAll(fs)).0 != fs
  {
    var r := ReadOne(WireAll(fs));
    if r.Read? { assert |r.frame.payload| <= MAX_FRAME && ReadAll(WireAll(fs)).0[0] == r.frame; }
  }

  // ---------------------------------------------------------------- packets inside frames

  function Addressed(key: seq<u8>, packet: seq<u8>): seq<u8> {
    key + packet
  }

  datatype Parsed = Parsed(key: seq<u8>, packet: seq<u8>) | TooShort

  function ParsePacket(payload: seq<u8>): Parsed {
    if |payload| < KEY_SIZE then TooShort else Parsed(payload[..KEY_SIZE], payload[KEY_SIZE..])
  }

  lemma PacketRoundTrip(key: seq<u8>, packet: seq<u8>)
    requires |key| == KEY_SIZE
    ensures ParsePacket(Addressed(key, packet)) == Parsed(key, packet)
  {
  }

  /** The whole trip of a packet over both connections: the relay reads what the sender wrote, and the receiver reads
      what the relay wrote, with the sender's key in place of its own, if and only if the packet leaves room for the
      key in a frame. */
  lemma RelayedPacketArrivesIff(src: seq<u8>, dst: seq<u8>, packet: seq<u8>, rest1: seq<u8>, rest2: seq<u8>)
    requires |src| == |dst| == 32
    ensures var sent := Frame(2, Addressed(dst, packet));
            var relayed := Frame(3, Addressed(src, packet));
            (ReadOne(Wire(sent) + rest1) == Read(sent, rest1) && ParsePacket(sent.payload) == Parsed(dst, packet) &&
             ReadOne(Wire(relayed) + rest2) == Read(relayed, rest2) && ParsePacket(relayed.payload) == Parsed(src, packet))
            <==> |packet| <= 65504
  {
    FrameRoundTripIff(Frame(SEND_PACKET, Addressed(dst, packet)), rest1);
    FrameRoundTripIff(Frame(RECV_PACKET, Addressed(src, packet)), rest2);
    PacketRoundTrip(src, packet);
    PacketRoundTrip(dst, packet);
  }

  // ---------------------------------------------------------------- reading and writing

  class Stream {
    var bytes: seq<u8>

    constructor ()
      ensures bytes == []
    {
      bytes := [];
    }

    method Write(b: seq<u8>)
      modifies this
      ensures bytes == old(bytes) + b
    {
      bytes := bytes + b;
    }

    /** All of n bytes, or failure with what there was consumed. */
    method ReadFull(n: nat) returns (b: seq<u8>, ok: bool)
      modifies this
      ensures ok == (|old(bytes)| >= n)
      ensures ok ==> b == old(bytes)[..n] && bytes == old(bytes)[n..]
      ensures !ok ==> bytes == []
    {
      ok := |bytes| >= n;
      if ok { b, bytes := bytes[..n], bytes[n..]; } else { b, bytes := bytes, []; }
    }
  }

  method WriteFrame(w: Stream, kind: u8, payload: seq<u8>)
    modifies w
    ensures w.bytes == old(w.bytes) + Wire(Frame(kind, payload))
  {
    w.Write([kind] + Big(|payload| % TWO32, 4));
    if |payload| > 0 { w.Write(payload); }
  }

  method ReadFrame(r: Stream) returns (res: ReadResult)
    modifies r
    ensures res == ReadOne(old(r.bytes))
    ensures res.Read? ==> r.bytes == res.rest
  {
    ghost var all := r.bytes;
    var hdr, ok := r.ReadFull(HEADER);
    if !ok { return ShortHeader; }
    var length := FromBig(hdr[1..]);
    assert hdr[1..] == all[1..HEADER];
    if length > MAX_FRAME { return TooLarge; }
    var payload: seq<u8> := [];
    if length > 0 {
      payload, ok := r.ReadFull(length);
      if !ok { return ShortPayload; }
    }
    return Read(Frame(hdr[0], payload), r.bytes);
  }
}
