/** STUN binding responses (sections 15, 15.1 and 15.2 of RFC 5389): the attribute walk and the address decoders. */
module Stun {
  import opened Options
  import opened Words
  import opened Buffers

  const BINDING_RESPONSE := 0x0101
  const MAGIC_COOKIE := 0x2112A442
  const MAPPED_ADDRESS := 0x0001
  const XOR_MAPPED_ADDRESS := 0x0020
  const FAMILY_IPV4: u8 := 1
  const FAMILY_IPV6: u8 := 2
  const HEADER_SIZE := 20

  datatype Address = Address(ip: Bytes, port: u16)

  datatype Response = Found(address: Address) | TooShort | WrongType | WrongTransaction | Truncated | NoAddress

  // ---------------------------------------------------------------- addresses

  function Magic(): (m: Bytes)
    ensures |m| == 4
  {
    [0x21, 0x12, 0xA4, 0x42]
  }

  function XorByte(x: u8, y: u8): u8 {
    assert Pow2(8) == 256;
    XorFits(x, y, 8);
    Xor(x, y)
  }

  /** Byte by byte; the key is at least as long. */
  function XorBytes(b: Bytes, key: Bytes): (r: Bytes)
    requires |b| <= |key|
    ensures |r| == |b| && forall i | 0 <= i < |b| :: r[i] == XorByte(b[i], key[i])
  {
    if b == [] then [] else [XorByte(b[0], key[0])] + XorBytes(b[1..], key[1..])
  }

  function ParseMapped(b: Bytes): Option<Address> {
    if |b| < 8 then None
    else if b[1] == FAMILY_IPV4 then Some(Address(b[4..8], Word(b, 2)))
    else if b[1] == FAMILY_IPV6 && |b| >= 20 then Some(Address(b[4..20], Word(b, 2)))
    else None
  }

  function XorPort(port: u16): u16 {
    TwoTo16();
    XorFits(port, MAGIC_COOKIE / 0x1_0000, 16);
    Xor(port, MAGIC_COOKIE / 0x1_0000)
  }

  function ParseXorMapped(b: Bytes, txID: Bytes): Option<Address> {
    if |b| < 4 then None
    else if b[1] == FAMILY_IPV4 then
      if |b| < 8 then None else Some(Address(XorBytes(b[4..8], Magic()), XorPort(Word(b, 2))))
    else if b[1] == FAMILY_IPV6 then
      if |b| < 20 || |txID| < 12 then None
      else Some(Address(XorBytes(b[4..20], Magic() + txID), XorPort(Word(b, 2))))
    else None
  }

  /** The standard's encodings of an IPv4 or IPv6 address. */
  function Family(a: Address): u8 {
    if |a.ip| == 4 then FAMILY_IPV4 else FAMILY_IPV6
  }

  function EncodeMapped(a: Address): Bytes {
    [0, Family(a)] + Big(a.port, 2) + a.ip
  }

  function EncodeXorMapped(a: Address, txID: Bytes): Bytes
    requires |a.ip| <= 4 + |txID|
  {
    [0, Family(a)] + Big(XorPort(a.port), 2) + XorBytes(a.ip, Magic() + txID)
  }

  lemma XorBytesCancel(b: Bytes, key: Bytes)
    requires |b| <= |key|
    ensures XorBytes(XorBytes(b, key), key) == b
  {
    var r := XorBytes(XorBytes(b, key), key);
    forall i | 0 <= i < |b| ensures r[i] == b[i] { XorCancels(b[i], key[i]); }
  }

  lemma XorBytesPrefix(b: Bytes, key: Bytes, more: Bytes)
    requires |b| <= |key|
    ensures XorBytes(b, key + more) == XorBytes(b, key)
  {
  }

  /** Decoding inverts the standard's plain encoding, whatever follows it. */
  lemma MappedRoundTrip(a: Address, rest: Bytes)
    requires |a.ip| == 4 || |a.ip| == 16
    ensures ParseMapped(EncodeMapped(a) + rest) == Some(a)
  {
    var b := EncodeMapped(a) + rest;
    WordRoundTrip(b, 2, a.port);
    assert b[4..4 + |a.ip|] == a.ip;
  }

  /** XOR decoding inverts the standard's XOR encoding, for IPv4 and IPv6. */
  lemma XorMappedRoundTrip(a: Address, txID: Bytes, rest: Bytes)
    requires (|a.ip| == 4 || |a.ip| == 16) && |txID| == 12
    ensures ParseXorMapped(EncodeXorMapped(a, txID) + rest, txID) == Some(a)
  {
    var b := EncodeXorMapped(a, txID) + rest;
    var key := Magic() + txID;
    WordRoundTrip(b, 2, XorPort(a.port));
    XorCancels(a.port, MAGIC_COOKIE / 0x1_0000);
    assert b[4..4 + |a.ip|] == XorBytes(a.ip, key);
    XorBytesCancel(a.ip, key);
    if |a.ip| == 4 { XorBytesPrefix(XorBytes(a.ip, key), Magic(), txID); }
  }

  /** The encodings as sections 15.1 and 15.2 of RFC 5389 have them, number by number and bit by bit. */
  lemma EncodingsAreStandard(a: Address, txID: Bytes, i: nat, bit: nat)
    requires (|a.ip| == 4 || |a.ip| == 16) && |txID| == 12 && i < |a.ip| && bit < 16
    ensures var plain, xored := EncodeMapped(a), EncodeXorMapped(a, txID);
            |plain| == |xored| == 4 + |a.ip| && plain[0] == xored[0] == 0 &&
            plain[1] == xored[1] == (if |a.ip| == 4 then 1 else 2) &&
            Word(plain, 2) == a.port && plain[4..] == a.ip &&
            (Bit(Word(xored, 2), bit) <==> Bit(a.port, bit) != Bit(0x2112, bit)) &&
            (Bit(xored[4 + i], bit) <==> Bit(a.ip[i], bit) != Bit(([0x21, 0x12, 0xA4, 0x42] + txID)[i], bit))
  {
    var plain, xored := EncodeMapped(a), EncodeXorMapped(a, txID);
    assert plain[2..4] == Big(a.port, 2) && xored[2..4] == Big(XorPort(a.port), 2);
    WordRoundTrip(plain, 2, a.port);
    WordRoundTrip(xored, 2, XorPort(a.port));
    BitXor(a.port, 0x2112, bit);
    var key := Magic() + txID;
    assert xored[4 + i] == XorBytes(a.ip, key)[i];
    BitXor(a.ip[i], key[i], bit);
  }

  // ---------------------------------------------------------------- the attribute walk

  datatype Mapped = Mapped(plain: Option<Address>, xored: Option<Address>)

  function Noted(m: Mapped, kind: u16, data: Bytes, txID: Bytes): Mapped {
    if kind == MAPPED_ADDRESS then
      if ParseMapped(data).Some? then m.(plain := ParseMapped(data)) else m
    else if kind == XOR_MAPPED_ADDRESS then
      if ParseXorMapped(data, txID).Some? then m.(xored := ParseXorMapped(data, txID)) else m
    else m
  }

  function Padded(n: nat): nat {
    (n + 3) / 4 * 4
  }

  function Walk(buf: Bytes, pos: nat, end: nat, txID: Bytes, m: Mapped): Mapped
    requires end <= |buf|
    decreases end - pos
  {
    if pos + 4 > end then m
    else
      var kind, length := Word(buf, pos), Word(buf, pos + 2);
      if pos + 4 + length > end then m
      else Walk(buf, pos + 4 + Padded(length), end, txID, Noted(m, kind, buf[pos + 4..pos + 4 + length], txID))
  }

  function ParseResponse(buf: Bytes, txID: Bytes): Response {
    if |buf| < HEADER_SIZE then TooShort
    else if Word(buf, 0) != BINDING_RESPONSE then WrongType
    else if buf[8..20] != txID then WrongTransaction
    else
      var end := HEADER_SIZE + Word(buf, 2);
      if |buf| < end then Truncated
      else
        var m := Walk(buf, HEADER_SIZE, end, txID, Mapped(None, None));
        if m.xored.Some? then Found(m.xored.value)
        else if m.plain.Some? then Found(m.plain.value)
        else NoAddress
  }

  /** An attribute and its padding to four bytes, of whatever value. */
  datatype Attribute = Attribute(kind: u16, data: Bytes, padding: Bytes)

  ghost predicate WellFormed(a: Attribute) {
    |a.data| < 0x1_0000 && |a.padding| < 4 && (|a.data| + |a.padding|) % 4 == 0
  }

  function Encode(a: Attribute): Bytes {
    Big(a.kind, 2) + Big(|a.data|, 2) + a.data + a.padding
  }

  function EncodeAll(attrs: seq<Attribute>): Bytes {
    if attrs == [] then [] else Encode(attrs[0]) + EncodeAll(attrs[1..])
  }

  /** The last attribute of a kind that decodes. */
  function LastPlain(attrs: seq<Attribute>): Option<Address> {
    if attrs == [] then None
    else
      var a := attrs[|attrs| - 1];
      if a.kind == 0x0001 && ParseMapped(a.data).Some? then ParseMapped(a.data)
      else LastPlain(attrs[..|attrs| - 1])
  }

  function LastXored(attrs: seq<Attribute>, txID: Bytes): Option<Address> {
    if attrs == [] then None
    else
      var a := attrs[|attrs| - 1];
      if a.kind == 0x0020 && ParseXorMapped(a.data, txID).Some? then ParseXorMapped(a.data, txID)
      else LastXored(attrs[..|attrs| - 1], txID)
  }

  lemma SubSlice(buf: Bytes, pos: nat, n: nat, i: nat, j: nat)
    requires pos + n <= |buf| && i <= j <= n
    ensures buf[pos + i..pos + j] == buf[pos..pos + n][i..j]
  {
    var x, y := buf[pos + i..pos + j], buf[pos..pos + n][i..j];
    assert forall k | 0 <= k < j - i :: x[k] == buf[pos + i + k] && y[k] == buf[pos..pos + n][i + k];
  }

  lemma ReadAttribute(buf: Bytes, pos: nat, a: Attribute)
    requires WellFormed(a) && pos + |Encode(a)| <= |buf| && buf[pos..pos + |Encode(a)|] == Encode(a)
    ensures Word(buf, pos) == a.kind && Word(buf, pos + 2) == |a.data|
    ensures buf[pos + 4..pos + 4 + |a.data|] == a.data
  {
    var e := Encode(a);
    assert e[..2] == Big(a.kind, 2) && e[2..4] == Big(|a.data|, 2) && e[4..4 + |a.data|] == a.data;
    SubSlice(buf, pos, |e|, 0, 2);
    SubSlice(buf, pos, |e|, 2, 4);
    SubSlice(buf, pos, |e|, 4, 4 + |a.data|);
    WordRoundTrip(buf, pos, a.kind);
    WordRoundTrip(buf, pos + 2, |a.data|);
  }

  function Notes(attrs: seq<Attribute>, txID: Bytes): Mapped {
    Mapped(LastPlain(attrs), LastXored(attrs, txID))
  }

  lemma NoteOneMore(done: seq<Attribute>, a: Attribute, txID: Bytes)
    ensures Noted(Notes(done, txID), a.kind, a.data, txID) == Notes(done + [a], txID)
  {
    assert (done + [a])[..|done|] == done;
  }

  lemma WalkOne(buf: Bytes, pos: nat, end: nat, txID: Bytes, m: Mapped, a: Attribute)
    requires WellFormed(a) && pos + |Encode(a)| <= end <= |buf| && buf[pos..pos + |Encode(a)|] == Encode(a)
    ensures Walk(buf, pos, end, txID, m) == Walk(buf, pos + |Encode(a)|, end, txID, Noted(m, a.kind, a.data, txID))
  {
    ReadAttribute(buf, pos, a);
  }

  lemma MoveOne(done: seq<Attribute>, attrs: seq<Attribute>)
    requires attrs != []
    ensures done + [attrs[0]] + attrs[1..] == done + attrs
  {
  }

  /** From any point of a well-formed list on, the walk takes up the remaining attributes. */
  lemma {:induction false} WalkReadsList(buf: Bytes, pos: nat, end: nat, txID: Bytes,
                                           done: seq<Attribute>, attrs: seq<Attribute>)
    requires forall a | a in attrs :: WellFormed(a)
    requires pos <= end <= |buf| && buf[pos..end] == EncodeAll(attrs)
    ensures Walk(buf, pos, end, txID, Notes(done, txID)) == Notes(done + attrs, txID)
    decreases |attrs|
  {
    if attrs == [] {
      assert done + attrs == done;
    } else {
      var a, rest := attrs[0], attrs[1..];
      assert a in attrs;
      var next := pos + |Encode(a)|;
      SplitSlice(buf, pos, end, Encode(a), EncodeAll(rest));
      WalkOne(buf, pos, end, txID, Notes(done, txID), a);
      NoteOneMore(done, a, txID);
      WalkReadsList(buf, next, end, txID, done + [a], rest);
      MoveOne(done, attrs);
    }
  }

  lemma SplitSlice(buf: Bytes, pos: nat, end: nat, x: Bytes, y: Bytes)
    requires pos <= end <= |buf| && buf[pos..end] == x + y
    ensures pos + |x| <= end && buf[pos..pos + |x|] == x && buf[pos + |x|..end] == y
  {
    assert buf[pos..pos + |x|] == buf[pos..end][..|x|];
    assert buf[pos + |x|..end] == buf[pos..end][|x|..];
  }

  /** On any well-formed padded attribute list the response yields the last decodable XOR-MAPPED-ADDRESS, else the
      last decodable MAPPED-ADDRESS, else an error; cookie and bytes past the message make no difference. */
  lemma ResponseYieldsLastAddress(cookie: Bytes, txID: Bytes, attrs: seq<Attribute>, rest: Bytes)
    requires |cookie| == 4 && |txID| == 12 && |EncodeAll(attrs)| < 0x1_0000
    requires forall a | a in attrs :: WellFormed(a)
    ensures var buf := Big(0x0101, 2) + Big(|EncodeAll(attrs)|, 2) + cookie + txID + EncodeAll(attrs) + rest;
            ParseResponse(buf, txID) ==
              if LastXored(attrs, txID).Some? then Found(LastXored(attrs, txID).value)
              else if LastPlain(attrs).Some? then Found(LastPlain(attrs).value)
              else NoAddress
  {
    var body := EncodeAll(attrs);
    var buf := Big(BINDING_RESPONSE, 2) + Big(|body|, 2) + cookie + txID + body + rest;
    HeaderFields(cookie, txID, body, rest);
    WalkReadsList(buf, HEADER_SIZE, HEADER_SIZE + |body|, txID, [], attrs);
    assert [] + attrs == attrs;
  }

  /** Whatever the bytes, an address is found only in a binding response to this transaction that is long enough for
      the length it states; each refusal says which of these fails, in this order. */
  lemma FoundOnlyInResponse(buf: Bytes, txID: Bytes)
    ensures var r := ParseResponse(buf, txID);
            (r.TooShort? <==> |buf| < 20) &&
            (r.WrongType? <==> |buf| >= 20 && !(buf[0] == 1 && buf[1] == 1)) &&
            (r.WrongTransaction? <==> |buf| >= 20 && buf[0] == 1 && buf[1] == 1 && buf[8..20] != txID) &&
            (r.Found? || r.NoAddress? <==>
               |buf| >= 20 && buf[0] == 1 && buf[1] == 1 && buf[8..20] == txID && |buf| - 20 >= Word(buf, 2))
  {
    if |buf| >= 20 { WordValue(buf, 0); }
  }

  lemma HeaderFields(cookie: Bytes, txID: Bytes, body: Bytes, rest: Bytes)
    requires |cookie| == 4 && |txID| == 12 && |body| < 0x1_0000
    ensures var buf := Big(BINDING_RESPONSE, 2) + Big(|body|, 2) + cookie + txID + body + rest;
            |buf| >= HEADER_SIZE + |body| && Word(buf, 0) == BINDING_RESPONSE && Word(buf, 2) == |body| &&
            buf[8..20] == txID && buf[HEADER_SIZE..HEADER_SIZE + |body|] == body
  {
    var buf := Big(BINDING_RESPONSE, 2) + Big(|body|, 2) + cookie + txID + body + rest;
    assert buf[0..2] == Big(BINDING_RESPONSE, 2) && buf[2..4] == Big(|body|, 2);
    WordRoundTrip(buf, 0, BINDING_RESPONSE);
    WordRoundTrip(buf, 2, |body|);
  }

  // ---------------------------------------------------------------- the loops

  method XorInto(b: Bytes, at: nat, key: Bytes, n: nat) returns (r: Bytes)
    requires at + n <= |b| && n <= |key|
    ensures r == XorBytes(b[at..at + n], key)
  {
    var out := new u8[n](i => 0);
    for i := 0 to n
      invariant forall j | 0 <= j < i :: out[j] == XorByte(b[at + j], key[j])
    {
      out[i] := XorByte(b[at + i], key[i]);
    }
    r := out[..];
  }

  method DecodeXorMapped(b: Bytes, txID: Bytes) returns (r: Option<Address>)
    ensures r == ParseXorMapped(b, txID)
  {
    if |b| < 4 { return None; }
    var port := XorPort(Word(b, 2));
    if b[1] == FAMILY_IPV4 {
      if |b| < 8 { return None; }
      var ip := XorInto(b, 4, Magic(), 4);
      return Some(Address(ip, port));
    } else if b[1] == FAMILY_IPV6 {
      if |b| < 20 || |txID| < 12 { return None; }
      var ip := XorInto(b, 4, Magic() + txID, 16);
      return Some(Address(ip, port));
    }
    return None;
  }

  method ParseBindingResponse(buf: Bytes, txID: Bytes) returns (r: Response)
    ensures r == ParseResponse(buf, txID)
  {
    if |buf| < HEADER_SIZE { return TooShort; }
    if Word(buf, 0) != BINDING_RESPONSE { return WrongType; }
    if buf[8..20] != txID { return WrongTransaction; }
    var end := HEADER_SIZE + Word(buf, 2);
    if |buf| < end { return Truncated; }
    var pos := HEADER_SIZE;
    var mapped: Option<Address>, xorMapped: Option<Address> := None, None;
    while pos + 4 <= end
      invariant Walk(buf, pos, end, txID, Mapped(mapped, xorMapped)) == Walk(buf, HEADER_SIZE, end, txID, Mapped(None, None))
      decreases end - pos
    {
      var kind, length := Word(buf, pos), Word(buf, pos + 2);
      if pos + 4 + length > end { break; }
      var data := buf[pos + 4..pos + 4 + length];
      if kind == MAPPED_ADDRESS {
        var addr := ParseMapped(data);
        if addr.Some? { mapped := addr; }
      } else if kind == XOR_MAPPED_ADDRESS {
        var addr := DecodeXorMapped(data, txID);
        if addr.Some? { xorMapped := addr; }
      }
      pos := pos + 4 + Padded(length);
    }
    if xorMapped.Some? { return Found(xorMapped.value); }
    if mapped.Some? { return Found(mapped.value); }
    return NoAddress;
  }
}
