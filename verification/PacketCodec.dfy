/** Packets on the wire (code/packet.c, code/packet.h). */
module PacketCodec {
  import opened Common
  import opened ChunkLayout
  import opened HexCodec

  const MAGIC_NUM: bv16 := 15441
  const VER_NUM: byte := 1
  const MAX_HASH_IN_PACKET: nat := (1500 - 16 - 4) / BIN_HASH_SIZE

  const WHOHAS: byte := 0
  const IHAVE: byte := 1
  const GET: byte := 2
  const DATA: byte := 3
  const ACK: byte := 4
  const DENIED: byte := 5

  /** The fields of `Packet`; `hashes` is the used part of `hash_list` and `data` that of `data`. */
  datatype Packet = Packet(
    kind: byte,
    headerLen: bv16,
    packetLen: bv16,
    seqNum: bv32,
    ackNum: bv32,
    hashNum: byte,
    hashes: seq<seq<byte>>,
    data: seq<byte>)

  predicate HasHashes(kind: byte) { kind == WHOHAS || kind == IHAVE || kind == GET || kind == DENIED }

  // ----- Numbers in network byte order -----

  function Bytes16(x: bv16): (s: seq<byte>)
    ensures |s| == 2
  {
    [((x >> 8) & 0xff) as byte, (x & 0xff) as byte]
  }

  function Read16(s: seq<byte>): bv16
    requires |s| == 2
  {
    ((s[0] as bv16) << 8) | (s[1] as bv16)
  }

  function Read32(s: seq<byte>): bv32
    requires |s| == 4
  {
    ((s[0] as bv32) << 24) | ((s[1] as bv32) << 16) | ((s[2] as bv32) << 8) | (s[3] as bv32)
  }

  lemma ReadBytes16(x: bv16)
    ensures Read16(Bytes16(x)) == x
  {
  }

  lemma ReadBytes32(x: bv32)
    ensures Read32(WordBytes(x)) == x
  {
  }

  // ----- Encoding -----

  function Header(p: Packet): (s: seq<byte>)
    ensures |s| == 16
  {
    Bytes16(MAGIC_NUM) + [VER_NUM] + [p.kind] + Bytes16(p.headerLen) + Bytes16(p.packetLen) +
    WordBytes(p.seqNum) + WordBytes(p.ackNum)
  }

  function Payload(p: Packet): seq<byte> {
    if HasHashes(p.kind) then [p.hashNum, 0, 0, 0] + Flatten(p.hashes)
    else if p.kind == ACK then []
    else p.data
  }

  /** A packet as its sender fills it in; DATA may announce a two-byte header extension. */
  ghost predicate WellFormed(p: Packet) {
    if p.kind == WHOHAS || p.kind == IHAVE || p.kind == GET then
      && p.headerLen == 16 && p.data == []
      && p.hashNum as nat == |p.hashes| <= MAX_HASH_IN_PACKET
      && (forall i :: 0 <= i < |p.hashes| ==> |p.hashes[i]| == BIN_HASH_SIZE)
      && p.packetLen as nat == 20 + BIN_HASH_SIZE * |p.hashes|
    else if p.kind == ACK then
      p.headerLen == 16 && p.packetLen == 16 && p.hashNum == 0 && p.hashes == [] && p.data == []
    else
      && p.kind == DATA
      && (p.headerLen == 16 || p.headerLen == 18) && p.hashNum == 0 && p.hashes == []
      && |p.data| <= DATA_SIZE && p.packetLen as nat == p.headerLen as nat + |p.data|
  }

  // ----- The bytes as numbers -----

  /** The two bytes are the number in base 256, the first one counting for 256. */
  predicate Spells16(s: seq<byte>, x: bv16) {
    |s| == 2 && x == (s[0] as bv16) * 256 + s[1] as bv16
  }

  predicate Spells32(s: seq<byte>, x: bv32) {
    |s| == 4 && x == (s[0] as bv32) * 0x100_0000 + (s[1] as bv32) * 0x1_0000 + (s[2] as bv32) * 256 + s[3] as bv32
  }

  lemma Bytes16Spell(x: bv16)
    ensures Spells16(Bytes16(x), x)
  {
  }

  lemma WordBytesSpell(x: bv32)
    ensures Spells32(WordBytes(x), x)
  {
  }

  lemma Read16Spells(s: seq<byte>)
    requires |s| == 2
    ensures Spells16(s, Read16(s))
  {
  }

  lemma Read32Spells(s: seq<byte>)
    requires |s| == 4
    ensures Spells32(s, Read32(s))
  {
  }

  /** The header in network byte order: magic number 0x3c51, version, type, and the four numbers with
      their most significant bytes first. */
  lemma HeaderBytes(p: Packet)
    ensures Header(p)[..4] == [0x3c, 0x51, 1, p.kind]
    ensures Spells16(Header(p)[4..6], p.headerLen) && Spells16(Header(p)[6..8], p.packetLen)
    ensures Spells32(Header(p)[8..12], p.seqNum) && Spells32(Header(p)[12..16], p.ackNum)
  {
    Bytes16Spell(p.headerLen);
    Bytes16Spell(p.packetLen);
    WordBytesSpell(p.seqNum);
    WordBytesSpell(p.ackNum);
    assert [] + Header(p) + [] == Header(p);
    HeaderLayout(p, [], []);
  }

  /** Where the i-th hash stands behind the four bytes that count them. */
  lemma {:induction false} HashAt(hashes: seq<seq<byte>>, i: nat)
    requires i < |hashes| && forall j :: 0 <= j < |hashes| ==> |hashes[j]| == BIN_HASH_SIZE
    ensures |Flatten(hashes)| == BIN_HASH_SIZE * |hashes|
    ensures Flatten(hashes)[BIN_HASH_SIZE * i..BIN_HASH_SIZE * (i + 1)] == hashes[i]
  {
    var rest := Flatten(hashes[1..]);
    HashesOfFlatten(hashes, []);
    if i > 0 {
      HashAt(hashes[1..], i - 1);
      SliceOfPart(hashes[0] + rest, BIN_HASH_SIZE, BIN_HASH_SIZE * i, BIN_HASH_SIZE * (i + 1));
      assert (hashes[0] + rest)[BIN_HASH_SIZE..] == rest;
    }
  }

  /** The payload of WHOHAS, IHAVE and GET: the count, three zeros, and the hashes one after another. */
  lemma PayloadBytes(p: Packet, i: nat)
    requires WellFormed(p) && HasHashes(p.kind) && i < |p.hashes|
    ensures |Payload(p)| == 4 + 20 * |p.hashes| && Payload(p)[0] as nat == |p.hashes|
    ensures Payload(p)[1..4] == [0, 0, 0] && Payload(p)[4 + 20 * i..24 + 20 * i] == p.hashes[i]
  {
    HashAt(p.hashes, i);
    SliceOfPart(Payload(p), 4, 4 + 20 * i, 24 + 20 * i);
    assert Payload(p)[4..] == Flatten(p.hashes);
  }

  // ----- Decoding -----

  function Hashes(s: seq<byte>, count: nat): seq<seq<byte>>
    requires BIN_HASH_SIZE * count <= |s|
  {
    if count == 0 then [] else [s[..BIN_HASH_SIZE]] + Hashes(s[BIN_HASH_SIZE..], count - 1)
  }

  /** Where the magic number is found: at the front, or behind a two-byte extension. */
  function MagicAt(buf: seq<byte>): Option<nat>
    requires 4 <= |buf|
  {
    if Read16(buf[0..2]) == MAGIC_NUM then Some(0)
    else if Read16(buf[2..4]) == MAGIC_NUM then Some(2)
    else None
  }

  /** The header that stands at `at`, with nothing of the payload filled in. */
  function HeaderAt(buf: seq<byte>, at: nat): Packet
    requires at + 16 <= |buf|
  {
    Packet(buf[at + 3], Read16(buf[at + 4..at + 6]), Read16(buf[at + 6..at + 8]),
           Read32(buf[at + 8..at + 12]), Read32(buf[at + 12..at + 16]), 0, [], [])
  }

  /** The payload that the header announces lies inside `rest`. */
  predicate Fits(p: Packet, rest: seq<byte>) {
    if HasHashes(p.kind) then 4 <= |rest| && 4 + BIN_HASH_SIZE * (rest[0] as nat) <= |rest|
    else p.kind == ACK || p.headerLen as nat <= p.packetLen as nat <= p.headerLen as nat + |rest|
  }

  /** `deserialize_payload`. */
  function WithPayload(p: Packet, rest: seq<byte>): Packet
    requires Fits(p, rest)
  {
    if HasHashes(p.kind) then p.(hashNum := rest[0], hashes := Hashes(rest[4..], rest[0] as nat))
    else if p.kind == ACK then p
    else p.(data := rest[..p.packetLen as nat - p.headerLen as nat])
  }

  /** What is behind the announced header; nothing if that is behind the buffer. */
  function Behind(buf: seq<byte>, headerLen: nat): seq<byte> {
    if headerLen <= |buf| then buf[headerLen..] else []
  }

  /** A packet with the right magic number and version must announce lengths inside the buffer; all
      others are refused before their lengths are looked at. */
  predicate Decodable(buf: seq<byte>) {
    && 18 <= |buf|
    && (MagicAt(buf).Some? && buf[MagicAt(buf).value + 2] == VER_NUM ==>
          var p := HeaderAt(buf, MagicAt(buf).value);
          Fits(p, Behind(buf, p.headerLen as nat)))
  }

  function Decode(buf: seq<byte>): Option<Packet>
    requires Decodable(buf)
  {
    match MagicAt(buf)
    case None => None
    case Some(at) =>
      if buf[at + 2] != VER_NUM then None
      else
        var p := HeaderAt(buf, at);
        Some(WithPayload(p, Behind(buf, p.headerLen as nat)))
  }

  // ----- Reading back the parts -----

  lemma {:induction false} HashesOfFlatten(hashes: seq<seq<byte>>, rest: seq<byte>)
    requires forall i :: 0 <= i < |hashes| ==> |hashes[i]| == BIN_HASH_SIZE
    ensures |Flatten(hashes)| == BIN_HASH_SIZE * |hashes|
    ensures Hashes(Flatten(hashes) + rest, |hashes|) == hashes
  {
    if hashes != [] {
      HashesOfFlatten(hashes[1..], rest);
      var s := Flatten(hashes) + rest;
      assert s == hashes[0] + (Flatten(hashes[1..]) + rest);
      assert s[..BIN_HASH_SIZE] == hashes[0] && s[BIN_HASH_SIZE..] == Flatten(hashes[1..]) + rest;
    }
  }

  /** The packet without its payload. */
  function Bare(p: Packet): Packet { p.(hashNum := 0, hashes := [], data := []) }

  lemma ReadHashes(p: Packet, after: seq<byte>)
    requires WellFormed(p) && HasHashes(p.kind)
    ensures var rest := [p.hashNum, 0, 0, 0] + Flatten(p.hashes) + after;
            Fits(Bare(p), rest) && WithPayload(Bare(p), rest) == p
  {
    var rest := [p.hashNum, 0, 0, 0] + Flatten(p.hashes) + after;
    HashesOfFlatten(p.hashes, after);
    assert rest[4..] == Flatten(p.hashes) + after;
  }

  /** The payload of a well-formed packet can be read back, whatever follows it. */
  lemma ReadPayload(p: Packet, after: seq<byte>)
    requires WellFormed(p)
    ensures Fits(Bare(p), Payload(p) + after) && WithPayload(Bare(p), Payload(p) + after) == p
  {
    if HasHashes(p.kind) {
      ReadHashes(p, after);
    } else if p.kind == DATA {
      assert (p.data + after)[..|p.data|] == p.data;
    }
  }

  /** Read two bytes at the place where they were put. */
  lemma Read16At(buf: seq<byte>, i: nat, x: bv16)
    requires i + 2 <= |buf| && buf[i..i + 2] == Bytes16(x)
    ensures Read16(buf[i..i + 2]) == x
  {
    ReadBytes16(x);
  }

  lemma Read32At(buf: seq<byte>, i: nat, x: bv32)
    requires i + 4 <= |buf| && buf[i..i + 4] == WordBytes(x)
    ensures Read32(buf[i..i + 4]) == x
  {
    ReadBytes32(x);
  }

  /** Where the parts of a header stand. */
  lemma HeaderLayout(p: Packet, before: seq<byte>, after: seq<byte>)
    ensures var buf, at := before + Header(p) + after, |before|;
            && buf[at..at + 2] == Bytes16(MAGIC_NUM) && buf[at + 2] == VER_NUM && buf[at + 3] == p.kind
            && buf[at + 4..at + 6] == Bytes16(p.headerLen) && buf[at + 6..at + 8] == Bytes16(p.packetLen)
            && buf[at + 8..at + 12] == WordBytes(p.seqNum) && buf[at + 12..at + 16] == WordBytes(p.ackNum)
  {
  }

  /** The fields of a header can be read back wherever the header stands. */
  lemma ReadHeader(p: Packet, before: seq<byte>, after: seq<byte>)
    ensures var buf, at := before + Header(p) + after, |before|;
            Read16(buf[at..at + 2]) == MAGIC_NUM && buf[at + 2] == VER_NUM && HeaderAt(buf, at) == Bare(p)
  {
    var buf, at := before + Header(p) + after, |before|;
    HeaderLayout(p, before, after);
    Read16At(buf, at, MAGIC_NUM);
    Read16At(buf, at + 4, p.headerLen);
    Read16At(buf, at + 6, p.packetLen);
    Read32At(buf, at + 8, p.seqNum);
    Read32At(buf, at + 12, p.ackNum);
  }

  // ----- Round trips -----

  /** What `serialize_packet` makes of a packet: the payload stands right behind the 16 bytes of the
      header even if the header announces an extension. */
  function Image(p: Packet): seq<byte>
    requires 16 <= p.headerLen
  {
    Header(p) + (Payload(p) + Zeros(p.headerLen as nat - 16))
  }

  /** Decoding a header found at `at`, and what is behind the length it announces. */
  lemma DecodeFrom(p: Packet, before: seq<byte>, after: seq<byte>, rest: seq<byte>)
    requires var buf := before + Header(p) + after;
             18 <= |buf| && MagicAt(buf) == Some(|before|) && Behind(buf, p.headerLen as nat) == rest
    requires Fits(Bare(p), rest)
    ensures var buf := before + Header(p) + after;
            Decodable(buf) && Decode(buf) == Some(WithPayload(Bare(p), rest))
  {
    ReadHeader(p, before, after);
  }

  lemma SkipHeader(before: seq<byte>, header: seq<byte>, rest: seq<byte>)
    ensures Behind(before + header + rest, |before| + |header|) == rest
  {
  }

  /** The magic number of a header at the front is found there. */
  lemma MagicInFront(p: Packet, after: seq<byte>)
    requires 4 <= |Header(p) + after|
    ensures [] + Header(p) + after == Header(p) + after && MagicAt(Header(p) + after) == Some(0)
  {
    assert [] + Header(p) + after == Header(p) + after;
    ReadHeader(p, [], after);
  }

  lemma PlainRoundTrip(p: Packet, after: seq<byte>)
    requires WellFormed(p) && p.headerLen == 16 && 18 <= |Image(p) + after|
    ensures Decodable(Image(p) + after) && Decode(Image(p) + after) == Some(p)
  {
    var rest := Payload(p) + after;
    assert Zeros(0) == [];
    assert Payload(p) + Zeros(0) == Payload(p);
    assert Image(p) + after == Header(p) + rest;
    MagicInFront(p, rest);
    SkipHeader([], Header(p), rest);
    ReadPayload(p, after);
    DecodeFrom(p, [], rest, rest);
  }

  lemma ShiftedParts(header: seq<byte>, data: seq<byte>, after: seq<byte>)
    requires |header| == 16
    ensures var tail := data + Zeros(2) + after;
            && header + (data + Zeros(2)) + after == header + tail
            && Behind(header + tail, 18) == tail[2..]
            && tail[2..][..|data|] == (data + Zeros(2))[2..]
  {
    var tail := data + Zeros(2) + after;
    assert header + (data + Zeros(2)) + after == header + tail;
    assert (header + tail)[18..] == tail[2..];
    assert tail[2..] == (data + Zeros(2))[2..] + after;
  }

  lemma ReadData(p: Packet, rest: seq<byte>)
    requires WellFormed(p) && p.kind == DATA && |p.data| <= |rest|
    ensures Fits(Bare(p), rest) && WithPayload(Bare(p), rest) == p.(data := rest[..|p.data|])
  {
  }

  /** DATA that announces an extension is read two bytes too late. */
  lemma ShiftedRoundTrip(p: Packet, after: seq<byte>)
    requires WellFormed(p) && p.headerLen == 18
    ensures Decodable(Image(p) + after)
    ensures Decode(Image(p) + after) == Some(p.(data := (p.data + Zeros(2))[2..]))
  {
    var tail := p.data + Zeros(2) + after;
    ShiftedParts(Header(p), p.data, after);
    MagicInFront(p, tail);
    ReadData(p, tail[2..]);
    DecodeFrom(p, [], tail, tail[2..]);
  }

  /** A payload that is its own shift by two, with zeros behind, is all zeros. */
  lemma {:induction false} OwnShift(data: seq<byte>, i: nat)
    requires data == (data + Zeros(2))[2..] && i < |data|
    ensures data[i] == 0
    decreases |data| - i
  {
    assert data[i] == (data + Zeros(2))[i + 2];
    if i + 2 < |data| {
      OwnShift(data, i + 2);
    }
  }

  lemma ZerosShift(data: seq<byte>)
    ensures data == (data + Zeros(2))[2..] <==> forall i :: 0 <= i < |data| ==> data[i] == 0
  {
    if data == (data + Zeros(2))[2..] {
      forall i | 0 <= i < |data| ensures data[i] == 0 { OwnShift(data, i); }
    }
  }

  /** The serialization of a well-formed packet, with anything behind it in the receive buffer, is
      decoded to the same fields and payload if and only if the packet announces no extension or all
      its data are zero. */
  lemma RoundTrip(p: Packet, after: seq<byte>)
    requires WellFormed(p) && 18 <= |Image(p) + after|
    ensures Decodable(Image(p) + after)
    ensures Decode(Image(p) + after) == Some(p) <==> p.headerLen == 16 || forall i :: 0 <= i < |p.data| ==> p.data[i] == 0
  {
    if p.headerLen == 16 {
      PlainRoundTrip(p, after);
    } else {
      ShiftedRoundTrip(p, after);
      ZerosShift(p.data);
    }
  }

  lemma BehindExtension(p: Packet, extension: seq<byte>, after: seq<byte>)
    requires WellFormed(p) && p.headerLen == 18 && |extension| == 2 && Read16(extension) != MAGIC_NUM
    ensures Decodable(extension + Header(p) + (Payload(p) + after))
    ensures Decode(extension + Header(p) + (Payload(p) + after)) == Some(p)
  {
    var rest := Payload(p) + after;
    var buf := extension + Header(p) + rest;
    ReadHeader(p, extension, rest);
    assert buf[0..2] == extension;
    SkipHeader(extension, Header(p), rest);
    ReadPayload(p, after);
    DecodeFrom(p, extension, rest, rest);
  }

  /** An extension that is the magic number is taken for the front of the header, whose next byte,
      the first of the real magic number, is not the version. */
  lemma BehindMagic(p: Packet, extension: seq<byte>, after: seq<byte>)
    requires |extension| == 2 && Read16(extension) == MAGIC_NUM
    ensures Decodable(extension + Header(p) + after)
    ensures Decode(extension + Header(p) + after) == None
  {
    var buf := extension + Header(p) + after;
    assert buf[0..2] == extension;
    assert buf[2] == Header(p)[0] == 0x3c;
  }

  /** A DATA packet that announces a two-byte extension is read back behind an extension if and only
      if the extension is not the magic number; behind that one it is refused. */
  lemma ExtensionRoundTrip(p: Packet, extension: seq<byte>, after: seq<byte>)
    requires WellFormed(p) && p.headerLen == 18 && |extension| == 2
    ensures var buf := extension + Header(p) + (Payload(p) + after);
            && Decodable(buf)
            && (Decode(buf) == Some(p) <==> Read16(extension) != MAGIC_NUM)
            && (Decode(buf) == None <==> Read16(extension) == MAGIC_NUM)
  {
    if Read16(extension) == MAGIC_NUM {
      BehindMagic(p, extension, Payload(p) + after);
    } else {
      BehindExtension(p, extension, after);
    }
  }

  // ----- The loops -----

  /** `memcpy` into the packet under construction. */
  method Put(packet: array<byte>, location: nat, bytes: seq<byte>) returns (next: nat)
    requires location + |bytes| <= packet.Length
    modifies packet
    ensures next == location + |bytes|
    ensures packet[..next] == old(packet[..location]) + bytes
    ensures packet[next..] == old(packet[next..])
    ensures forall i :: next <= i < packet.Length ==> packet[i] == old(packet[i])
  {
    forall i | 0 <= i < |bytes| {
      packet[location + i] := bytes[i];
    }
    next := location + |bytes|;
  }

  lemma FlattenStep(hashes: seq<seq<byte>>, i: nat)
    requires i < |hashes|
    ensures Flatten(hashes[i..]) == hashes[i] + Flatten(hashes[i + 1..])
  {
    assert hashes[i..][0] == hashes[i] && hashes[i..][1..] == hashes[i + 1..];
  }

  /** The hash-copy loop of `serialize_payload`. */
  method PutHashes(packet: array<byte>, location: nat, hashes: seq<seq<byte>>) returns (next: nat)
    requires location + |Flatten(hashes)| <= packet.Length
    modifies packet
    ensures next == location + |Flatten(hashes)|
    ensures packet[..next] == old(packet[..location]) + Flatten(hashes)
    ensures packet[next..] == old(packet[next..])
  {
    next := location;
    ghost var end := location + |Flatten(hashes)|;
    assert hashes[0..] == hashes;
    for i := 0 to |hashes|
      invariant location <= next && next + |Flatten(hashes[i..])| == end
      invariant packet[..next] + Flatten(hashes[i..]) == old(packet[..location]) + Flatten(hashes)
      invariant packet[end..] == old(packet[end..])
    {
      FlattenStep(hashes, i);
      ghost var before := packet[..];
      next := Put(packet, next, hashes[i]);
      assert packet[end..] == packet[next..][end - next..] == before[next..][end - next..];
    }
  }

  /** `serialize_payload`. */
  method SerializePayload(p: Packet, packet: array<byte>, location: nat) returns (next: nat)
    requires p.hashNum as nat == |p.hashes|
    requires location + |Payload(p)| <= packet.Length
    modifies packet
    ensures next == location + |Payload(p)|
    ensures packet[..next] == old(packet[..location]) + Payload(p)
    ensures packet[next..] == old(packet[next..])
  {
    if HasHashes(p.kind) {
      next := Put(packet, location, [p.hashNum, 0, 0, 0]);
      next := PutHashes(packet, next, p.hashes);
    } else if p.kind == ACK {
      next := location;
    } else {
      next := Put(packet, location, p.data);
    }
  }

  /** The header section of `serialize_packet`. */
  method PutHeader(p: Packet, packet: array<byte>) returns (next: nat)
    requires 16 <= packet.Length
    modifies packet
    ensures next == 16 && packet[..16] == Header(p) && packet[16..] == old(packet[16..])
  {
    next := Put(packet, 0, Bytes16(MAGIC_NUM));
    next := Put(packet, next, [VER_NUM]);
    next := Put(packet, next, [p.kind]);
    next := Put(packet, next, Bytes16(p.headerLen));
    next := Put(packet, next, Bytes16(p.packetLen));
    next := Put(packet, next, WordBytes(p.seqNum));
    next := Put(packet, next, WordBytes(p.ackNum));
  }

  /** Header and payload, into a zeroed buffer that may have k bytes to spare. */
  method Fill(p: Packet, length: nat, ghost k: nat) returns (packet: array<byte>)
    requires length == 16 + |Payload(p)| + k
    requires p.hashNum as nat == |p.hashes|
    ensures fresh(packet) && packet.Length == length
    ensures packet[..] == Header(p) + (Payload(p) + Zeros(k))
  {
    packet := new byte[length](_ => 0);
    var next := PutHeader(p, packet);
    ghost var tail := packet[16..];
    assert tail == Zeros(length - 16);
    next := SerializePayload(p, packet, next);
    assert packet[next..] == tail[|Payload(p)|..] == Zeros(k);
    assert packet[..] == packet[..next] + packet[next..];
  }

  /** `serialize_packet`: a zeroed buffer of `packet_len` bytes, filled from the front. */
  method Serialize(p: Packet) returns (packet: array<byte>)
    requires WellFormed(p)
    ensures fresh(packet) && packet.Length == p.packetLen as nat
    ensures packet[..] == Image(p)
  {
    PayloadLength(p);
    packet := Fill(p, p.packetLen as nat, p.headerLen as nat - 16);
  }

  /** The hash-copy loop of `deserialize_payload`. */
  method TakeHashes(buf: seq<byte>, count: nat) returns (hashes: seq<seq<byte>>)
    requires BIN_HASH_SIZE * count <= |buf|
    ensures hashes == Hashes(buf, count)
  {
    hashes := [];
    var rest := buf;
    for i := 0 to count
      invariant BIN_HASH_SIZE * (count - i) <= |rest|
      invariant hashes + Hashes(rest, count - i) == Hashes(buf, count)
    {
      hashes := hashes + [rest[..BIN_HASH_SIZE]];
      rest := rest[BIN_HASH_SIZE..];
    }
  }

  /** `deserialize_packet`, with `deserialize_payload`. */
  method Deserialize(buf: seq<byte>) returns (p: Option<Packet>)
    requires Decodable(buf)
    ensures p == Decode(buf)
  {
    var at := 0;
    if Read16(buf[0..2]) != MAGIC_NUM {
      at := 2;
      if Read16(buf[2..4]) != MAGIC_NUM {
        return None;
      }
    }
    if buf[at + 2] != VER_NUM {
      return None;
    }
    var q := Packet(buf[at + 3], Read16(buf[at + 4..at + 6]), Read16(buf[at + 6..at + 8]),
                    Read32(buf[at + 8..at + 12]), Read32(buf[at + 12..at + 16]), 0, [], []);
    q := DeserializePayload(q, Behind(buf, q.headerLen as nat));
    return Some(q);
  }

  method DeserializePayload(p: Packet, rest: seq<byte>) returns (q: Packet)
    requires Fits(p, rest)
    ensures q == WithPayload(p, rest)
  {
    q := p;
    if HasHashes(p.kind) {
      var hashes := TakeHashes(rest[4..], rest[0] as nat);
      q := p.(hashNum := rest[0], hashes := hashes);
    } else if p.kind != ACK {
      q := p.(data := rest[..p.packetLen as nat - p.headerLen as nat]);
    }
  }

  lemma PayloadLength(p: Packet)
    requires WellFormed(p)
    ensures p.hashNum as nat == |p.hashes|
    ensures 16 + |Payload(p)| + (p.headerLen as nat - 16) == p.packetLen as nat
  {
    HashesOfFlatten(p.hashes, []);
  }
}
