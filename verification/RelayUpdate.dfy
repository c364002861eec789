/** A relay update on its way from a relay through the gateway to the relay backend. */
module RelayUpdate {
  import opened Common
  import opened LittleEndian

  const MAC_BYTES: nat := 16
  const NONCE_BYTES: nat := 24
  const PACKET_VERSION: byte := 1
  const HEADER_BYTES: nat := 8
  const MIN_UPDATE_BYTES: nat := 1 + 1 + 4 + 2 + MAC_BYTES + NONCE_BYTES

  // ----- addresses -----

  datatype Address = NoAddress | V4(ip: seq<byte>, port: nat) | V6(ip: seq<byte>, port: nat)

  predicate ValidAddress(a: Address) {
    match a
    case NoAddress => true
    case V4(ip, port) => |ip| == 4 && port < 0x1_0000
    case V6(ip, port) => |ip| == 16 && port < 0x1_0000
  }

  function EncodeAddress(a: Address): seq<byte> {
    match a
    case NoAddress => [0]
    case V4(ip, port) => [1] + ip + Encode(2, port)
    case V6(ip, port) => [2] + ip + Encode(2, port)
  }

  datatype AddressRead = BadAddress | ReadAs(address: Address, next: nat)

  function ReadAddress(data: seq<byte>, index: nat): (read: AddressRead)
    ensures read.ReadAs? ==> index < read.next <= index + 19 && read.next <= |data|
  {
    if index + 1 > |data| then BadAddress
    else if data[index] == 0 then ReadAs(NoAddress, index + 1)
    else if data[index] == 1 then
      if index + 7 > |data| then BadAddress
      else ReadAs(V4(data[index + 1..index + 5], Decode(data[index + 5..index + 7])), index + 7)
    else if data[index] == 2 then
      if index + 19 > |data| then BadAddress
      else ReadAs(V6(data[index + 1..index + 17], Decode(data[index + 17..index + 19])), index + 19)
    else BadAddress
  }

  lemma PortReadsBack(port: nat)
    requires port < 0x1_0000
    ensures Decode(Encode(2, port)) == port
  {
    assert Bound(1) == 256 && Bound(2) == 0x1_0000;
    EncodeThenDecode(2, port);
  }

  lemma Middle(before: seq<byte>, part: seq<byte>, after: seq<byte>)
    ensures (before + part + after)[|before|..|before| + |part|] == part
  {
  }

  /** An address field of a tag, an ip and a port sits in the data where it was put. */
  lemma FieldsInPlace(prefix: seq<byte>, tag: byte, ip: seq<byte>, port: nat, suffix: seq<byte>)
    requires port < 0x1_0000
    ensures var data, i := prefix + ([tag] + ip + Encode(2, port)) + suffix, |prefix|;
      && data[i] == tag
      && data[i + 1..i + 1 + |ip|] == ip
      && Decode(data[i + 1 + |ip|..i + 3 + |ip|]) == port
  {
    var data := prefix + ([tag] + ip + Encode(2, port)) + suffix;
    Middle(prefix + [tag], ip, Encode(2, port) + suffix);
    assert data == (prefix + [tag]) + ip + (Encode(2, port) + suffix);
    Middle(prefix + [tag] + ip, Encode(2, port), suffix);
    assert data == (prefix + [tag] + ip) + Encode(2, port) + suffix;
    PortReadsBack(port);
  }

  lemma AddressReadsBack(prefix: seq<byte>, a: Address, suffix: seq<byte>)
    requires ValidAddress(a)
    ensures ReadAddress(prefix + EncodeAddress(a) + suffix, |prefix|) == ReadAs(a, |prefix| + |EncodeAddress(a)|)
  {
    match a
    case NoAddress =>
    case V4(ip, port) => FieldsInPlace(prefix, 1, ip, port, suffix);
    case V6(ip, port) => FieldsInPlace(prefix, 2, ip, port, suffix);
  }

  // ----- the packet -----

  /** A relay update before encryption; `rest` is everything after the timestamp. */
  datatype Packet = Packet(address: Address, timestamp: nat, rest: seq<byte>)

  function Header(p: Packet): seq<byte> {
    [PACKET_VERSION] + EncodeAddress(p.address)
  }

  function Plain(p: Packet): seq<byte> {
    Header(p) + Encode(8, p.timestamp) + p.rest
  }

  lemma PacketParts(tag: seq<byte>, ip: seq<byte>, port: seq<byte>, time: seq<byte>, rest: seq<byte>)
    requires |tag| == 1
    ensures var data := [1] + (tag + ip + port) + time + rest;
      && data[0] == 1 && data[1] == tag[0]
      && Holds(data, 2, ip) && Holds(data, 2 + |ip|, port) && Holds(data, 2 + |ip| + |port|, time)
      && data[2 + |ip| + |port| + |time|..] == rest
  {
  }

  /** An update, byte by byte: the version, the kind of address, the ip, the port and the timestamp lowest
      byte first, and the rest. */
  lemma PlainBytes(p: Packet)
    requires ValidAddress(p.address)
    ensures var data := Plain(p);
      && |data| >= 10 && data[0] == 1
      && match p.address
         case NoAddress => data[1] == 0 && Digits(data, 2, 8, p.timestamp) && data[10..] == p.rest
         case V4(ip, port) =>
           && data[1] == 1 && Holds(data, 2, ip) && Digits(data, 6, 2, port) && Digits(data, 8, 8, p.timestamp)
           && data[16..] == p.rest
         case V6(ip, port) =>
           && data[1] == 2 && Holds(data, 2, ip) && Digits(data, 18, 2, port) && Digits(data, 20, 8, p.timestamp)
           && data[28..] == p.rest
  {
    match p.address
    case NoAddress =>
      EmptyAddressBytes(p);
    case V4(ip, port) =>
      AddressedBytes(p, 1, ip, port);
    case V6(ip, port) =>
      AddressedBytes(p, 2, ip, port);
  }

  lemma EmptyAddressBytes(p: Packet)
    requires p.address.NoAddress?
    ensures var data := Plain(p);
      |data| >= 10 && data[0] == 1 && data[1] == 0 && Digits(data, 2, 8, p.timestamp) && data[10..] == p.rest
  {
    var time := Encode(8, p.timestamp);
    PacketParts([0], [], [], time, p.rest);
    assert Plain(p) == [1] + ([0] + [] + []) + time + p.rest;
    EncodeIsWord(8, p.timestamp);
    HeldWord(Plain(p), 2, time, 8, p.timestamp);
  }

  lemma AddressedBytes(p: Packet, tag: byte, ip: seq<byte>, port: nat)
    requires EncodeAddress(p.address) == [tag] + ip + Encode(2, port)
    ensures var data, n := Plain(p), |ip|;
      && |data| >= 12 + n && data[0] == 1 && data[1] == tag && Holds(data, 2, ip)
      && Digits(data, 2 + n, 2, port) && Digits(data, 4 + n, 8, p.timestamp)
      && data[12 + n..] == p.rest
  {
    var word, time := Encode(2, port), Encode(8, p.timestamp);
    PacketParts([tag], ip, word, time, p.rest);
    assert Plain(p) == [1] + ([tag] + ip + word) + time + p.rest;
    EncodeIsWord(2, port);
    HeldWord(Plain(p), 2 + |ip|, word, 2, port);
    EncodeIsWord(8, p.timestamp);
    HeldWord(Plain(p), 4 + |ip|, time, 8, p.timestamp);
  }

  // ----- authenticated encryption -----

  /** The box shared by one relay and the gateway, by nonce and text. */
  datatype Box = Box(seal: (seq<byte>, seq<byte>) -> seq<byte>, open: (seq<byte>, seq<byte>) -> Option<seq<byte>>)

  ghost predicate Sound(box: Box) {
    && (forall nonce, text ::
          |box.seal(nonce, text)| == |text| + MAC_BYTES && box.open(nonce, box.seal(nonce, text)) == Some(text))
    && (forall nonce, sealed ::
          box.open(nonce, sealed).Some? ==> |sealed| == |box.open(nonce, sealed).value| + MAC_BYTES)
  }

  /** What the relay posts: the first eight bytes in the clear, the others sealed, then the nonce. */
  function Frame(plain: seq<byte>, nonce: seq<byte>, box: Box): seq<byte>
    requires |plain| >= HEADER_BYTES
  {
    plain[..HEADER_BYTES] + box.seal(nonce, plain[HEADER_BYTES..]) + nonce
  }

  /** A frame is forty bytes longer than its packet: eight bytes in the clear, sixteen for the seal of the
      others, and the nonce at the end. */
  lemma FrameBytes(plain: seq<byte>, nonce: seq<byte>, box: Box)
    requires Sound(box) && |plain| >= 8 && |nonce| == 24
    ensures var frame := Frame(plain, nonce, box);
      && |frame| == |plain| + 40
      && frame[..8] == plain[..8]
      && frame[8..|plain| + 16] == box.seal(nonce, plain[8..])
      && frame[|plain| + 16..] == nonce
  {
  }

  /** The relay's framing, in the buffer the packet was written to. */
  method FrameUpdate(buffer: array<byte>, packetBytes: nat, nonce: seq<byte>, box: Box) returns (frameBytes: nat)
    requires Sound(box) && |nonce| == NONCE_BYTES
    requires HEADER_BYTES < packetBytes && packetBytes + MAC_BYTES + NONCE_BYTES <= buffer.Length
    modifies buffer
    ensures frameBytes == packetBytes + MAC_BYTES + NONCE_BYTES
    ensures buffer[..frameBytes] == Frame(old(buffer[..packetBytes]), nonce, box)
  {
    var sealed := box.seal(nonce, buffer[HEADER_BYTES..packetBytes]);
    assert buffer[..packetBytes][HEADER_BYTES..] == buffer[HEADER_BYTES..packetBytes];
    var encryptedBytes := |sealed|;
    CopyInto(buffer, HEADER_BYTES, sealed);
    CopyInto(buffer, HEADER_BYTES + encryptedBytes, nonce);
    frameBytes := HEADER_BYTES + encryptedBytes + NONCE_BYTES;
  }

  method CopyInto(buffer: array<byte>, start: nat, bytes: seq<byte>)
    requires start + |bytes| <= buffer.Length
    modifies buffer
    ensures buffer[..start + |bytes|] == old(buffer[..start]) + bytes
    ensures buffer[start + |bytes|..] == old(buffer[start + |bytes|..])
  {
    for i := 0 to |bytes|
      invariant forall k :: 0 <= k < i ==> buffer[start + k] == bytes[k]
      invariant forall k :: 0 <= k < buffer.Length && !(start <= k < start + i) ==> buffer[k] == old(buffer[k])
    {
      buffer[start + i] := bytes[i];
    }
  }

  // ----- the gateway -----

  function Sub64(a: nat, b: nat): nat
    requires b <= U64
  {
    (a + U64 - b) % U64
  }

  /** The window check, in unsigned 64-bit arithmetic. */
  predicate InWindow(timestamp: nat, now: nat) {
    !(timestamp < Sub64(now, 10)) && !(timestamp > (now + 10) % U64)
  }

  /** A relay the gateway knows: its box, and whether the two keys it needs are there. */
  datatype Known = Known(box: Box, hasPublicKey: bool, hasSecretKey: bool)

  predicate HasKeys(known: Known) {
    known.hasPublicKey && known.hasSecretKey
  }

  datatype Outcome = Refused | Forwarded(bytes: seq<byte>)

  /** `bytes` with eight bytes from `index` on replaced. */
  function Overwrite(bytes: seq<byte>, index: nat, word: seq<byte>): seq<byte>
    requires index + |word| <= |bytes|
  {
    bytes[..index] + word + bytes[index + |word|..]
  }

  ghost predicate SoundRegistry(registry: Address -> Option<Known>) {
    forall a :: registry(a).Some? ==> Sound(registry(a).value.box)
  }

  function Gateway(body: seq<byte>, now: nat, registry: Address -> Option<Known>): Outcome
    requires SoundRegistry(registry)
  {
    if |body| < MIN_UPDATE_BYTES || body[0] != PACKET_VERSION then Refused
    else
      match ReadAddress(body, 1)
      case BadAddress => Refused
      case ReadAs(address, index) =>
        match registry(address)
        case None => Refused
        case Some(relay) =>
          if !relay.hasPublicKey then Refused
          else
            match relay.box.open(body[|body| - NONCE_BYTES..], body[index..|body| - NONCE_BYTES])
            case None => Refused
            case Some(text) => Deliver(body, index, text, now, relay.hasSecretKey)
  }

  /** After decryption: the text overwrites the start of the sealed part, the timestamp is checked
      and replaced by the gateway's own, and the room of MAC and nonce is cut off the end. */
  function Deliver(body: seq<byte>, index: nat, text: seq<byte>, now: nat, hasSecretKey: bool): Outcome
    requires index + |text| + MAC_BYTES + NONCE_BYTES == |body|
  {
    var clear := Overwrite(body, index, text);
    if !InWindow(Decode(clear[index..index + 8]), now) || !hasSecretKey then Refused
    else Forwarded(Overwrite(clear, index, Encode(8, now))[..|body| - (MAC_BYTES + NONCE_BYTES)])
  }

  /** What the gateway never forwards, and how much it takes off. */
  lemma ForwardedIsShorter(body: seq<byte>, now: nat, registry: Address -> Option<Known>)
    requires SoundRegistry(registry)
    ensures |body| < 48 || body[0] != 1 ==> Gateway(body, now, registry) == Refused
    ensures Gateway(body, now, registry).Forwarded? ==> |Gateway(body, now, registry).bytes| == |body| - 40
  {
  }

  /** The handler as it runs, on one buffer that it decrypts and patches in place. */
  method HandleRelayUpdate(body: array<byte>, now: nat, registry: Address -> Option<Known>) returns (outcome: Outcome)
    requires SoundRegistry(registry)
    modifies body
    ensures outcome == Gateway(old(body[..]), now, registry)
  {
    var packetBytes := body.Length;
    if packetBytes < 1 + 1 + 4 + 2 + MAC_BYTES + NONCE_BYTES {
      return Refused;
    }
    if body[0] != PACKET_VERSION {
      return Refused;
    }
    var read := ReadAddress(body[..], 1);
    if read.BadAddress? {
      return Refused;
    }
    var index := read.next;
    var relay := registry(read.address);
    if relay.None? || !relay.value.hasPublicKey {
      return Refused;
    }
    var known := relay.value;
    var nonce := body[packetBytes - NONCE_BYTES..];
    assert body[..][packetBytes - NONCE_BYTES..] == nonce;
    assert body[..][index..packetBytes - NONCE_BYTES] == body[index..packetBytes - NONCE_BYTES];
    var text := known.box.open(nonce, body[index..packetBytes - NONCE_BYTES]);
    assert text.None? || text.Some?;
    if text.None? {
      return Refused;
    }
    outcome := DeliverInPlace(body, index, text.value, now, known.hasSecretKey);
  }

  method DeliverInPlace(body: array<byte>, index: nat, text: seq<byte>, now: nat, hasSecretKey: bool)
      returns (outcome: Outcome)
    requires index + |text| + MAC_BYTES + NONCE_BYTES == body.Length
    modifies body
    ensures outcome == Deliver(old(body[..]), index, text, now, hasSecretKey)
  {
    ghost var bytes := body[..];
    CopyInto(body, index, text);
    ghost var clear := Overwrite(bytes, index, text);
    assert body[..] == body[..index + |text|] + body[index + |text|..];
    assert body[..] == clear;
    var packetTimestamp := Decode(body[index..index + 8]);
    assert body[index..index + 8] == clear[index..index + 8];
    if !InWindow(packetTimestamp, now) || !hasSecretKey {
      return Refused;
    }
    Write(body, index, 8, now);
    assert body[..] == Overwrite(clear, index, Encode(8, now));
    outcome := Forwarded(body[..body.Length - (MAC_BYTES + NONCE_BYTES)]);
    assert body[..][..body.Length - (MAC_BYTES + NONCE_BYTES)] == outcome.bytes;
  }

  /** The window is ten seconds either way, and empty within ten seconds of the ends of the 64-bit
      clock. */
  lemma WindowIsTenSeconds(timestamp: nat, now: nat)
    requires timestamp < U64 && now < U64
    ensures InWindow(timestamp, now) <==> 10 <= now < U64 - 10 && now - 10 <= timestamp <= now + 10
  {
  }

  // ----- end to end -----

  /** The tag of the address is in the clear, so the gateway looks for the end of the header where it
      is, and it finds the relay's address exactly when the whole header is in the clear. */
  lemma FrameIsReadBack(p: Packet, nonce: seq<byte>, box: Box)
    requires Sound(box) && ValidAddress(p.address) && |nonce| == NONCE_BYTES && |Plain(p)| >= HEADER_BYTES
    ensures var body, h := Frame(Plain(p), nonce, box), |Header(p)|;
      && |body| == |Plain(p)| + MAC_BYTES + NONCE_BYTES
      && body[0] == PACKET_VERSION
      && body[|body| - NONCE_BYTES..] == nonce
      && ReadAddress(body, 1).ReadAs? && ReadAddress(body, 1).next == h
      && (ReadAddress(body, 1).address == p.address <==> body[..h] == Header(p))
  {
    var plain, body, h := Plain(p), Frame(Plain(p), nonce, box), |Header(p)|;
    assert plain[0] == PACKET_VERSION && plain[1] == EncodeAddress(p.address)[0];
    assert body[0] == plain[0] && body[1] == plain[1];
    if body[..h] == Header(p) {
      AddressReadsBack([PACKET_VERSION], p.address, body[h..]);
      assert body == body[..h] + body[h..];
      assert body == [PACKET_VERSION] + EncodeAddress(p.address) + body[h..];
    }
    if ReadAddress(body, 1).address == p.address {
      AddressBytes(body, p.address);
      assert body[..h] == [body[0]] + body[1..h];
    }
  }

  /** The bytes an address was read from are its encoding. */
  lemma AddressBytes(data: seq<byte>, a: Address)
    requires ReadAddress(data, 1).ReadAs? && ReadAddress(data, 1).address == a
    ensures data[1..ReadAddress(data, 1).next] == EncodeAddress(a)
  {
    match a
    case NoAddress =>
    case V4(ip, port) =>
      DecodeThenEncode(data[6..8]);
      assert data[1..8] == [data[1]] + data[2..6] + data[6..8];
    case V6(ip, port) =>
      DecodeThenEncode(data[18..20]);
      assert data[1..20] == [data[1]] + data[2..18] + data[18..20];
  }

  /** What the gateway opens when it has found the header. */
  function Opened(p: Packet, nonce: seq<byte>, box: Box, known: Known): Option<seq<byte>>
    requires ValidAddress(p.address) && |nonce| == NONCE_BYTES && |Plain(p)| >= HEADER_BYTES && Sound(box)
  {
    var body := Frame(Plain(p), nonce, box);
    known.box.open(nonce, body[|Header(p)|..|body| - NONCE_BYTES])
  }

  /** The relay is known with both keys, the whole header is in the clear, and what comes after it
      opens to a timestamp in the window and the rest of the packet. */
  ghost predicate Survives(p: Packet, nonce: seq<byte>, box: Box, now: nat, registry: Address -> Option<Known>)
    requires ValidAddress(p.address) && |nonce| == NONCE_BYTES && |Plain(p)| >= HEADER_BYTES && Sound(box)
  {
    && registry(p.address).Some? && HasKeys(registry(p.address).value)
    && Frame(Plain(p), nonce, box)[..|Header(p)|] == Header(p)
    && var text := Opened(p, nonce, box, registry(p.address).value);
    && text.Some? && |text.value| >= 8
    && InWindow(Decode(text.value[..8]), now)
    && text.value[8..] == p.rest
  }

  /** Delivering keeps the header, puts the gateway's time after it, and keeps the text after that. */
  lemma DeliverKeeps(body: seq<byte>, index: nat, text: seq<byte>, now: nat, hasSecretKey: bool)
    requires index + |text| + MAC_BYTES + NONCE_BYTES == |body| && |text| >= 8
    ensures Deliver(body, index, text, now, hasSecretKey) ==
      if InWindow(Decode(text[..8]), now) && hasSecretKey then Forwarded(body[..index] + Encode(8, now) + text[8..])
      else Refused
  {
    var clear := Overwrite(body, index, text);
    assert clear[index..index + 8] == text[..8];
    var n := |body| - (MAC_BYTES + NONCE_BYTES);
    assert Overwrite(clear, index, Encode(8, now))[..n] == body[..index] + Encode(8, now) + text[8..];
  }

  lemma SplitsAt(h: nat, a: seq<byte>, b: seq<byte>, time: seq<byte>, x: seq<byte>, y: seq<byte>)
    requires |a| == |b| == h
    ensures a + time + x == b + time + y <==> a == b && x == y
  {
    assert (a + time + x)[..h] == a && (b + time + y)[..h] == b;
    assert (a + time + x)[h + |time|..] == x && (b + time + y)[h + |time|..] == y;
  }

  /** What the gateway makes of a frame, by the relay it takes it for. */
  lemma GatewayOfFrame(p: Packet, nonce: seq<byte>, box: Box, now: nat, registry: Address -> Option<Known>)
    requires Sound(box) && SoundRegistry(registry) && ValidAddress(p.address) && |nonce| == NONCE_BYTES
    requires |Plain(p)| >= HEADER_BYTES
    ensures var body, h := Frame(Plain(p), nonce, box), |Header(p)|; var read := ReadAddress(body, 1);
      && |body| == |Plain(p)| + MAC_BYTES + NONCE_BYTES
      && read.ReadAs?
      && Gateway(body, now, registry) ==
         match registry(read.address)
         case None => Refused
         case Some(known) =>
           var text := Opened(p, nonce, box, known);
           if HasKeys(known) && text.Some? && |text.value| >= 8 && InWindow(Decode(text.value[..8]), now)
           then Forwarded(body[..h] + Encode(8, now) + text.value[8..])
           else Refused
  {
    var body, h := Frame(Plain(p), nonce, box), |Header(p)|;
    FrameIsReadBack(p, nonce, box);
    var relay := registry(ReadAddress(body, 1).address);
    if relay.Some? && relay.value.hasPublicKey {
      var text := Opened(p, nonce, box, relay.value);
      if text.Some? {
        assert |text.value| + MAC_BYTES == |body| - NONCE_BYTES - h;
        assert |text.value| >= 8;
        DeliverKeeps(body, h, text.value, now, relay.value.hasSecretKey);
      }
    }
  }

  /** For every update of every relay, whatever its address: the gateway forwards the plaintext packet
      with only its timestamp replaced if and only if the update survives. */
  lemma ForwardedExactly(p: Packet, nonce: seq<byte>, box: Box, now: nat, registry: Address -> Option<Known>)
    requires Sound(box) && SoundRegistry(registry) && ValidAddress(p.address) && |nonce| == NONCE_BYTES
    requires |Plain(p)| >= HEADER_BYTES
    ensures Gateway(Frame(Plain(p), nonce, box), now, registry) == Forwarded(Plain(p.(timestamp := now)))
       <==> Survives(p, nonce, box, now, registry)
  {
    var body, h := Frame(Plain(p), nonce, box), |Header(p)|;
    FrameIsReadBack(p, nonce, box);
    GatewayOfFrame(p, nonce, box, now, registry);
    var relay := registry(ReadAddress(body, 1).address);
    if relay.Some? {
      var text := Opened(p, nonce, box, relay.value);
      if text.Some? && |text.value| >= 8 {
        SplitsAt(h, body[..h], Header(p), Encode(8, now), text.value[8..], p.rest);
      }
    }
  }

  /** An IPv4 frame is the header, the sealed text and the nonce. */
  lemma IPv4Frame(p: Packet, nonce: seq<byte>, box: Box)
    requires Sound(box) && ValidAddress(p.address) && p.address.V4? && |nonce| == NONCE_BYTES
    ensures |Header(p)| == HEADER_BYTES && |Plain(p)| >= HEADER_BYTES
    ensures Frame(Plain(p), nonce, box) == Header(p) + box.seal(nonce, Encode(8, p.timestamp) + p.rest) + nonce
  {
    var plain, text := Plain(p), Encode(8, p.timestamp) + p.rest;
    assert plain == Header(p) + text;
    assert plain[..HEADER_BYTES] == Header(p) && plain[HEADER_BYTES..] == text;
  }

  lemma IPv4Text(p: Packet, nonce: seq<byte>, box: Box, known: Known)
    requires Sound(box) && known.box == box && ValidAddress(p.address) && p.address.V4? && |nonce| == NONCE_BYTES
    requires |Plain(p)| >= HEADER_BYTES
    ensures Opened(p, nonce, box, known) == Some(Encode(8, p.timestamp) + p.rest)
  {
    IPv4Frame(p, nonce, box);
    var body, sealed := Frame(Plain(p), nonce, box), box.seal(nonce, Encode(8, p.timestamp) + p.rest);
    assert body[HEADER_BYTES..|body| - NONCE_BYTES] == sealed;
  }

  lemma IPv4Address(p: Packet, nonce: seq<byte>, box: Box)
    requires Sound(box) && ValidAddress(p.address) && p.address.V4? && |nonce| == NONCE_BYTES
    requires |Plain(p)| >= HEADER_BYTES
    ensures Frame(Plain(p), nonce, box)[..|Header(p)|] == Header(p)
    ensures ReadAddress(Frame(Plain(p), nonce, box), 1).ReadAs?
    ensures ReadAddress(Frame(Plain(p), nonce, box), 1).address == p.address
  {
    IPv4Frame(p, nonce, box);
    FrameIsReadBack(p, nonce, box);
  }

  lemma TextParts(timestamp: nat, rest: seq<byte>)
    requires timestamp < U64
    ensures Decode((Encode(8, timestamp) + rest)[..8]) == timestamp && (Encode(8, timestamp) + rest)[8..] == rest
  {
    WordBounds();
    EncodeThenDecode(8, timestamp);
    assert (Encode(8, timestamp) + rest)[..8] == Encode(8, timestamp);
  }

  /** An IPv4 header is exactly what the relay leaves in the clear, so an update survives exactly when
      the relay's clock is in the window. */
  lemma IPv4Survives(p: Packet, nonce: seq<byte>, now: nat, registry: Address -> Option<Known>)
    requires SoundRegistry(registry) && ValidAddress(p.address) && p.address.V4? && |nonce| == NONCE_BYTES
    requires p.timestamp < U64
    requires registry(p.address).Some? && HasKeys(registry(p.address).value)
    ensures Survives(p, nonce, registry(p.address).value.box, now, registry) <==> InWindow(p.timestamp, now)
  {
    var box := registry(p.address).value.box;
    IPv4Frame(p, nonce, box);
    IPv4Text(p, nonce, box, registry(p.address).value);
    IPv4Address(p, nonce, box);
    TextParts(p.timestamp, p.rest);
  }

  /** For every update a relay with an IPv4 address posts, the gateway forwards the plaintext packet
      with only its timestamp replaced if the relay's clock is in the window, and refuses it if not. */
  lemma ForwardedIsRetimed(p: Packet, nonce: seq<byte>, now: nat, registry: Address -> Option<Known>)
    requires SoundRegistry(registry) && ValidAddress(p.address) && p.address.V4? && |nonce| == NONCE_BYTES
    requires p.timestamp < U64
    requires registry(p.address).Some? && HasKeys(registry(p.address).value)
    ensures Gateway(Frame(Plain(p), nonce, registry(p.address).value.box), now, registry) ==
            if InWindow(p.timestamp, now) then Forwarded(Plain(p.(timestamp := now))) else Refused
  {
    var box := registry(p.address).value.box;
    IPv4Survives(p, nonce, now, registry);
    ForwardedExactly(p, nonce, box, now, registry);
    if !InWindow(p.timestamp, now) {
      GatewayOfFrame(p, nonce, box, now, registry);
      IPv4Text(p, nonce, box, registry(p.address).value);
      IPv4Address(p, nonce, box);
      TextParts(p.timestamp, p.rest);
    }
  }

  const HIDDEN_BYTES: nat := 12

  /** The relay seals from the eighth byte on, so twelve bytes of an IPv6 header are sealed. The update
      is forwarded as it should be if and only if the first twelve bytes of the sealed part happen to
      be the bytes they hide, and what comes after them opens to a timestamp in the window and the
      rest of the packet. */
  lemma IPv6ForwardedExactly(p: Packet, nonce: seq<byte>, box: Box, now: nat, registry: Address -> Option<Known>)
    requires Sound(box) && SoundRegistry(registry) && ValidAddress(p.address) && p.address.V6? && |nonce| == NONCE_BYTES
    requires registry(p.address).Some? && HasKeys(registry(p.address).value)
    ensures var sealed := box.seal(nonce, Plain(p)[HEADER_BYTES..]);
      var text := registry(p.address).value.box.open(nonce, sealed[HIDDEN_BYTES..]);
      Gateway(Frame(Plain(p), nonce, box), now, registry) == Forwarded(Plain(p.(timestamp := now)))
      <==> && sealed[..HIDDEN_BYTES] == Plain(p)[HEADER_BYTES..HEADER_BYTES + HIDDEN_BYTES]
           && text.Some? && |text.value| >= 8 && InWindow(Decode(text.value[..8]), now) && text.value[8..] == p.rest
  {
    ForwardedExactly(p, nonce, box, now, registry);
    var plain := Plain(p);
    var sealed := box.seal(nonce, plain[HEADER_BYTES..]);
    var body, h := Frame(plain, nonce, box), HEADER_BYTES + HIDDEN_BYTES;
    assert |Header(p)| == h && plain[..h] == Header(p);
    assert body[h..|body| - NONCE_BYTES] == sealed[HIDDEN_BYTES..];
    assert body[..h] == plain[..HEADER_BYTES] + sealed[..HIDDEN_BYTES];
    assert Header(p) == plain[..HEADER_BYTES] + plain[HEADER_BYTES..h];
    assert body[..h][HEADER_BYTES..] == sealed[..HIDDEN_BYTES];
    assert Header(p)[HEADER_BYTES..] == plain[HEADER_BYTES..h];
  }

  /** A box whose MAC is one byte sixteen times over. */
  function Stamp(m: byte): seq<byte> {
    seq(MAC_BYTES, _ => m)
  }

  function StampBox(m: byte): Box {
    Box((nonce: seq<byte>, text: seq<byte>) => Stamp(m) + text,
        (nonce: seq<byte>, sealed: seq<byte>) =>
          if |sealed| >= MAC_BYTES && sealed[..MAC_BYTES] == Stamp(m) then Some(sealed[MAC_BYTES..]) else None)
  }

  lemma StampBoxIsSound(m: byte)
    ensures Sound(StampBox(m))
  {
    forall nonce, text ensures StampBox(m).open(nonce, StampBox(m).seal(nonce, text)) == Some(text) {
      assert (Stamp(m) + text)[..MAC_BYTES] == Stamp(m);
      assert (Stamp(m) + text)[MAC_BYTES..] == text;
    }
  }

  /** Every IPv6 relay is hit: for each of its packets and each nonce there is a sound box with which
      the update does not get through, although the relay is known with both keys. */
  lemma IPv6UpdateCanFail(p: Packet, nonce: seq<byte>, now: nat) returns (registry: Address -> Option<Known>)
    requires p.address.V6? && ValidAddress(p.address) && |nonce| == NONCE_BYTES
    ensures SoundRegistry(registry)
    ensures registry(p.address).Some? && HasKeys(registry(p.address).value)
    ensures Gateway(Frame(Plain(p), nonce, registry(p.address).value.box), now, registry) !=
      Forwarded(Plain(p.(timestamp := now)))
  {
    var m: byte := if Plain(p)[HEADER_BYTES] == 0 then 1 else 0;
    StampBoxIsSound(m);
    registry := StampRegistry(m);
    StampShows(m, nonce, Plain(p));
    IPv6ForwardedExactly(p, nonce, StampBox(m), now, registry);
  }

  function StampRegistry(m: byte): Address -> Option<Known> {
    (a: Address) => Some(Known(StampBox(m), true, true))
  }

  lemma StampShows(m: byte, nonce: seq<byte>, plain: seq<byte>)
    requires |plain| >= HEADER_BYTES + HIDDEN_BYTES && plain[HEADER_BYTES] != m
    ensures |StampBox(m).seal(nonce, plain[HEADER_BYTES..])| >= HIDDEN_BYTES
    ensures StampBox(m).seal(nonce, plain[HEADER_BYTES..])[..HIDDEN_BYTES] !=
      plain[HEADER_BYTES..HEADER_BYTES + HIDDEN_BYTES]
  {
    var sealed := StampBox(m).seal(nonce, plain[HEADER_BYTES..]);
    assert sealed[..HIDDEN_BYTES][0] == m;
    assert plain[HEADER_BYTES..HEADER_BYTES + HIDDEN_BYTES][0] == plain[HEADER_BYTES];
  }

  // ----- the relay backend -----

  /** The alarm that an update took too long from gateway to backend. */
  predicate Overloaded(timestamp: nat, now: nat) {
    timestamp < Sub64(now, 5)
  }

  /** The timestamp the backend reads from a forwarded update. */
  function BackendTimestamp(bytes: seq<byte>): Option<nat> {
    if |bytes| < 64 || bytes[0] != PACKET_VERSION then None
    else
      match ReadAddress(bytes, 1)
      case BadAddress => None
      case ReadAs(_, index) => Read(bytes, index, 8)
  }

  lemma ShortIsNotRead(bytes: seq<byte>)
    ensures |bytes| < 64 || bytes[0] != 1 ==> BackendTimestamp(bytes) == None
  {
  }

  /** An address is read from its own bytes only. */
  lemma ReadAddressLocal(data: seq<byte>, other: seq<byte>)
    requires ReadAddress(data, 1).ReadAs? && ReadAddress(data, 1).next <= |other|
    requires data[..ReadAddress(data, 1).next] == other[..ReadAddress(data, 1).next]
    ensures ReadAddress(other, 1) == ReadAddress(data, 1)
  {
    var h := ReadAddress(data, 1).next;
    assert data[1] == data[..h][1] && other[1] == other[..h][1];
    if data[1] == 1 {
      assert data[2..6] == data[..h][2..6] && other[2..6] == other[..h][2..6];
      assert data[6..8] == data[..h][6..8] && other[6..8] == other[..h][6..8];
    } else if data[1] == 2 {
      assert data[2..18] == data[..h][2..18] && other[2..18] == other[..h][2..18];
      assert data[18..20] == data[..h][18..20] && other[18..20] == other[..h][18..20];
    }
  }

  /** Whatever was posted: what the gateway forwards carries the gateway's own time where the backend
      looks for it. */
  lemma ForwardedIsStamped(body: seq<byte>, now: nat, registry: Address -> Option<Known>)
    requires SoundRegistry(registry) && now < U64
    requires Gateway(body, now, registry).Forwarded? && |Gateway(body, now, registry).bytes| >= 64
    ensures BackendTimestamp(Gateway(body, now, registry).bytes) == Some(now)
  {
    WordBounds();
    var bytes, h := Gateway(body, now, registry).bytes, ReadAddress(body, 1).next;
    var relay := registry(ReadAddress(body, 1).address).value;
    var text := relay.box.open(body[|body| - NONCE_BYTES..], body[h..|body| - NONCE_BYTES]).value;
    DeliverKeeps(body, h, text, now, relay.hasSecretKey);
    assert bytes == body[..h] + Encode(8, now) + text[8..];
    assert bytes[..h] == body[..h] && bytes[0] == bytes[..h][0];
    ReadAddressLocal(body, bytes);
    ReadAfterPrefix(body[..h], 8, now, text[8..]);
  }

  /** More than five seconds; in the first five seconds of the 64-bit clock the subtraction wraps. */
  predicate Delayed(gatewayNow: nat, backendNow: nat) {
    if backendNow >= 5 then backendNow - gatewayNow > 5 else gatewayNow - backendNow < U64 - 5
  }

  lemma AlarmMeasuresDelay(gatewayNow: nat, backendNow: nat)
    requires gatewayNow < U64 && backendNow < U64
    ensures Overloaded(gatewayNow, backendNow) <==> Delayed(gatewayNow, backendNow)
  {
  }

  /** The alarm measures the delay from gateway to backend only: for whatever relay posted the update
      and whatever its clock said, it is raised exactly when that delay is too long. */
  lemma AlarmIgnoresRelayClock(body: seq<byte>, gatewayNow: nat, backendNow: nat, registry: Address -> Option<Known>)
    requires SoundRegistry(registry) && gatewayNow < U64 && backendNow < U64
    requires Gateway(body, gatewayNow, registry).Forwarded? && |Gateway(body, gatewayNow, registry).bytes| >= 64
    ensures var timestamp := BackendTimestamp(Gateway(body, gatewayNow, registry).bytes);
      timestamp.Some? && (Overloaded(timestamp.value, backendNow) <==> Delayed(gatewayNow, backendNow))
  {
    AlarmMeasuresDelay(gatewayNow, backendNow);
    ForwardedIsStamped(body, gatewayNow, registry);
  }
}
