/** Packets on the wire (Common/Libs/Server/Protocol/Packet.cpp, SerDes.cpp, Command/Commands.h) and what a session's
    read loop (User/Session.cpp) makes of a byte stream. */
module Frames {
  import opened Common
  import opened Endian
  import opened Payloads

  const MAGIC_NUMBER: bv32 := 0xABCD_1234
  const VERSION: bv16 := 1
  const NUM_TYPE_ENUMS: nat := 9

  /** The kind of command that GetCommand makes for each type ID. */
  function KindOfType(typeID: nat): Kind
    requires typeID < NUM_TYPE_ENUMS
  {
    match typeID
    case 0 => MessageKind       // Common_NotifyDisconnect
    case 1 => MessageKind       // S2C_Welcome
    case 2 => SignalKind        // S2C_NotifyLobbyEntry
    case 3 => DoubleStringKind  // S2C_SendLobbyInfo
    case 4 => StringListKind    // S2C_SendLobbyUserList
    case 5 => DoubleStringKind  // S2C_SendChatMessage
    case 6 => MessageKind       // C2S_RequestLogin
    case 7 => SignalKind        // C2S_RequestLobbyInfo
    case _ => MessageKind       // C2S_SendChatMessage
  }

  datatype Command = Command(typeID: nat, payload: Payload)

  predicate GoodCommand(c: Command) {
    c.typeID < NUM_TYPE_ENUMS && KindOf(c.payload) == KindOfType(c.typeID) && GoodPayload(c.payload)
  }

  datatype Header = Header(magic: bv32, version: bv16, packetTotalLength: bv16, checksum: bv16)

  /** A command object handed to the user, with what its Init made of the body. */
  datatype Delivered = Delivered(typeID: nat, parsed: Parsed)

  /** Why the read loop stops: the bytes run out, a packet is refused and the session disconnects, or Init is
      undefined. */
  datatype Ending = EndOfInput | Refused | UndefinedBody

  // ----- writing -----

  function WordBytes(host: Host, w: bv16): (b: Bytes)
    ensures |b| == 2
  {
    Stored16(host, SwapBytes16(host, w))
  }

  /** The header as the host lays it out; the structure is padded with two bytes that nothing sets. */
  function HeaderBytes(host: Host, length: bv16, padding: Bytes): (b: Bytes)
    requires |padding| == 2
    ensures |b| == HEADER_SIZE
  {
    Stored32(host, SwapBytes32(host, MAGIC_NUMBER)) + WordBytes(host, VERSION) + WordBytes(host, length)
    + Stored16(host, CalculateChecksum()) + padding
  }

  /** The checksum is not computed: it is always zero. */
  function CalculateChecksum(): bv16 {
    0
  }

  /** Packet::Serialize, with the casts of the lengths to 16 bits. */
  function PacketBytes(host: Host, body: Bytes, padding: Bytes): Bytes
    requires |padding| == 2
  {
    var bodyLength := |body| % 0x1_0000;
    HeaderBytes(host, Cut16(HEADER_SIZE + bodyLength), padding) + body[..bodyLength]
  }

  /** SerDes::SerializeCommand. */
  function CommandBytes(host: Host, c: Command): Bytes {
    WordBytes(host, Cut16(c.typeID)) + Serialized(host, c.payload)
  }

  /** What Session::Send writes. */
  function Frame(host: Host, c: Command, padding: Bytes): Bytes
    requires |padding| == 2
  {
    PacketBytes(host, CommandBytes(host, c), padding)
  }

  // ----- reading -----

  function ReadWord(host: Host, b: Bytes): bv16
    requires |b| == 2
  {
    SwapBytes16(host, Loaded16(host, b))
  }

  function ReadMagic(host: Host, b: Bytes): bv32
    requires |b| == 4
  {
    SwapBytes32(host, Loaded32(host, b))
  }

  /** Packet::ParseHeader. */
  function ParseHeader(host: Host, b: Bytes): (r: Option<Header>)
    requires |b| == HEADER_SIZE
    ensures r.Some? ==> HEADER_SIZE <= Number16(r.value.packetTotalLength) <= MAX_PACKET_SIZE
  {
    var h := Header(
      ReadMagic(host, b[..4]), ReadWord(host, b[4..6]), ReadWord(host, b[6..8]), ReadWord(host, b[8..10]));
    NumberFits(h.packetTotalLength);
    if h.magic != MAGIC_NUMBER then None
    else if h.version != VERSION then None
    else if Number16(h.packetTotalLength) < HEADER_SIZE || Number16(h.packetTotalLength) > MAX_PACKET_SIZE then None
    else Some(h)
  }

  /** SerDes::ParsePacket: the type ID and the rest of the body. */
  function ParsePacket(host: Host, body: Bytes): (r: Option<(nat, Bytes)>)
    ensures r.Some? ==> r.value.0 < NUM_TYPE_ENUMS && |body| >= 2 && r.value.1 == body[2..]
  {
    if |body| < 2 then None
    else
      var id := Number16(ReadWord(host, body[..2]));
      if id >= NUM_TYPE_ENUMS then None else Some((id, body[2..]))
  }

  /** One packet read from the front of the stream: a command and the bytes used, or the end of the loop. */
  datatype Reading = Got(delivered: Delivered, size: nat) | Stop(ending: Ending)

  /** readPacketBody. */
  function ReadBody(host: Host, header: Header, body: Bytes): (r: Reading)
    ensures r.Got? ==> r.size == HEADER_SIZE + |body|
  {
    if CalculateChecksum() != header.checksum then Stop(Refused)
    else
      match ParsePacket(host, body)
      case None => Stop(Refused)
      case Some((id, data)) =>
        var parsed := Init(KindOfType(id), host, data);
        if parsed.Undefined? then Stop(UndefinedBody) else Got(Delivered(id, parsed), HEADER_SIZE + |body|)
  }

  /** readPacketHead and readBody on what follows the header. */
  function ReadRest(host: Host, header: Header, input: Bytes): (r: Reading)
    requires Number16(header.packetTotalLength) >= HEADER_SIZE
    ensures r.Got? ==> HEADER_SIZE <= r.size <= HEADER_SIZE + |input|
  {
    var bodySize := Number16(header.packetTotalLength) - HEADER_SIZE;
    if |input| < bodySize then Stop(EndOfInput) else ReadBody(host, header, input[..bodySize])
  }

  function ReadPacket(host: Host, input: Bytes): (r: Reading)
    ensures r.Got? ==> HEADER_SIZE <= r.size <= |input|
  {
    if |input| < HEADER_SIZE then Stop(EndOfInput)
    else
      match ParseHeader(host, input[..HEADER_SIZE])
      case None => Stop(Refused)
      case Some(header) => ReadRest(host, header, input[HEADER_SIZE..])
  }

  /** Everything delivered from a stream, why the loop stopped, and what was left where the last packet began. */
  datatype Outcome = Outcome(delivered: seq<Delivered>, ending: Ending, left: Bytes)

  function ReadStream(host: Host, input: Bytes): Outcome
    decreases |input|
  {
    match ReadPacket(host, input)
    case Stop(ending) => Outcome([], ending, input)
    case Got(d, size) =>
      var o := ReadStream(host, input[size..]);
      o.(delivered := [d] + o.delivered)
  }

  // ----- one packet -----

  /** Both 16-bit casts of Packet::Serialize keep the whole body and its length exactly when the packet is no longer
      than 65535 bytes. */
  lemma PacketIsWholeIff(host: Host, body: Bytes, padding: Bytes)
    requires |padding| == 2
    ensures
      && PacketBytes(host, body, padding)[HEADER_SIZE..] == body
      && Number16(Cut16(HEADER_SIZE + |body| % 0x1_0000)) == HEADER_SIZE + |body|
      <==> HEADER_SIZE + |body| <= MAX_PACKET_SIZE
  {
    hide HeaderBytes, Cut16, Number16;
    NumberOfCut(HEADER_SIZE + |body| % 0x1_0000);
    assert PacketBytes(host, body, padding)[HEADER_SIZE..] == body[..|body| % 0x1_0000];
  }

  /** No command's packet is cut or wraps. */
  lemma CommandFits(host: Host, c: Command, padding: Bytes)
    requires GoodCommand(c) && |padding| == 2
    ensures HEADER_SIZE + 2 <= HEADER_SIZE + |CommandBytes(host, c)| <= MAX_PACKET_SIZE
    ensures Frame(host, c, padding) ==
      HeaderBytes(host, Cut16(HEADER_SIZE + |CommandBytes(host, c)|), padding) + CommandBytes(host, c)
  {
    hide HeaderBytes, Cut16;
    BodyFits(host, c.payload);
    hide Serialized;
    var body := CommandBytes(host, c);
    assert body[..|body|] == body;
  }

  /** A packet has the same bytes whatever host writes it. */
  lemma FrameIsHostFree(h1: Host, h2: Host, c: Command, padding: Bytes)
    requires |padding| == 2
    ensures Frame(h1, c, padding) == Frame(h2, c, padding)
  {
    HostFree(h1, h2, c.payload);
    hide Serialized;
    WordHostFree(h1, h2, Cut16(c.typeID));
    var n := Cut16(HEADER_SIZE + |CommandBytes(h1, c)| % 0x1_0000);
    WordHostFree(h1, h2, n);
    WordHostFree(h1, h2, VERSION);
    WireImage32(h1, MAGIC_NUMBER);
    WireImage32(h2, MAGIC_NUMBER);
    ZeroStored(h1);
    ZeroStored(h2);
    hide WordBytes, Stored32, Stored16, SwapBytes32, Cut16;
  }

  lemma WordHostFree(h1: Host, h2: Host, w: bv16)
    ensures WordBytes(h1, w) == WordBytes(h2, w)
  {
    WireImage16(h1, w);
    WireImage16(h2, w);
  }

  lemma ZeroStored(host: Host)
    ensures Stored16(host, CalculateChecksum()) == [0, 0]
  {
  }

  lemma ZeroRead(host: Host)
    ensures ReadWord(host, [0, 0]) == CalculateChecksum()
  {
  }

  lemma WordCrosses(sender: Host, receiver: Host, w: bv16)
    ensures ReadWord(receiver, WordBytes(sender, w)) == w
  {
    Crossing16(sender, receiver, w);
  }

  lemma HeaderCrosses(sender: Host, receiver: Host, length: bv16, padding: Bytes)
    requires |padding| == 2 && HEADER_SIZE <= Number16(length)
    ensures ParseHeader(receiver, HeaderBytes(sender, length, padding))
      == Some(Header(MAGIC_NUMBER, VERSION, length, CalculateChecksum()))
  {
    hide WordBytes, ReadWord, Stored32, Loaded32, SwapBytes32, Stored16, Number16, ReadMagic;
    var b := HeaderBytes(sender, length, padding);
    assert |Stored32(sender, SwapBytes32(sender, MAGIC_NUMBER))| == 4 by { MagicBytes(sender); }
    ZeroStored(sender);
    assert b[..4] == Stored32(sender, SwapBytes32(sender, MAGIC_NUMBER));
    assert b[4..6] == WordBytes(sender, VERSION) && b[6..8] == WordBytes(sender, length) && b[8..10] == [0, 0];
    MagicCrosses(sender, receiver);
    WordCrosses(sender, receiver, VERSION);
    WordCrosses(sender, receiver, length);
    ZeroRead(receiver);
    NumberFits(length);
  }

  lemma MagicBytes(host: Host)
    ensures |Stored32(host, SwapBytes32(host, MAGIC_NUMBER))| == 4
  {
    WireImage32(host, MAGIC_NUMBER);
  }

  lemma MagicCrosses(sender: Host, receiver: Host)
    ensures |Stored32(sender, SwapBytes32(sender, MAGIC_NUMBER))| == 4
    ensures ReadMagic(receiver, Stored32(sender, SwapBytes32(sender, MAGIC_NUMBER))) == MAGIC_NUMBER
  {
    Crossing32(sender, receiver, MAGIC_NUMBER);
    MagicBytes(sender);
    hide Stored32, SwapBytes32, Loaded32;
  }

  /** What the receiver makes of a command. */
  function Decoded(c: Command): Delivered {
    Delivered(c.typeID, if Decodable(c.payload) then Accepted(Carried(c.payload)) else Failed)
  }

  lemma BodyCrosses(sender: Host, receiver: Host, c: Command, header: Header)
    requires GoodCommand(c) && header.checksum == CalculateChecksum()
    ensures ReadBody(receiver, header, CommandBytes(sender, c)) ==
      Got(Decoded(c), HEADER_SIZE + |CommandBytes(sender, c)|)
  {
    hide Cut16, Number16, WordBytes, ReadWord, Serialized, Init, Carried, Decodable;
    var body := CommandBytes(sender, c);
    assert body[..2] == WordBytes(sender, Cut16(c.typeID)) && body[2..] == Serialized(sender, c.payload);
    WordCrosses(sender, receiver, Cut16(c.typeID));
    NumberOfCut(c.typeID);
    RoundTrip(sender, receiver, c.payload);
  }

  /** The packet of any command, whatever follows it and whichever hosts write and read it, is read whole. */
  lemma FrameIsRead(sender: Host, receiver: Host, c: Command, padding: Bytes, tail: Bytes)
    requires GoodCommand(c) && |padding| == 2
    ensures ReadPacket(receiver, Frame(sender, c, padding) + tail) == Got(Decoded(c), |Frame(sender, c, padding)|)
  {
    hide HeaderBytes, ParseHeader, CommandBytes, Frame, ReadBody, Cut16, Number16, Decoded;
    CommandFits(sender, c, padding);
    var body := CommandBytes(sender, c);
    var length := Cut16(HEADER_SIZE + |body|);
    NumberOfCut(HEADER_SIZE + |body|);
    HeaderCrosses(sender, receiver, length, padding);
    var header := Header(MAGIC_NUMBER, VERSION, length, CalculateChecksum());
    BodyCrosses(sender, receiver, c, header);
    var input := Frame(sender, c, padding) + tail;
    assert input[..HEADER_SIZE] == HeaderBytes(sender, length, padding);
    assert input[HEADER_SIZE..] == body + tail && (body + tail)[..|body|] == body;
  }

  /** A packet cut short delivers nothing, and the loop waits for its end. */
  lemma CutFrameStops(sender: Host, receiver: Host, c: Command, padding: Bytes, n: nat)
    requires GoodCommand(c) && |padding| == 2 && n < |Frame(sender, c, padding)|
    ensures ReadPacket(receiver, Frame(sender, c, padding)[..n]) == Stop(EndOfInput)
  {
    hide HeaderBytes, ParseHeader, CommandBytes, Frame, ReadBody, Cut16, Number16;
    CommandFits(sender, c, padding);
    var body := CommandBytes(sender, c);
    var length := Cut16(HEADER_SIZE + |body|);
    NumberOfCut(HEADER_SIZE + |body|);
    HeaderCrosses(sender, receiver, length, padding);
    if n >= HEADER_SIZE {
      assert Frame(sender, c, padding)[..n][..HEADER_SIZE] == HeaderBytes(sender, length, padding);
    }
  }

  /** Whatever ends up accepted, signals aside, is exactly the packet that some command writes: nothing else on the
      wire gets through. */
  lemma AcceptedFrameIsGenuine(host: Host, input: Bytes)
    requires ReadPacket(host, input).Got?
    requires var d := ReadPacket(host, input).delivered; d.parsed.Accepted? && !d.parsed.payload.Signal?
    ensures var r := ReadPacket(host, input); var c := Command(r.delivered.typeID, r.delivered.parsed.payload);
      GoodCommand(c) && Decoded(c) == r.delivered && |input| >= HEADER_SIZE
      && input[..r.size] == Frame(host, c, input[10..12])
  {
    hide HeaderBytes, ParseHeader, Init, Cut16, Number16, ReadWord, Serialized, WordBytes, Carried, Decodable;
    var r := ReadPacket(host, input);
    var header := ParseHeader(host, input[..HEADER_SIZE]).value;
    var bodySize := Number16(header.packetTotalLength) - HEADER_SIZE;
    var body := input[HEADER_SIZE..][..bodySize];
    var id, data := r.delivered.typeID, body[2..];
    assert r == ReadBody(host, header, body) && Init(KindOfType(id), host, data) == r.delivered.parsed;
    InitKeepsKind(KindOfType(id), host, data);
    AcceptedIsCanonical(KindOfType(id), host, data);
    var c := Command(id, r.delivered.parsed.payload);
    WordIsCanonical(host, body[..2]);
    CutOfNumber(ReadWord(host, body[..2]));
    assert body == body[..2] + body[2..];
    assert CommandBytes(host, c) == body;
    var padding := input[10..12];
    CommandFits(host, c, padding);
    assert padding == input[..HEADER_SIZE][10..];
    HeaderIsCanonical(host, input[..HEADER_SIZE]);
    CutOfNumber(header.packetTotalLength);
    hide Frame, CommandBytes;
    assert input[..r.size] == input[..HEADER_SIZE] + body;
  }

  lemma InitKeepsKind(kind: Kind, host: Host, body: Bytes)
    requires Init(kind, host, body).Accepted?
    ensures KindOf(Init(kind, host, body).payload) == kind
    ensures kind.SignalKind? <==> Init(kind, host, body).payload.Signal?
  {
  }

  lemma WordIsCanonical(host: Host, b: Bytes)
    requires |b| == 2
    ensures WordBytes(host, ReadWord(host, b)) == b
  {
    hide SwapBytes16, Loaded16, Network16, Spelled16, Stored16;
    SwappedRead16(host, b);
    WireImage16(host, ReadWord(host, b));
    NetworkSpelled(b[0], b[1]);
    assert b == [b[0], b[1]];
  }

  lemma MagicIsCanonical(host: Host, b: Bytes)
    requires |b| == 4 && ReadMagic(host, b) == MAGIC_NUMBER
    ensures Stored32(host, SwapBytes32(host, MAGIC_NUMBER)) == b
  {
    hide SwapBytes32, Loaded32, Network32, Spelled32, Stored32;
    SwappedRead32(host, b);
    WireImage32(host, MAGIC_NUMBER);
    NetworkSpelled32(b);
  }

  lemma HeaderIsCanonical(host: Host, b: Bytes)
    requires |b| == HEADER_SIZE && ParseHeader(host, b).Some?
    requires ParseHeader(host, b).value.checksum == CalculateChecksum()
    ensures HeaderBytes(host, ParseHeader(host, b).value.packetTotalLength, b[10..]) == b
  {
    hide SwapBytes32, Loaded32, Stored32, Stored16, WordBytes, ReadWord, ReadMagic, Number16;
    MagicIsCanonical(host, b[..4]);
    WordIsCanonical(host, b[4..6]);
    WordIsCanonical(host, b[6..8]);
    WordIsCanonical(host, b[8..10]);
    ZeroWord(host);
    ZeroStored(host);
    assert b == b[..4] + b[4..6] + b[6..8] + b[8..10] + b[10..];
  }

  lemma ZeroWord(host: Host)
    ensures WordBytes(host, CalculateChecksum()) == [0, 0]
  {
  }

  // ----- streams -----

  /** A command and the padding that happens to be in its packet. */
  datatype Sent = Sent(sender: Host, command: Command, padding: Bytes)

  predicate GoodSent(s: Sent) {
    GoodCommand(s.command) && |s.padding| == 2
  }

  function Packed(s: Sent): Bytes
    requires GoodSent(s)
  {
    Frame(s.sender, s.command, s.padding)
  }

  function Wire(sent: seq<Sent>): Bytes
    requires forall i :: 0 <= i < |sent| ==> GoodSent(sent[i])
  {
    if sent == [] then [] else Packed(sent[0]) + Wire(sent[1..])
  }

  function AllDecoded(sent: seq<Sent>): (d: seq<Delivered>)
    ensures |d| == |sent|
  {
    seq(|sent|, i requires 0 <= i < |sent| => Decoded(sent[i].command))
  }

  /** How many of the packets lie whole in the first n bytes. */
  function WholeFrames(sent: seq<Sent>, n: nat): (k: nat)
    requires forall i :: 0 <= i < |sent| ==> GoodSent(sent[i])
    ensures k <= |sent|
  {
    if sent == [] || n < |Packed(sent[0])| then 0 else 1 + WholeFrames(sent[1..], n - |Packed(sent[0])|)
  }

  lemma StreamGoesOn(receiver: Host, first: Bytes, rest: Bytes, d: Delivered)
    requires ReadPacket(receiver, first + rest) == Got(d, |first|)
    ensures var o := ReadStream(receiver, rest);
      ReadStream(receiver, first + rest) == o.(delivered := [d] + o.delivered)
  {
    hide ReadPacket;
    assert (first + rest)[|first|..] == rest;
  }

  /** Packets written one after another are read back as their commands, in order, and the loop goes on with what
      follows them. */
  lemma {:induction false} WireIsRead(receiver: Host, sent: seq<Sent>, tail: Bytes)
    requires forall i :: 0 <= i < |sent| ==> GoodSent(sent[i])
    ensures var o := ReadStream(receiver, tail);
      ReadStream(receiver, Wire(sent) + tail) == o.(delivered := AllDecoded(sent) + o.delivered)
  {
    hide Frame, ReadPacket, ReadStream, Decoded;
    if sent == [] {
      assert Wire(sent) + tail == tail;
    } else {
      var s, rest := sent[0], sent[1..];
      FrameIsRead(s.sender, receiver, s.command, s.padding, Wire(rest) + tail);
      StreamGoesOn(receiver, Packed(s), Wire(rest) + tail, Decoded(s.command));
      assert Wire(sent) + tail == Packed(s) + (Wire(rest) + tail);
      WireIsRead(receiver, rest, tail);
      var o := ReadStream(receiver, tail);
      assert AllDecoded(sent) == [Decoded(s.command)] + AllDecoded(rest);
      assert AllDecoded(sent) + o.delivered == [Decoded(s.command)] + (AllDecoded(rest) + o.delivered);
    }
  }

  /** Every byte is consumed and every command recovered. */
  lemma WholeWireIsRead(receiver: Host, sent: seq<Sent>)
    requires forall i :: 0 <= i < |sent| ==> GoodSent(sent[i])
    ensures ReadStream(receiver, Wire(sent)) == Outcome(AllDecoded(sent), EndOfInput, [])
  {
    WireIsRead(receiver, sent, []);
    assert Wire(sent) + [] == Wire(sent);
    assert AllDecoded(sent) + [] == AllDecoded(sent);
    hide ReadPacket;
    Nothing(receiver);
  }

  lemma Nothing(receiver: Host)
    ensures ReadPacket(receiver, []) == Stop(EndOfInput)
  {
  }

  /** When the stream breaks off anywhere, exactly the packets that arrived whole are delivered. */
  lemma {:induction false} BrokenWireIsRead(receiver: Host, sent: seq<Sent>, n: nat)
    requires forall i :: 0 <= i < |sent| ==> GoodSent(sent[i])
    requires n <= |Wire(sent)|
    ensures var o := ReadStream(receiver, Wire(sent)[..n]);
      o.delivered == AllDecoded(sent)[..WholeFrames(sent, n)] && o.ending == EndOfInput
  {
    hide Frame, ReadPacket, Decoded;
    if sent == [] {
      Nothing(receiver);
      assert Wire(sent)[..n] == [];
    } else {
      var s, rest := sent[0], sent[1..];
      var first := Packed(s);
      if n < |first| {
        CutFrameStops(s.sender, receiver, s.command, s.padding, n);
        assert Wire(sent)[..n] == first[..n];
      } else {
        var tail := Wire(rest)[..n - |first|];
        FrameIsRead(s.sender, receiver, s.command, s.padding, tail);
        assert Wire(sent)[..n] == first + tail;
        assert (first + tail)[|first|..] == tail;
        BrokenWireIsRead(receiver, rest, n - |first|);
        var k := WholeFrames(rest, n - |first|);
        assert AllDecoded(sent) == [Decoded(s.command)] + AllDecoded(rest);
        assert AllDecoded(sent)[..k + 1] == [Decoded(s.command)] + AllDecoded(rest)[..k];
      }
    }
  }
}
