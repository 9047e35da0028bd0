/** The bytes on the wire, position by position (Common/Libs/Server/Protocol/Packet.h, Packet.cpp, SerDes.cpp,
    Command/ICommand.h, ACommandStandard*.cpp). */
module WireImages {
  import opened Common
  import opened Endian
  import opened Payloads
  import opened Frames

  /** Two bytes that spell a number, the higher one first. */
  predicate Spells(b: Bytes, n: nat) {
    |b| == 2 && b[0] as nat * 256 + b[1] as nat == n
  }

  lemma ByteDigits(b: bv8)
    ensures b as nat == ((b >> 4) as bv4) as nat * 16 + ((b & 0xF) as bv4) as nat
  {
  }

  lemma SpelledDigits(hi: bv8, lo: bv8)
    ensures Digits(Spelled16([hi, lo])) == ((hi >> 4) as bv4, (hi & 0xF) as bv4, (lo >> 4) as bv4, (lo & 0xF) as bv4)
  {
  }

  lemma NumberOfBytes(b: Bytes)
    requires |b| == 2
    ensures Spells(b, Number16(Spelled16(b)))
  {
    hide Digits, Spelled16;
    assert b == [b[0], b[1]];
    SpelledDigits(b[0], b[1]);
    ByteDigits(b[0]);
    ByteDigits(b[1]);
  }

  /** A word in network order spells its number. */
  lemma NetworkSpells(n: nat)
    requires n < 0x1_0000
    ensures Spells(Network16(Cut16(n)), n)
  {
    hide Cut16, Spelled16, Number16, Network16;
    NumberOfBytes(Network16(Cut16(n)));
    SpelledNetwork16(Cut16(n));
    NumberOfCut(n);
  }

  lemma WordOnWire(host: Host, n: nat)
    requires n < 0x1_0000
    ensures Spells(WordBytes(host, Cut16(n)), n)
  {
    hide Cut16, Network16, Stored16, SwapBytes16, Spells;
    WireImage16(host, Cut16(n));
    NetworkSpells(n);
  }

  lemma FixedBytes(host: Host)
    ensures Stored32(host, SwapBytes32(host, MAGIC_NUMBER)) == [0xAB, 0xCD, 0x12, 0x34]
    ensures WordBytes(host, VERSION) == [0x00, 0x01] && Stored16(host, CalculateChecksum()) == [0x00, 0x00]
  {
    WireImage32(host, MAGIC_NUMBER);
    WireImage16(host, VERSION);
    ZeroStored(host);
  }

  /** A packet: the magic number, version 1, the length of the whole packet, a zero checksum, the two padding bytes, the
      type ID, and the body of the payload. */
  lemma FrameImage(host: Host, c: Command, padding: Bytes)
    requires GoodCommand(c) && |padding| == 2
    ensures var f, body := Frame(host, c, padding), Serialized(host, c.payload);
      && |f| == 14 + |body| <= 65535
      && f[..6] == [0xAB, 0xCD, 0x12, 0x34, 0x00, 0x01]
      && Spells(f[6..8], |f|)
      && f[8..10] == [0x00, 0x00] && f[10..12] == padding
      && Spells(f[12..14], c.typeID)
      && f[14..] == body
  {
    hide WordBytes, Stored32, SwapBytes32, Stored16, Cut16, Serialized, Spells, Frame;
    var body := CommandBytes(host, c);
    CommandFits(host, c, padding);
    FixedBytes(host);
    WordOnWire(host, HEADER_SIZE + |body|);
    WordOnWire(host, c.typeID);
    var f := Frame(host, c, padding);
    assert f[6..8] == WordBytes(host, Cut16(HEADER_SIZE + |body|));
    assert f[12..14] == WordBytes(host, Cut16(c.typeID));
  }

  /** The packet of a request for the lobby's information. */
  lemma SignalPacket(host: Host, padding: Bytes)
    requires |padding| == 2
    ensures Frame(host, Command(7, Signal), padding) ==
      [0xAB, 0xCD, 0x12, 0x34, 0x00, 0x01, 0x00, 0x0E, 0x00, 0x00] + padding + [0x00, 0x07]
  {
    hide Frame, Serialized, Spells;
    var f := Frame(host, Command(7, Signal), padding);
    FrameImage(host, Command(7, Signal), padding);
    TextImage(host, []);
    SmallSpelled(f[6..8], 14);
    SmallSpelled(f[12..14], 7);
    assert f == f[..6] + f[6..8] + f[8..10] + f[10..12] + f[12..14] + f[14..];
  }

  lemma SmallSpelled(b: Bytes, n: nat)
    requires Spells(b, n) && (n == 7 || n == 14)
    ensures |b| == 2 && b == if n == 7 then [0x00, 0x07] else [0x00, 0x0E]
  {
    assert b[0] as nat == 0 && b[1] as nat == n;
    ByteIs(b[0], 0);
    ByteIs(b[1], n);
  }

  lemma ByteIs(b: bv8, n: nat)
    requires b as nat == n && (n == 0 || n == 7 || n == 14)
    ensures b == if n == 0 then 0 else if n == 7 then 7 else 14
  {
  }

  // ----- reading a header -----

  lemma WordRead(host: Host, b: Bytes)
    requires |b| == 2
    ensures ReadWord(host, b) == Spelled16(b) && Number16(ReadWord(host, b)) == b[0] as nat * 256 + b[1] as nat
  {
    hide SwapBytes16, Loaded16, Spelled16, Number16;
    SwappedRead16(host, b);
    NumberOfBytes(b);
  }

  lemma MagicRead(host: Host, b: Bytes)
    requires |b| == 4
    ensures ReadMagic(host, b) == MAGIC_NUMBER <==> b == [0xAB, 0xCD, 0x12, 0x34]
  {
    hide SwapBytes32, Loaded32;
    SwappedRead32(host, b);
    MagicSpelled(b[0], b[1], b[2], b[3]);
    assert b == [b[0], b[1], b[2], b[3]];
  }

  lemma MagicSpelled(b0: bv8, b1: bv8, b2: bv8, b3: bv8)
    ensures Spelled32([b0, b1, b2, b3]) == MAGIC_NUMBER <==> b0 == 0xAB && b1 == 0xCD && b2 == 0x12 && b3 == 0x34
  {
  }

  lemma WordSpelled(hi: bv8, lo: bv8)
    ensures Spelled16([hi, lo]) == VERSION <==> hi == 0 && lo == 1
    ensures Spelled16([hi, lo]) == CalculateChecksum() <==> hi == 0 && lo == 0
  {
  }

  /** A header is accepted if and only if it starts with the magic number and version 1 and gives a length of at least
      the header's; bytes 6 and 7 are that length, bytes 8 and 9 the checksum. */
  lemma HeaderMeans(host: Host, b: Bytes)
    requires |b| == HEADER_SIZE
    ensures ParseHeader(host, b).Some? <==>
      && b[..6] == [0xAB, 0xCD, 0x12, 0x34, 0x00, 0x01]
      && 12 <= b[6] as nat * 256 + b[7] as nat
    ensures ParseHeader(host, b).Some? ==>
      var header := ParseHeader(host, b).value;
      && Number16(header.packetTotalLength) == b[6] as nat * 256 + b[7] as nat
      && (header.checksum == 0 <==> b[8..10] == [0x00, 0x00])
  {
    hide ReadWord, ReadMagic, Number16, Spelled16;
    MagicRead(host, b[..4]);
    VersionRead(host, b[4..6]);
    WordRead(host, b[6..8]);
    VersionRead(host, b[8..10]);
    assert b[..6] == b[..4] + b[4..6];
    WordBound(ReadWord(host, b[6..8]));
  }

  lemma VersionRead(host: Host, b: Bytes)
    requires |b| == 2
    ensures ReadWord(host, b) == VERSION <==> b == [0x00, 0x01]
    ensures ReadWord(host, b) == CalculateChecksum() <==> b == [0x00, 0x00]
  {
    hide ReadWord, Spelled16, Number16;
    WordRead(host, b);
    assert b == [b[0], b[1]];
    WordSpelled(b[0], b[1]);
  }

  lemma WordBound(w: bv16)
    ensures Number16(w) <= MAX_PACKET_SIZE
  {
    NumberFits(w);
  }

  // ----- bodies -----

  lemma {:induction false} FlatAt(bs: seq<Bytes>, n: nat, i: nat)
    requires AllSized(bs, n) && i < |bs|
    ensures n * i + n <= |Flat(bs)| && Flat(bs)[n * i..n * i + n] == bs[i]
  {
    FlatSize(bs, n);
    FlatSize(bs[1..], n);
    if i > 0 {
      FlatAt(bs[1..], n, i - 1);
      assert n * i == n + n * (i - 1);
      var rest := Flat(bs[1..]);
      assert Flat(bs) == bs[0] + rest;
      assert Flat(bs)[n * i..n * i + n] == rest[n * (i - 1)..n * (i - 1) + n];
    }
  }

  /** What the body of each kind of payload holds. */
  lemma TextImage(host: Host, text: Bytes)
    ensures Serialized(host, Message(text)) == text[..Min(|text|, 65521)]
    ensures Serialized(host, Signal) == []
  {
  }

  /** Where the second string starts, then the strings, cut to 65521 bytes in all. */
  lemma DoubleStringImage(host: Host, first: Bytes, second: Bytes)
    ensures var body := Serialized(host, DoubleString(first, second));
      var f := first[..Min(|first|, 65519)];
      && |body| >= 2 && Spells(body[..2], 2 + |f|)
      && body[2..] == f + second[..Min(|second|, 65519 - |f|)]
  {
    hide Cut16, Stored16, SwapBytes16, Spells;
    var start := SecondStart(first);
    WordOnWire(host, start);
    var body := Serialized(host, DoubleString(first, second));
    assert body[..2] == StartBytes(host, start);
  }

  /** Block after block, 128 bytes each. */
  lemma StringListImage(host: Host, blocks: seq<Bytes>, i: nat)
    requires AllSized(blocks, 128) && i < |blocks| && i < 511
    ensures var body := Serialized(host, StringList(blocks));
      |body| == 128 * Min(|blocks|, 511) && 128 * i + 128 <= |body| && body[128 * i..128 * i + 128] == blocks[i]
  {
    hide Flat;
    var kept := blocks[..Fitting(|blocks|, STRING_BLOCK_SIZE)];
    FlatSize(kept, 128);
    FlatAt(kept, 128, i);
  }

  /** Word after word, each with its highest byte first. */
  lemma NumericDataImage(host: Host, words: seq<bv32>, i: nat)
    requires i < |words| && i < 16380
    ensures var body := Serialized(host, NumericData(words));
      |body| == 4 * Min(|words|, 16380) && 4 * i + 4 <= |body| && body[4 * i..4 * i + 4] == Network32(words[i])
  {
    hide Flat, Stored32, SwapBytes32, Network32;
    var kept := SwappedWords(host, words)[..Fitting(|words|, ELEM_SIZE)];
    FlatSize(kept, 4);
    FlatAt(kept, 4, i);
    WireImage32(host, words[i]);
  }

  // ----- command types -----

  /** The types in the order of eCommandType: a disconnect notice, a welcome, a lobby entry notice, the lobby's
      information, its users, a chat message to the client, a login, a request for the lobby's information, a chat
      message to the server. */
  lemma KindsOfTypes(typeID: nat)
    requires typeID < NUM_TYPE_ENUMS
    ensures NUM_TYPE_ENUMS == 9
    ensures KindOfType(typeID).SignalKind? <==> typeID in {2, 7}
    ensures KindOfType(typeID).DoubleStringKind? <==> typeID in {3, 5}
    ensures KindOfType(typeID).StringListKind? <==> typeID == 4
    ensures KindOfType(typeID).MessageKind? <==> typeID in {0, 1, 6, 8}
  {
  }
}
