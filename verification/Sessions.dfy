/** Packets, their parser and the session's read loop as objects (Common/Libs/Server/Protocol/Packet.cpp, SerDes.cpp,
    User/Session.cpp). The callbacks of the loop call each other as the source's do; a read that cannot be filled ends
    in an error, as it does when the peer has closed. */
module Sessions {
  import opened Common
  import opened Endian
  import opened Payloads
  import opened Frames
  import opened CommandObjects

  const NO_HEADER := Header(0, 0, 0, 0)

  class Packet {
    const host: Host
    var mHeader: Header
    var mBody: Bytes
    var mIsHeaderParsed: bool

    constructor (host: Host)
      ensures this.host == host && mHeader == NO_HEADER && mBody == [] && !mIsHeaderParsed
    {
      this.host, mHeader, mBody, mIsHeaderParsed := host, NO_HEADER, [], false;
    }

    method Reset()
      modifies this
      ensures mHeader == NO_HEADER && mBody == [] && !mIsHeaderParsed
    {
      mHeader, mBody, mIsHeaderParsed := NO_HEADER, [], false;
    }

    /** A refused header leaves the packet as it was. */
    method ParseHeader(buffer: Bytes) returns (ok: bool)
      requires |buffer| == HEADER_SIZE
      modifies this`mHeader, this`mIsHeaderParsed
      ensures ok == Frames.ParseHeader(host, buffer).Some?
      ensures mHeader == if ok then Frames.ParseHeader(host, buffer).value else old(mHeader)
      ensures mIsHeaderParsed == (ok || old(mIsHeaderParsed))
    {
      var magic := SwapBytes32(host, Loaded32(host, buffer[..4]));
      var version := SwapBytes16(host, Loaded16(host, buffer[4..6]));
      var length := SwapBytes16(host, Loaded16(host, buffer[6..8]));
      var checkSum := SwapBytes16(host, Loaded16(host, buffer[8..10]));
      hide SwapBytes32, Loaded32, SwapBytes16, Loaded16, Number16;
      if magic != MAGIC_NUMBER { return false; }
      if version != VERSION { return false; }
      if Number16(length) < HEADER_SIZE || Number16(length) > MAX_PACKET_SIZE { return false; }
      mHeader := Header(magic, version, length, checkSum);
      mIsHeaderParsed := true;
      return true;
    }

    method ParseBody(bodyData: Bytes) returns (ok: bool)
      requires mIsHeaderParsed
      modifies this`mBody
      ensures ok == (mHeader.checksum == 0) && mBody == if ok then bodyData else old(mBody)
    {
      var checkSum := CalculateChecksum();
      if checkSum != mHeader.checksum { return false; }
      mBody := bodyData;
      return true;
    }

    /** The padding bytes of the header structure are whatever memory held. */
    static method Serialize(host: Host, body: Bytes, padding: Bytes) returns (outputPacket: Bytes)
      requires |padding| == 2 && HEADER_SIZE + |body| % 0x1_0000 <= MAX_PACKET_SIZE
      ensures outputPacket == PacketBytes(host, body, padding)
    {
      var bodyLength := |body| % 0x1_0000;
      outputPacket := HeaderBytes(host, Cut16(HEADER_SIZE + bodyLength), padding);
      outputPacket := outputPacket + body[..bodyLength];
    }
  }

  class SerDes {
    const host: Host
    var mParsed: bool
    var mTypeID: nat
    var mPacketBody: Bytes

    constructor (host: Host)
      ensures this.host == host && !mParsed && mTypeID == NUM_TYPE_ENUMS && mPacketBody == []
    {
      this.host, mParsed, mTypeID, mPacketBody := host, false, NUM_TYPE_ENUMS, [];
    }

    /** A body that is too short or of no known type leaves the old type and bytes in place. */
    method ParsePacket(packetBody: Bytes)
      modifies this
      ensures var r := Frames.ParsePacket(host, packetBody);
        mParsed == r.Some? && (mTypeID, mPacketBody) == if mParsed then r.value else old((mTypeID, mPacketBody))
    {
      if |packetBody| < 2 {
        mParsed := false;
        return;
      }
      var id := Number16(SwapBytes16(host, Loaded16(host, packetBody[..2])));
      if id >= NUM_TYPE_ENUMS {
        mParsed := false;
        return;
      }
      mPacketBody := packetBody[2..];
      mTypeID := id;
      mParsed := true;
    }

    method DeserializePacket() returns (output: ICommand)
      requires mTypeID < NUM_TYPE_ENUMS && |mPacketBody| <= MAX_DATA_BODY_LENGTH
      requires !Init(KindOfType(mTypeID), host, mPacketBody).Undefined?
      ensures fresh(Object(output))
      ensures View(output) == Delivered(mTypeID, Init(KindOfType(mTypeID), host, mPacketBody))
    {
      output := GetCommand(mTypeID);
      InitCommand(output, host, mPacketBody);
    }

    static method SerializeCommand(host: Host, command: ICommand) returns (output: Bytes)
      ensures output == CommandBytes(host, Command(TypeOf(command), PayloadOf(command)))
    {
      var id := SwapBytes16(host, Cut16(TypeOf(command)));
      var body := SerializePayload(command, host);
      output := Stored16(host, id) + body;
    }
  }

  /** What the loop goes on to deliver, and how it ends, once a reading is known and `rest` follows it. */
  function Resumed(host: Host, r: Reading, rest: Bytes): (seq<Delivered>, Ending) {
    match r
    case Stop(ending) => ([], ending)
    case Got(d, _) => ([d] + ReadStream(host, rest).delivered, ReadStream(host, rest).ending)
  }

  lemma StreamResumes(host: Host, input: Bytes)
    ensures var r, o := ReadPacket(host, input), ReadStream(host, input);
      (o.delivered, o.ending) == Resumed(host, r, if r.Got? then input[r.size..] else [])
  {
    hide ReadPacket;
  }

  /** What is read from a whole header and the bytes after it. */
  lemma PacketAfterHeader(host: Host, buffer: Bytes, socket: Bytes)
    requires |buffer| == HEADER_SIZE
    ensures var r, header := ReadPacket(host, buffer + socket), ParseHeader(host, buffer);
      && r == (if header.None? then Stop(Refused) else ReadRest(host, header.value, socket))
      && (r.Got? ==> (buffer + socket)[r.size..] == socket[r.size - HEADER_SIZE..])
  {
    hide ParseHeader, ReadRest;
    var input := buffer + socket;
    assert input[..HEADER_SIZE] == buffer && input[HEADER_SIZE..] == socket;
  }

  class Session {
    const host: Host
    const mPacket: Packet
    var socket: Bytes
    var mReadBuffer: Bytes
    var mWriteBuffer: Bytes
    /** The commands handed to the user's RequestAddEvent. */
    var delivered: seq<Delivered>
    var userClosed: bool
    ghost var ending: Option<Ending>
    /** The text of the disconnect notice in the server's language, and the padding bytes of its header. */
    const notice: Bytes
    const noticePadding: Bytes

    constructor (host: Host, socket: Bytes, notice: Bytes, noticePadding: Bytes)
      requires |noticePadding| == 2
      ensures this.host == host && this.socket == socket && delivered == [] && !userClosed && ending == None
      ensures this.notice == notice && this.noticePadding == noticePadding
      ensures Ready() && fresh(mPacket)
    {
      this.host, this.socket := host, socket;
      this.notice, this.noticePadding := notice, noticePadding;
      mPacket := new Packet(host);
      mReadBuffer, mWriteBuffer, delivered, userClosed, ending := [], [], [], false, None;
    }

    predicate Ready() {
      mPacket.host == host && |noticePadding| == 2
    }

    /** The user is closed, and what was sent last is the disconnect notice. */
    predicate Disconnected()
      reads this
      requires Ready()
    {
      userClosed && mWriteBuffer == Frame(host, Command(0, Message(notice)), noticePadding)
    }

    /** The bytes that go to the socket. */
    method Send(command: ICommand, padding: Bytes)
      requires |padding| == 2
      requires GoodCommand(Command(TypeOf(command), PayloadOf(command)))
      modifies this`mWriteBuffer
      ensures mWriteBuffer == Frame(host, Command(TypeOf(command), PayloadOf(command)), padding)
    {
      hide PacketBytes, CommandBytes;
      var body := SerDes.SerializeCommand(host, command);
      CommandFits(host, Command(TypeOf(command), PayloadOf(command)), padding);
      mWriteBuffer := Packet.Serialize(host, body, padding);
    }

    /** The loop delivers exactly what ReadStream says, in order, and stops for the reason it says; stopping sends the
        disconnect notice and closes the user. */
    method ReadHeader()
      requires Ready() && ReadStream(host, socket).ending != UndefinedBody
      modifies this, mPacket
      ensures delivered == old(delivered) + ReadStream(host, old(socket)).delivered
      ensures ending == Some(ReadStream(host, old(socket)).ending) && Disconnected()
      decreases |socket|, 3
    {
      StreamResumes(host, socket);
      hide ReadStream;
      if |socket| < HEADER_SIZE {
        ReadPacketHead(true);
      } else {
        mReadBuffer, socket := socket[..HEADER_SIZE], socket[HEADER_SIZE..];
        ghost var input := mReadBuffer + socket;
        assert input == old(socket);
        ReadPacketHead(false);
      }
    }

    method ReadPacketHead(error: bool)
      requires Ready() && (!error ==> |mReadBuffer| == HEADER_SIZE)
      requires !error ==> ReadStream(host, mReadBuffer + socket).ending != UndefinedBody
      modifies this, mPacket
      ensures error ==> delivered == old(delivered) && ending == Some(EndOfInput)
      ensures !error ==> delivered == old(delivered) + ReadStream(host, old(mReadBuffer + socket)).delivered
      ensures !error ==> ending == Some(ReadStream(host, old(mReadBuffer + socket)).ending)
      ensures Disconnected()
      decreases if error then 0 else |socket| + 11, 2
    {
      hide ReadStream, Frames.ParseHeader, ReadRest, ReadPacket, Number16, Frame, CommandBytes;
      if error {
        RequestDisconnect(EndOfInput);
        return;
      }
      ghost var input := mReadBuffer + socket;
      PacketAfterHeader(host, mReadBuffer, socket);
      StreamResumes(host, input);
      mPacket.Reset();
      var ok := mPacket.ParseHeader(mReadBuffer);
      if !ok {
        RequestDisconnect(Refused);
        return;
      }
      ReadBody();
    }

    method ReadBody()
      requires Ready() && mPacket.mIsHeaderParsed
      requires HEADER_SIZE <= Number16(mPacket.mHeader.packetTotalLength) <= MAX_PACKET_SIZE
      requires var r := ReadRest(host, mPacket.mHeader, socket);
        Resumed(host, r, if r.Got? then socket[r.size - HEADER_SIZE..] else []).1 != UndefinedBody
      modifies this, mPacket
      ensures var r := ReadRest(host, old(mPacket.mHeader), old(socket));
        var o := Resumed(host, r, if r.Got? then old(socket)[r.size - HEADER_SIZE..] else []);
        delivered == old(delivered) + o.0 && ending == Some(o.1) && Disconnected()
      decreases |socket| + 11, 1
    {
      hide ReadStream, Frames.ReadBody, Number16, Resumed;
      var bodySize := Number16(mPacket.mHeader.packetTotalLength) - HEADER_SIZE;
      if |socket| < bodySize {
        assert Resumed(host, Stop(EndOfInput), []) == ([], EndOfInput) by { ResumedStop(host, EndOfInput); }
        ReadPacketBody(true);
      } else {
        mReadBuffer, socket := socket[..bodySize], socket[bodySize..];
        ghost var r := ReadRest(host, mPacket.mHeader, old(socket));
        assert r == Frames.ReadBody(host, mPacket.mHeader, mReadBuffer);
        ResumedRest(host, r, socket);
        ReadPacketBody(false);
      }
    }

    method ReadPacketBody(error: bool)
      requires Ready() && mPacket.mIsHeaderParsed
      requires error || |mReadBuffer| <= MAX_PACKET_SIZE - HEADER_SIZE
      requires error || Resumed(host, Frames.ReadBody(host, mPacket.mHeader, mReadBuffer), socket).1 != UndefinedBody
      modifies this, mPacket
      ensures error ==> delivered == old(delivered) && ending == Some(EndOfInput)
      ensures !error ==>
        var o := Resumed(host, Frames.ReadBody(host, old(mPacket.mHeader), old(mReadBuffer)), old(socket));
        delivered == old(delivered) + o.0 && ending == Some(o.1)
      ensures Disconnected()
      decreases if error then 0 else |socket| + |mReadBuffer| + 11, 0
    {
      hide ReadStream, Frames.ParsePacket, Init, Frame, CommandBytes;
      if error {
        RequestDisconnect(EndOfInput);
        return;
      }
      var ok := mPacket.ParseBody(mReadBuffer);
      if !ok {
        RequestDisconnect(Refused);
        return;
      }
      var packetSerializer := new SerDes(host);
      packetSerializer.ParsePacket(mPacket.mBody);
      if !packetSerializer.mParsed {
        RequestDisconnect(Refused);
        return;
      }
      var command := packetSerializer.DeserializePacket();
      delivered := delivered + [View(command)];
      ReadHeader();
    }

    method RequestDisconnect(ghost why: Ending)
      requires Ready()
      modifies this`mWriteBuffer, this`userClosed, this`ending
      ensures Disconnected() && ending == Some(why)
    {
      var notify := new MessageCommand(0);
      notify.mMessage := notice;
      Send(OfMessage(notify), noticePadding);
      userClosed := true;
      ending := Some(why);
    }
  }

  lemma ResumedStop(host: Host, ending: Ending)
    ensures Resumed(host, Stop(ending), []) == ([], ending)
  {
  }

  lemma ResumedRest(host: Host, r: Reading, rest: Bytes)
    ensures r.Stop? ==> Resumed(host, r, rest) == Resumed(host, r, [])
  {
  }
}
