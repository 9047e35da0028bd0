/** The command classes as objects (Common/Libs/Server/Command/ACommandStandard*.cpp, Commands.h): each Init and
    Serialize is proved to do what the functions of Payloads say. */
module CommandObjects {
  import opened Common
  import opened Endian
  import opened Payloads
  import opened Frames

  class MessageCommand {
    const typeID: nat
    var mIsFailed: bool
    var mMessage: Bytes

    constructor (typeID: nat)
      ensures this.typeID == typeID && !mIsFailed && mMessage == []
    {
      this.typeID, mIsFailed, mMessage := typeID, false, [];
    }

    method Init(packetBody: Bytes)
      requires |packetBody| <= MAX_DATA_BODY_LENGTH
      modifies this
      ensures mIsFailed == old(mIsFailed) && mMessage == packetBody
    {
      mMessage := packetBody;
    }

    method Serialize(host: Host) returns (output: Bytes)
      ensures output == Serialized(host, Message(mMessage))
    {
      var size := Min(|mMessage|, MAX_DATA_BODY_LENGTH);
      output := mMessage[..size];
    }
  }

  class SignalCommand {
    const typeID: nat
    var mIsFailed: bool

    constructor (typeID: nat)
      ensures this.typeID == typeID && !mIsFailed
    {
      this.typeID, mIsFailed := typeID, false;
    }

    method Serialize(host: Host) returns (output: Bytes)
      ensures output == Serialized(host, Signal)
    {
      output := [];
    }
  }

  class DoubleStringCommand {
    const typeID: nat
    var mIsFailed: bool
    var mFirst: Bytes
    var mSecond: Bytes

    constructor (typeID: nat)
      ensures this.typeID == typeID && !mIsFailed && mFirst == [] && mSecond == []
    {
      this.typeID, mIsFailed, mFirst, mSecond := typeID, false, [], [];
    }

    /** The requires is what the string built from a range demands: the range must not end before it starts. */
    method Init(host: Host, packetBody: Bytes)
      requires |packetBody| <= MAX_DATA_BODY_LENGTH && !Payloads.Init(DoubleStringKind, host, packetBody).Undefined?
      modifies this
      ensures var parsed := Payloads.Init(DoubleStringKind, host, packetBody);
        && mIsFailed == (old(mIsFailed) || parsed.Failed?)
        && DoubleString(mFirst, mSecond) ==
          if parsed.Failed? then DoubleString(old(mFirst), old(mSecond)) else parsed.payload
    {
      if |packetBody| <= 2 {
        mIsFailed := true;
        return;
      }
      var secondStart := Number16(SwapBytes16(host, Loaded16(host, packetBody[..2])));
      if |packetBody| < secondStart {
        mIsFailed := true;
        return;
      }
      mFirst := packetBody[2..secondStart];
      mSecond := packetBody[secondStart..];
    }

    method Serialize(host: Host) returns (output: Bytes)
      ensures output == Serialized(host, DoubleString(mFirst, mSecond))
    {
      hide Cut16, Number16, Stored16, SwapBytes16;
      var secondStart := Cut16(Min(2 + |mFirst|, MAX_DATA_BODY_LENGTH));
      NumberOfCut(Min(2 + |mFirst|, MAX_DATA_BODY_LENGTH));
      var start := Number16(secondStart);
      var size := Min(start + |mSecond|, MAX_DATA_BODY_LENGTH);
      var header := SwapBytes16(host, secondStart);
      output := Stored16(host, header) + mFirst[..start - 2] + mSecond[..size - start];
    }
  }

  class StringListCommand {
    const typeID: nat
    var mIsFailed: bool
    var mData: seq<Bytes>

    constructor (typeID: nat)
      ensures this.typeID == typeID && !mIsFailed && mData == []
    {
      this.typeID, mIsFailed, mData := typeID, false, [];
    }

    /** The memcpy fills the blocks one after another. */
    method Init(host: Host, packetBody: Bytes)
      requires |packetBody| <= MAX_DATA_BODY_LENGTH
      modifies this
      ensures var parsed := Payloads.Init(StringListKind, host, packetBody);
        && mIsFailed == (old(mIsFailed) || parsed.Failed?)
        && StringList(mData) == if parsed.Failed? then StringList(old(mData)) else parsed.payload
    {
      if |packetBody| % STRING_BLOCK_SIZE != 0 {
        mIsFailed := true;
        return;
      }
      mData := Chunks(packetBody, STRING_BLOCK_SIZE);
    }

    method Serialize(host: Host) returns (output: Bytes)
      ensures output == Serialized(host, StringList(mData))
    {
      var size := Min(|mData| * STRING_BLOCK_SIZE, MAX_DATA_BODY_LENGTH) / STRING_BLOCK_SIZE;
      FitsCount(|mData|, STRING_BLOCK_SIZE);
      output := Flat(mData[..size]);
    }
  }

  class NumericDataCommand {
    const typeID: nat
    var mIsFailed: bool
    var mData: seq<bv32>

    constructor (typeID: nat)
      ensures this.typeID == typeID && !mIsFailed && mData == []
    {
      this.typeID, mIsFailed, mData := typeID, false, [];
    }

    /** A memcpy into the words, then every word is swapped in place. */
    method Init(host: Host, packetBody: Bytes)
      requires |packetBody| <= MAX_DATA_BODY_LENGTH
      modifies this
      ensures var parsed := Payloads.Init(NumericDataKind, host, packetBody);
        && mIsFailed == (old(mIsFailed) || parsed.Failed?)
        && NumericData(mData) == if parsed.Failed? then NumericData(old(mData)) else parsed.payload
    {
      if |packetBody| == 0 || |packetBody| % ELEM_SIZE != 0 {
        mIsFailed := true;
        return;
      }
      ChunkSizes(packetBody, ELEM_SIZE);
      var words := Chunks(packetBody, ELEM_SIZE);
      hide SwapBytes32, Loaded32;
      mData := seq(|words|, i requires 0 <= i < |words| => Loaded32(host, words[i]));
      var i := 0;
      while i < |mData|
        invariant 0 <= i <= |mData| == |words| && mIsFailed == old(mIsFailed)
        invariant forall j :: 0 <= j < i ==> mData[j] == SwapBytes32(host, Loaded32(host, words[j]))
        invariant forall j :: i <= j < |mData| ==> mData[j] == Loaded32(host, words[j])
      {
        mData := mData[i := SwapBytes32(host, mData[i])];
        i := i + 1;
      }
      assert mData == ReadWords(host, words);
    }

    /** The words are swapped in a copy, then copied out. */
    method Serialize(host: Host) returns (output: Bytes)
      ensures output == Serialized(host, NumericData(mData))
    {
      var size := Min(|mData| * ELEM_SIZE, MAX_DATA_BODY_LENGTH) / ELEM_SIZE;
      FitsCount(|mData|, ELEM_SIZE);
      hide SwapBytes32, Stored32, Flat;
      var swap := mData;
      var i := 0;
      while i < size
        invariant 0 <= i <= size <= |swap| == |mData|
        invariant forall j :: 0 <= j < i ==> swap[j] == SwapBytes32(host, mData[j])
        invariant forall j :: i <= j < |mData| ==> swap[j] == mData[j]
      {
        swap := swap[i := SwapBytes32(host, swap[i])];
        i := i + 1;
      }
      var blocks := seq(size, i requires 0 <= i < size => Stored32(host, swap[i]));
      output := Flat(blocks);
      assert blocks == SwappedWords(host, mData)[..size];
    }
  }

  /** A pointer to a command. */
  datatype ICommand =
    | OfMessage(message: MessageCommand)
    | OfSignal(signal: SignalCommand)
    | OfDoubleString(pair: DoubleStringCommand)
    | OfStringList(list: StringListCommand)
    | OfNumericData(numbers: NumericDataCommand)

  function Object(c: ICommand): object {
    match c
    case OfMessage(m) => m
    case OfSignal(s) => s
    case OfDoubleString(d) => d
    case OfStringList(l) => l
    case OfNumericData(n) => n
  }

  function TypeOf(c: ICommand): nat {
    match c
    case OfMessage(m) => m.typeID
    case OfSignal(s) => s.typeID
    case OfDoubleString(d) => d.typeID
    case OfStringList(l) => l.typeID
    case OfNumericData(n) => n.typeID
  }

  function PayloadOf(c: ICommand): Payload
    reads Object(c)
  {
    match c
    case OfMessage(m) => Message(m.mMessage)
    case OfSignal(s) => Signal
    case OfDoubleString(d) => DoubleString(d.mFirst, d.mSecond)
    case OfStringList(l) => StringList(l.mData)
    case OfNumericData(n) => NumericData(n.mData)
  }

  function IsFailed(c: ICommand): bool
    reads Object(c)
  {
    match c
    case OfMessage(m) => m.mIsFailed
    case OfSignal(s) => s.mIsFailed
    case OfDoubleString(d) => d.mIsFailed
    case OfStringList(l) => l.mIsFailed
    case OfNumericData(n) => n.mIsFailed
  }

  /** What a handed-over command is worth to its receiver: a failed one carries nothing. */
  function View(c: ICommand): Delivered
    reads Object(c)
  {
    Delivered(TypeOf(c), if IsFailed(c) then Failed else Accepted(PayloadOf(c)))
  }

  /** The virtual Init. */
  method InitCommand(c: ICommand, host: Host, packetBody: Bytes)
    requires |packetBody| <= MAX_DATA_BODY_LENGTH && !IsFailed(c)
    requires !Init(KindOf(PayloadOf(c)), host, packetBody).Undefined?
    modifies Object(c)
    ensures View(c) == Delivered(TypeOf(c), Init(old(KindOf(PayloadOf(c))), host, packetBody))
  {
    match c
    case OfMessage(m) => m.Init(packetBody);
    case OfSignal(s) =>
    case OfDoubleString(d) => d.Init(host, packetBody);
    case OfStringList(l) => l.Init(host, packetBody);
    case OfNumericData(n) => n.Init(host, packetBody);
  }

  /** The virtual Serialize. */
  method SerializePayload(c: ICommand, host: Host) returns (output: Bytes)
    ensures output == Serialized(host, PayloadOf(c))
  {
    match c
    case OfMessage(m) => output := m.Serialize(host);
    case OfSignal(s) => output := s.Serialize(host);
    case OfDoubleString(d) => output := d.Serialize(host);
    case OfStringList(l) => output := l.Serialize(host);
    case OfNumericData(n) => output := n.Serialize(host);
  }

  /** Command::GetCommand. */
  method GetCommand(typeID: nat) returns (c: ICommand)
    requires typeID < NUM_TYPE_ENUMS
    ensures fresh(Object(c)) && TypeOf(c) == typeID && KindOf(PayloadOf(c)) == KindOfType(typeID) && !IsFailed(c)
  {
    match typeID {
      case 2 =>
        var s := new SignalCommand(typeID);
        c := OfSignal(s);
      case 7 =>
        var s := new SignalCommand(typeID);
        c := OfSignal(s);
      case 3 =>
        var d := new DoubleStringCommand(typeID);
        c := OfDoubleString(d);
      case 5 =>
        var d := new DoubleStringCommand(typeID);
        c := OfDoubleString(d);
      case 4 =>
        var l := new StringListCommand(typeID);
        c := OfStringList(l);
      case _ =>
        var m := new MessageCommand(typeID);
        c := OfMessage(m);
    }
  }
}
