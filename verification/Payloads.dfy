/** What the command bodies hold and how they are written and read (Common/Libs/Server/Command/ACommandStandard*.cpp):
    the encoders cut what does not fit a packet, and the decoders refuse what no encoder writes. */
module Payloads {
  import opened Common
  import opened Endian

  const HEADER_SIZE: nat := 12
  const MAX_PACKET_SIZE: nat := 65535
  const MAX_DATA_BODY_LENGTH: nat := MAX_PACKET_SIZE - HEADER_SIZE - 2
  const STRING_BLOCK_SIZE: nat := 128
  const ELEM_SIZE: nat := 4

  datatype Payload =
    | Message(text: Bytes)
    | Signal
    | DoubleString(first: Bytes, second: Bytes)
    | StringList(blocks: seq<Bytes>)
    | NumericData(words: seq<bv32>)

  datatype Kind = MessageKind | SignalKind | DoubleStringKind | StringListKind | NumericDataKind

  /** What Init makes of a body; `Undefined` is a string built from a range that ends before it starts. */
  datatype Parsed = Accepted(payload: Payload) | Failed | Undefined

  function KindOf(p: Payload): Kind {
    match p
    case Message(_) => MessageKind
    case Signal => SignalKind
    case DoubleString(_, _) => DoubleStringKind
    case StringList(_) => StringListKind
    case NumericData(_) => NumericDataKind
  }

  /** Every block is a StringBlock. */
  predicate GoodPayload(p: Payload) {
    p.StringList? ==> AllSized(p.blocks, STRING_BLOCK_SIZE)
  }

  predicate AllSized(bs: seq<Bytes>, n: nat) {
    forall i :: 0 <= i < |bs| ==> |bs[i]| == n
  }

  /** The blocks one after another, as memcpy takes them from a vector of arrays. */
  function Flat(bs: seq<Bytes>): Bytes {
    if bs == [] then [] else bs[0] + Flat(bs[1..])
  }

  /** The bytes cut into blocks of n. */
  function Chunks(b: Bytes, n: nat): seq<Bytes>
    requires n > 0
  {
    if |b| < n then [] else [b[..n]] + Chunks(b[n..], n)
  }

  /** How a vector of words lies in memory after every word was swapped. */
  function SwappedWords(host: Host, ws: seq<bv32>): (r: seq<Bytes>)
    ensures AllSized(r, ELEM_SIZE)
  {
    seq(|ws|, i requires 0 <= i < |ws| => Stored32(host, SwapBytes32(host, ws[i])))
  }

  /** The words that the host reads from blocks of four bytes and swaps. */
  function ReadWords(host: Host, bs: seq<Bytes>): seq<bv32>
    requires AllSized(bs, ELEM_SIZE)
  {
    seq(|bs|, i requires 0 <= i < |bs| => SwapBytes32(host, Loaded32(host, bs[i])))
  }

  /** How many elements of the given size fit a body. */
  function Fitting(count: nat, size: nat): nat
    requires size > 0
  {
    Min(count * size, MAX_DATA_BODY_LENGTH) / size
  }

  function SecondStart(first: Bytes): nat {
    Min(2 + |first|, MAX_DATA_BODY_LENGTH)
  }

  /** The first two bytes of a double string. */
  function StartBytes(host: Host, start: nat): Bytes {
    Stored16(host, SwapBytes16(host, Cut16(start)))
  }

  /** Serialize. */
  function Serialized(host: Host, p: Payload): Bytes {
    match p
    case Message(text) => text[..Min(|text|, MAX_DATA_BODY_LENGTH)]
    case Signal => []
    case DoubleString(first, second) =>
      var start := SecondStart(first);
      var size := Min(start + |second|, MAX_DATA_BODY_LENGTH);
      StartBytes(host, start) + first[..start - 2] + second[..size - start]
    case StringList(blocks) =>
      FitsCount(|blocks|, STRING_BLOCK_SIZE);
      Flat(blocks[..Fitting(|blocks|, STRING_BLOCK_SIZE)])
    case NumericData(words) =>
      FitsCount(|words|, ELEM_SIZE);
      Flat(SwappedWords(host, words)[..Fitting(|words|, ELEM_SIZE)])
  }

  /** Where a double string's second part starts, as its first two bytes say. */
  function ReadStart(host: Host, head: Bytes): nat
    requires |head| == 2
  {
    Number16(SwapBytes16(host, Loaded16(host, head)))
  }

  /** Init. */
  function Init(kind: Kind, host: Host, body: Bytes): Parsed {
    match kind
    case MessageKind => Accepted(Message(body))
    case SignalKind => Accepted(Signal)
    case DoubleStringKind =>
      if |body| <= 2 then Failed
      else
        var start := ReadStart(host, body[..2]);
        if |body| < start then Failed
        else if start < 2 then Undefined
        else Accepted(DoubleString(body[2..start], body[start..]))
    case StringListKind =>
      if |body| % STRING_BLOCK_SIZE != 0 then Failed else Accepted(StringList(Chunks(body, STRING_BLOCK_SIZE)))
    case NumericDataKind =>
      if |body| == 0 || |body| % ELEM_SIZE != 0 then Failed
      else
        ChunkSizes(body, ELEM_SIZE);
        Accepted(NumericData(ReadWords(host, Chunks(body, ELEM_SIZE))))
  }

  /** The part of a payload that reaches the other side. */
  function Carried(p: Payload): Payload {
    match p
    case Message(text) => Message(text[..Min(|text|, 65521)])
    case Signal => Signal
    case DoubleString(first, second) =>
      var f := first[..Min(|first|, 65519)];
      DoubleString(f, second[..Min(|second|, 65519 - |f|)])
    case StringList(blocks) => StringList(blocks[..Min(|blocks|, 511)])
    case NumericData(words) => NumericData(words[..Min(|words|, 16380)])
  }

  /** The payloads whose own encoding Init refuses are the pair of empty strings and the empty list of numbers. */
  predicate Decodable(p: Payload) {
    match p
    case DoubleString(first, second) => first != [] || second != []
    case NumericData(words) => words != []
    case _ => true
  }

  // ----- blocks -----

  lemma FitsCount(count: nat, size: nat)
    requires size > 0
    ensures Fitting(count, size) <= count
  {
    assert Min(count * size, MAX_DATA_BODY_LENGTH) <= count * size;
    Division(Min(count * size, MAX_DATA_BODY_LENGTH), count, size);
  }

  lemma Division(a: nat, count: nat, size: nat)
    requires size > 0 && a <= count * size
    ensures a / size <= count
  {
    assert a == (a / size) * size + a % size;
    assert (count + 1 - a / size) * size == (count + 1) * size - (a / size) * size;
    PositiveFactor(count + 1 - a / size, size);
  }

  lemma PositiveFactor(x: int, size: nat)
    requires x * size > 0
    ensures x > 0
  {
  }

  lemma {:induction false} ChunkSizes(b: Bytes, n: nat)
    requires n > 0
    ensures AllSized(Chunks(b, n), n)
  {
    if |b| >= n {
      ChunkSizes(b[n..], n);
    }
  }

  lemma {:induction false} FlatSize(bs: seq<Bytes>, n: nat)
    requires AllSized(bs, n)
    ensures |Flat(bs)| == n * |bs|
  {
    if bs != [] {
      FlatSize(bs[1..], n);
      assert n * |bs| == n + n * |bs[1..]|;
    }
  }

  lemma {:induction false} ChunksOfFlat(bs: seq<Bytes>, n: nat)
    requires n > 0 && AllSized(bs, n)
    ensures Chunks(Flat(bs), n) == bs
  {
    if bs != [] {
      var b := Flat(bs);
      assert b[..n] == bs[0] && b[n..] == Flat(bs[1..]);
      ChunksOfFlat(bs[1..], n);
    }
  }

  lemma {:induction false} FlatOfChunks(b: Bytes, n: nat, count: nat)
    requires n > 0 && |b| == n * count
    ensures Flat(Chunks(b, n)) == b && |Chunks(b, n)| == count
  {
    if count > 0 {
      assert n * count == n + n * (count - 1);
      FlatOfChunks(b[n..], n, count - 1);
      assert Chunks(b, n)[1..] == Chunks(b[n..], n);
    }
  }

  // ----- bodies -----

  /** A body is never too long for a packet, and does not depend on the host. */
  lemma BodyFits(host: Host, p: Payload)
    requires GoodPayload(p)
    ensures |Serialized(host, p)| <= MAX_DATA_BODY_LENGTH
  {
    match p
    case StringList(blocks) => FlatSize(blocks[..Fitting(|blocks|, STRING_BLOCK_SIZE)], STRING_BLOCK_SIZE);
    case NumericData(words) => FlatSize(SwappedWords(host, words)[..Fitting(|words|, ELEM_SIZE)], ELEM_SIZE);
    case _ =>
  }

  lemma WordsHostFree(h1: Host, h2: Host, ws: seq<bv32>)
    ensures SwappedWords(h1, ws) == SwappedWords(h2, ws)
    ensures ReadWords(h2, SwappedWords(h1, ws)) == ws
  {
    forall i | 0 <= i < |ws| ensures Stored32(h1, SwapBytes32(h1, ws[i])) == Stored32(h2, SwapBytes32(h2, ws[i])) {
      WireImage32(h1, ws[i]);
      WireImage32(h2, ws[i]);
    }
    forall i | 0 <= i < |ws| ensures SwapBytes32(h2, Loaded32(h2, Stored32(h1, SwapBytes32(h1, ws[i])))) == ws[i] {
      Crossing32(h1, h2, ws[i]);
    }
    hide Stored32, Loaded32, SwapBytes32;
  }

  lemma HostFree(h1: Host, h2: Host, p: Payload)
    ensures Serialized(h1, p) == Serialized(h2, p)
  {
    match p
    case DoubleString(first, second) =>
      WireImage16(h1, Cut16(SecondStart(first)));
      WireImage16(h2, Cut16(SecondStart(first)));
    case NumericData(words) => WordsHostFree(h1, h2, words);
    case _ =>
  }

  /** Encode on one host, decode on another: a decodable payload arrives cut to what fits, any other is refused. */
  lemma RoundTrip(sender: Host, receiver: Host, p: Payload)
    requires GoodPayload(p)
    ensures Init(KindOf(p), receiver, Serialized(sender, p)) == if Decodable(p) then Accepted(Carried(p)) else Failed
  {
    match p
    case Message(_) =>
    case Signal =>
    case DoubleString(first, second) => DoubleStringRoundTrip(sender, receiver, first, second);
    case StringList(blocks) =>
      var kept := blocks[..Fitting(|blocks|, STRING_BLOCK_SIZE)];
      FlatSize(kept, STRING_BLOCK_SIZE);
      ChunksOfFlat(kept, STRING_BLOCK_SIZE);
    case NumericData(words) => NumericDataRoundTrip(sender, receiver, words);
  }

  lemma DoubleStringRoundTrip(sender: Host, receiver: Host, first: Bytes, second: Bytes)
    ensures var p := DoubleString(first, second);
      Init(DoubleStringKind, receiver, Serialized(sender, p)) == if Decodable(p) then Accepted(Carried(p)) else Failed
  {
    hide StartBytes, ReadStart;
    var start := SecondStart(first);
    var body := Serialized(sender, DoubleString(first, second));
    var size := Min(start + |second|, MAX_DATA_BODY_LENGTH);
    StartCrosses(sender, receiver, start);
    assert body[..2] == StartBytes(sender, start);
    assert body[2..start] == first[..start - 2] && body[start..] == second[..size - start];
  }

  lemma StartCrosses(sender: Host, receiver: Host, start: nat)
    requires start < 0x1_0000
    ensures |StartBytes(sender, start)| == 2 && ReadStart(receiver, StartBytes(sender, start)) == start
  {
    Crossing16(sender, receiver, Cut16(start));
    NumberOfCut(start);
    hide Cut16, Number16, SwapBytes16, Loaded16;
  }

  lemma NumericDataRoundTrip(sender: Host, receiver: Host, words: seq<bv32>)
    ensures var p := NumericData(words);
      Init(NumericDataKind, receiver, Serialized(sender, p)) == if Decodable(p) then Accepted(Carried(p)) else Failed
  {
    var n := Fitting(|words|, ELEM_SIZE);
    var kept := SwappedWords(sender, words)[..n];
    assert kept == SwappedWords(sender, words[..n]);
    FlatSize(kept, ELEM_SIZE);
    ChunksOfFlat(kept, ELEM_SIZE);
    WordsHostFree(sender, receiver, words[..n]);
    hide SwappedWords, ReadWords, Flat, Chunks;
  }

  /** Nothing is cut exactly when the payload is small enough. */
  lemma LosslessIff(p: Payload)
    ensures Carried(p) == p <==>
      match p
      case Message(text) => |text| <= 65521
      case Signal => true
      case DoubleString(first, second) => |first| + |second| <= 65519
      case StringList(blocks) => |blocks| <= 511
      case NumericData(words) => |words| <= 16380
  {
    match p
    case Message(text) => assert |Carried(p).text| == Min(|text|, 65521);
    case Signal =>
    case DoubleString(first, second) =>
      assert |Carried(p).first| == Min(|first|, 65519);
      assert |Carried(p).second| == Min(|second|, 65519 - Min(|first|, 65519));
    case StringList(blocks) => assert |Carried(p).blocks| == Min(|blocks|, 511);
    case NumericData(words) => assert |Carried(p).words| == Min(|words|, 16380);
  }

  /** Decode then encode: Init accepts only what Serialize writes; a signal alone ignores its body. */
  lemma AcceptedIsCanonical(kind: Kind, host: Host, body: Bytes)
    requires |body| <= MAX_DATA_BODY_LENGTH && !kind.SignalKind? && Init(kind, host, body).Accepted?
    ensures var p := Init(kind, host, body).payload;
      KindOf(p) == kind && GoodPayload(p) && Decodable(p) && Carried(p) == p && Serialized(host, p) == body
  {
    var p := Init(kind, host, body).payload;
    match kind
    case MessageKind =>
    case DoubleStringKind => DoubleStringCanonical(host, body);
    case StringListKind =>
      ChunkSizes(body, STRING_BLOCK_SIZE);
      FlatOfChunks(body, STRING_BLOCK_SIZE, |body| / STRING_BLOCK_SIZE);
      assert p.blocks[..|p.blocks|] == p.blocks;
    case NumericDataKind => NumericDataCanonical(host, body);
  }

  lemma DoubleStringCanonical(host: Host, body: Bytes)
    requires |body| <= MAX_DATA_BODY_LENGTH && Init(DoubleStringKind, host, body).Accepted?
    ensures var p := Init(DoubleStringKind, host, body).payload;
      p.DoubleString? && Decodable(p) && Carried(p) == p && Serialized(host, p) == body
  {
    hide StartBytes, ReadStart;
    var p := Init(DoubleStringKind, host, body).payload;
    var start := ReadStart(host, body[..2]);
    StartIsCanonical(host, body[..2]);
    assert SecondStart(p.first) == start;
    assert p.first[..start - 2] == p.first && p.second[..|body| - start] == p.second;
    assert body == body[..2] + p.first + p.second;
  }

  lemma StartIsCanonical(host: Host, head: Bytes)
    requires |head| == 2
    ensures StartBytes(host, ReadStart(host, head)) == head
  {
    hide Cut16, Number16, SwapBytes16, Loaded16, Network16, Spelled16, Stored16;
    var w := SwapBytes16(host, Loaded16(host, head));
    CutOfNumber(w);
    SwappedRead16(host, head);
    WireImage16(host, w);
    NetworkSpelled(head[0], head[1]);
    assert head == [head[0], head[1]];
  }

  lemma NumericDataCanonical(host: Host, body: Bytes)
    requires |body| <= MAX_DATA_BODY_LENGTH && Init(NumericDataKind, host, body).Accepted?
    ensures var p := Init(NumericDataKind, host, body).payload;
      p.NumericData? && Decodable(p) && Carried(p) == p && Serialized(host, p) == body
  {
    ChunkSizes(body, ELEM_SIZE);
    FlatOfChunks(body, ELEM_SIZE, |body| / ELEM_SIZE);
    var bs := Chunks(body, ELEM_SIZE);
    var p := Init(NumericDataKind, host, body).payload;
    assert p.words == ReadWords(host, bs);
    ReadThenSwapped(host, bs);
    var ws := p.words;
    assert ws[..|ws|] == ws && bs[..|bs|] == bs;
    hide SwappedWords, ReadWords, Flat, Chunks;
  }

  lemma ReadThenSwapped(host: Host, bs: seq<Bytes>)
    requires AllSized(bs, ELEM_SIZE)
    ensures SwappedWords(host, ReadWords(host, bs)) == bs
  {
    forall i | 0 <= i < |bs|
      ensures Stored32(host, SwapBytes32(host, SwapBytes32(host, Loaded32(host, bs[i])))) == bs[i]
    {
      SwappedRead32(host, bs[i]);
      WireImage32(host, Spelled32(bs[i]));
      NetworkSpelled32(bs[i]);
      hide *;
    }
    hide Stored32, Loaded32, SwapBytes32;
  }

  /** When Init is undefined: a double string whose second part is said to start inside the two bytes that say so. */
  lemma InitIsUndefinedIff(kind: Kind, host: Host, body: Bytes)
    ensures Init(kind, host, body).Undefined? <==>
      kind.DoubleStringKind? && |body| > 2 && body[0] == 0 && body[1] <= 1
  {
    if kind.DoubleStringKind? && |body| > 2 {
      SwappedRead16(host, body[..2]);
      NetworkSpelled(body[0], body[1]);
      SmallByte(body[0], body[1]);
      assert body[..2] == [body[0], body[1]];
      hide Spelled16, Network16, SwapBytes16, Loaded16;
    }
  }
}
