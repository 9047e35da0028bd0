/** Byte order (Common/Libs/Server/Protocol/Endian.h). The byte order of the host that compiled the program is a
    parameter: SwapBytes is the identity on a big-endian host and a byte reversal on a little-endian one, so the bytes
    an integer leaves in memory after SwapBytes do not depend on the host. */
module Endian {

  type Bytes = seq<bv8>

  datatype Host = LittleEndian | BigEndian

  function SwapBytes16(host: Host, value: bv16): bv16 {
    if host.BigEndian? then value else (value >> 8) | (value << 8)
  }

  function SwapBytes32(host: Host, value: bv32): bv32 {
    if host.BigEndian? then value
    else
      ((value & 0x0000_00FF) << 24) | ((value & 0x0000_FF00) << 8)
      | ((value & 0x00FF_0000) >> 8) | ((value & 0xFF00_0000) >> 24)
  }

  function SwapBytes64(host: Host, value: bv64): bv64 {
    if host.BigEndian? then value
    else
      ((value & 0x0000_0000_0000_00FF) << 56) | ((value & 0x0000_0000_0000_FF00) << 40)
      | ((value & 0x0000_0000_00FF_0000) << 24) | ((value & 0x0000_0000_FF00_0000) << 8)
      | ((value & 0x0000_00FF_0000_0000) >> 8) | ((value & 0x0000_FF00_0000_0000) >> 24)
      | ((value & 0x00FF_0000_0000_0000) >> 40) | ((value & 0xFF00_0000_0000_0000) >> 56)
  }

  /** The bytes of a word, highest first: network order. */
  function Network16(value: bv16): (b: Bytes)
    ensures |b| == 2
  {
    [(value >> 8) as bv8, (value & 0xFF) as bv8]
  }

  function Network32(value: bv32): (b: Bytes)
    ensures |b| == 4
  {
    [(value >> 24) as bv8, ((value >> 16) & 0xFF) as bv8, ((value >> 8) & 0xFF) as bv8, (value & 0xFF) as bv8]
  }

  /** The byte that stands `shift` bits up in a word. */
  function ByteAt(value: bv64, shift: nat): bv8
    requires shift <= 56
  {
    ((value >> shift) & 0xFF) as bv8
  }

  function Network64(value: bv64): (b: Bytes)
    ensures |b| == 8
  {
    [ByteAt(value, 56), ByteAt(value, 48), ByteAt(value, 40), ByteAt(value, 32),
     ByteAt(value, 24), ByteAt(value, 16), ByteAt(value, 8), ByteAt(value, 0)]
  }

  function Reversed(b: Bytes): (r: Bytes)
    ensures |r| == |b|
  {
    seq(|b|, i requires 0 <= i < |b| => b[|b| - 1 - i])
  }

  /** How the host lays a word out in memory. */
  function Stored16(host: Host, value: bv16): Bytes {
    if host.BigEndian? then Network16(value) else Reversed(Network16(value))
  }

  function Stored32(host: Host, value: bv32): Bytes {
    if host.BigEndian? then Network32(value) else Reversed(Network32(value))
  }

  function Stored64(host: Host, value: bv64): Bytes {
    if host.BigEndian? then Network64(value) else Reversed(Network64(value))
  }

  /** The word that four (two) bytes in network order spell. */
  function Spelled16(b: Bytes): bv16
    requires |b| == 2
  {
    (b[0] as bv16 << 8) | b[1] as bv16
  }

  function Spelled32(b: Bytes): bv32
    requires |b| == 4
  {
    (b[0] as bv32 << 24) | (b[1] as bv32 << 16) | (b[2] as bv32 << 8) | b[3] as bv32
  }

  /** The word that the host reads from memory. */
  function Loaded16(host: Host, b: Bytes): bv16
    requires |b| == 2
  {
    Spelled16(if host.BigEndian? then b else Reversed(b))
  }

  function Loaded32(host: Host, b: Bytes): bv32
    requires |b| == 4
  {
    Spelled32(if host.BigEndian? then b else Reversed(b))
  }

  /** A swapped word has the same bytes in every host's memory: highest first. */
  lemma WireImage16(host: Host, value: bv16)
    ensures Stored16(host, SwapBytes16(host, value)) == Network16(value)
  {
  }

  lemma WireImage32(host: Host, value: bv32)
    ensures Stored32(host, SwapBytes32(host, value)) == Network32(value)
  {
  }

  lemma LowBytesSwapped(value: bv64)
    ensures var s := SwapBytes64(LittleEndian, value);
      && ByteAt(s, 0) == ByteAt(value, 56) && ByteAt(s, 8) == ByteAt(value, 48)
      && ByteAt(s, 16) == ByteAt(value, 40) && ByteAt(s, 24) == ByteAt(value, 32)
  {
  }

  lemma HighBytesSwapped(value: bv64)
    ensures var s := SwapBytes64(LittleEndian, value);
      && ByteAt(s, 32) == ByteAt(value, 24) && ByteAt(s, 40) == ByteAt(value, 16)
      && ByteAt(s, 48) == ByteAt(value, 8) && ByteAt(s, 56) == ByteAt(value, 0)
  {
  }

  lemma SwapReverses64(value: bv64)
    ensures Network64(SwapBytes64(LittleEndian, value)) == Reversed(Network64(value))
  {
    hide SwapBytes64, ByteAt;
    LowBytesSwapped(value);
    HighBytesSwapped(value);
  }

  lemma WireImage64(host: Host, value: bv64)
    ensures Stored64(host, SwapBytes64(host, value)) == Network64(value)
  {
    if host.LittleEndian? {
      SwapReverses64(value);
      ReversedTwice(Network64(value));
      hide *;
    }
  }

  lemma SwapTwice16(value: bv16)
    ensures SwapBytes16(LittleEndian, SwapBytes16(LittleEndian, value)) == value
  {
  }

  lemma SwapTwice32(value: bv32)
    ensures SwapBytes32(LittleEndian, SwapBytes32(LittleEndian, value)) == value
  {
  }

  lemma NetworkSpelled(hi: bv8, lo: bv8)
    ensures Network16(Spelled16([hi, lo])) == [hi, lo]
  {
  }

  lemma NetworkSpelled32(b: Bytes)
    requires |b| == 4
    ensures Network32(Spelled32(b)) == b
  {
    SpelledBytes32(b[0], b[1], b[2], b[3]);
    assert b == [b[0], b[1], b[2], b[3]];
    hide *;
  }

  lemma SpelledBytes32(b0: bv8, b1: bv8, b2: bv8, b3: bv8)
    ensures Network32(Spelled32([b0, b1, b2, b3])) == [b0, b1, b2, b3]
  {
  }

  /** Reading a word and swapping it gives what its bytes spell, on every host. */
  lemma SwappedRead16(host: Host, b: Bytes)
    requires |b| == 2
    ensures SwapBytes16(host, Loaded16(host, b)) == Spelled16(b)
  {
    hide SwapBytes16, Spelled16, Network16;
    if host.LittleEndian? {
      var v := Spelled16(b);
      var s := SwapBytes16(host, v);
      assert b == [b[0], b[1]];
      NetworkSpelled(b[0], b[1]);
      WireImage16(host, v);
      ReversedTwice(Network16(s));
      SpelledNetwork16(s);
      SwapTwice16(v);
    } else {
      BigEndianSwaps16(Loaded16(host, b));
    }
  }

  lemma SwappedRead32(host: Host, b: Bytes)
    requires |b| == 4
    ensures SwapBytes32(host, Loaded32(host, b)) == Spelled32(b)
  {
    hide SwapBytes32, Spelled32, Network32;
    if host.LittleEndian? {
      var v := Spelled32(b);
      var s := SwapBytes32(host, v);
      NetworkSpelled32(b);
      WireImage32(host, v);
      ReversedTwice(Network32(s));
      SpelledNetwork32(s);
      SwapTwice32(v);
    } else {
      BigEndianSwaps32(Loaded32(host, b));
    }
  }

  lemma ReversedTwice(b: Bytes)
    ensures Reversed(Reversed(b)) == b
  {
  }

  lemma BigEndianSwaps16(value: bv16)
    ensures SwapBytes16(BigEndian, value) == value
  {
  }

  lemma BigEndianSwaps32(value: bv32)
    ensures SwapBytes32(BigEndian, value) == value
  {
  }

  lemma SpelledNetwork16(value: bv16)
    ensures Spelled16(Network16(value)) == value
  {
  }

  lemma SpelledNetwork32(value: bv32)
    ensures Spelled32(Network32(value)) == value
  {
    assert Network32(value)[0] as bv32 << 24 == value & 0xFF00_0000;
    assert Network32(value)[1] as bv32 << 16 == value & 0x00FF_0000;
    assert Network32(value)[2] as bv32 << 8 == value & 0x0000_FF00;
    assert Network32(value)[3] as bv32 == value & 0x0000_00FF;
  }

  /** What one host stores after a swap, any other host reads back with a swap. */
  lemma Crossing16(sender: Host, receiver: Host, value: bv16)
    ensures SwapBytes16(receiver, Loaded16(receiver, Stored16(sender, SwapBytes16(sender, value)))) == value
  {
    WireImage16(sender, value);
    SwappedRead16(receiver, Network16(value));
    SpelledNetwork16(value);
  }

  lemma Crossing32(sender: Host, receiver: Host, value: bv32)
    ensures SwapBytes32(receiver, Loaded32(receiver, Stored32(sender, SwapBytes32(sender, value)))) == value
  {
    WireImage32(sender, value);
    SwappedRead32(receiver, Network32(value));
    SpelledNetwork32(value);
    hide *;
  }

  // ----- numbers -----

  /** The word with these hexadecimal digits. */
  function Joined(a: bv4, b: bv4, c: bv4, d: bv4): bv16 {
    (a as bv16 << 12) | (b as bv16 << 8) | (c as bv16 << 4) | d as bv16
  }

  /** A word's hexadecimal digits, highest first. */
  function Digits(w: bv16): (bv4, bv4, bv4, bv4) {
    ((w >> 12) as bv4, ((w >> 8) & 0xF) as bv4, ((w >> 4) & 0xF) as bv4, (w & 0xF) as bv4)
  }

  /** A number cut to a 16-bit word, as static_cast<uint16_t> does. */
  function Cut16(n: nat): bv16 {
    Joined((n / 0x1000 % 0x10) as bv4, (n / 0x100 % 0x10) as bv4, (n / 0x10 % 0x10) as bv4, (n % 0x10) as bv4)
  }

  /** The number that a word stands for. */
  function Number16(w: bv16): nat {
    var d := Digits(w);
    d.0 as nat * 0x1000 + d.1 as nat * 0x100 + d.2 as nat * 0x10 + d.3 as nat
  }

  lemma NumberOfCut(n: nat)
    ensures Number16(Cut16(n)) == n % 0x1_0000
  {
    hide Joined, Digits;
    var a, b, c, d := n / 0x1000 % 0x10, n / 0x100 % 0x10, n / 0x10 % 0x10, n % 0x10;
    DigitsOfJoined(a as bv4, b as bv4, c as bv4, d as bv4);
    DigitNumber(a);
    DigitNumber(b);
    DigitNumber(c);
    DigitNumber(d);
    FourDigits(n);
  }

  lemma FourDigits(n: nat)
    ensures n % 0x1_0000 == n / 0x1000 % 0x10 * 0x1000 + n / 0x100 % 0x10 * 0x100 + n / 0x10 % 0x10 * 0x10 + n % 0x10
  {
    assert n / 0x100 == n / 0x10 / 0x10 && n / 0x1000 == n / 0x100 / 0x10 && n / 0x1_0000 == n / 0x1000 / 0x10;
  }

  lemma DigitsOfJoined(a: bv4, b: bv4, c: bv4, d: bv4)
    ensures Digits(Joined(a, b, c, d)) == (a, b, c, d)
  {
  }

  lemma JoinedDigits(w: bv16)
    ensures var d := Digits(w); Joined(d.0, d.1, d.2, d.3) == w
  {
  }

  lemma DigitNumber(n: nat)
    requires n < 0x10
    ensures (n as bv4) as nat == n
  {
  }

  lemma NumberDigit(b: bv4)
    ensures (b as nat) as bv4 == b && b as nat < 0x10
  {
  }

  lemma CutOfNumber(w: bv16)
    ensures Cut16(Number16(w)) == w && Number16(w) < 0x1_0000
  {
    hide Joined, Digits;
    var d := Digits(w);
    NumberDigit(d.0);
    NumberDigit(d.1);
    NumberDigit(d.2);
    NumberDigit(d.3);
    JoinedDigits(w);
    DigitsOfSum(d.0 as nat, d.1 as nat, d.2 as nat, d.3 as nat);
  }

  lemma DigitsOfSum(a: nat, b: nat, c: nat, d: nat)
    requires a < 0x10 && b < 0x10 && c < 0x10 && d < 0x10
    ensures var n := a * 0x1000 + b * 0x100 + c * 0x10 + d;
      n < 0x1_0000 && n / 0x1000 % 0x10 == a && n / 0x100 % 0x10 == b && n / 0x10 % 0x10 == c && n % 0x10 == d
  {
    var n := a * 0x1000 + b * 0x100 + c * 0x10 + d;
    assert n / 0x10 == a * 0x100 + b * 0x10 + c;
    assert n / 0x100 == a * 0x10 + b;
    assert n / 0x1000 == a;
  }

  lemma NumberFits(w: bv16)
    ensures Number16(w) < 0x1_0000
  {
    CutOfNumber(w);
  }

  lemma SpelledSmall(hi: bv8, lo: bv8)
    ensures hi == 0 && lo <= 1 <==> Spelled16([hi, lo]) == 0 || Spelled16([hi, lo]) == 1
  {
  }

  lemma CutSmall()
    ensures Cut16(0) == 0 && Cut16(1) == 1
  {
  }

  lemma SmallWord(w: bv16)
    ensures Number16(w) < 2 <==> w == 0 || w == 1
  {
    hide *;
    NumberOfCut(0);
    NumberOfCut(1);
    CutOfNumber(w);
    CutSmall();
  }

  /** Two bytes spell less than two exactly when the first is zero and the second at most one. */
  lemma SmallByte(hi: bv8, lo: bv8)
    ensures Number16(Spelled16([hi, lo])) < 2 <==> hi == 0 && lo <= 1
  {
    hide *;
    SpelledSmall(hi, lo);
    SmallWord(Spelled16([hi, lo]));
  }
}
