/** The 8-byte message header, its byte order conversion and its form in memory.

    `hostLittle` says whether the machine is little endian, `wireLittle` is the configured
    `ToLittleEndian`.  Memory is a sequence of bytes; `Load` and `Store` are what a host of a
    given endianness sees there.
 */
module MsgHeader {
  import opened Words

  const HEADER_SIZE: int := 8

  datatype Header = Header(size: u16, msgType: u16, ackSeq: u32)

  /** The four bytes of a 32-bit word, least significant first. */
  function Byte0(v: u32): byte { v % 0x100 }
  function Byte1(v: u32): byte { v / 0x100 % 0x100 }
  function Byte2(v: u32): byte { v / 0x100 / 0x100 % 0x100 }
  function Byte3(v: u32): byte { v / 0x100 / 0x100 / 0x100 }

  /** The 16- and 32-bit words with the given bytes, least significant first. */
  function Word16(b0: int, b1: int): u16
    requires 0 <= b0 < 0x100 && 0 <= b1 < 0x100
  {
    b0 + 0x100 * b1
  }

  function Word32(b0: int, b1: int, b2: int, b3: int): u32
    requires 0 <= b0 < 0x100 && 0 <= b1 < 0x100 && 0 <= b2 < 0x100 && 0 <= b3 < 0x100
  {
    b0 + 0x100 * (b1 + 0x100 * (b2 + 0x100 * b3))
  }

  lemma WordOfBytes(v: u32)
    ensures Word32(Byte0(v), Byte1(v), Byte2(v), Byte3(v)) == v
  {
  }

  lemma LowByte(b: int, rest: nat)
    requires 0 <= b < 0x100
    ensures (b + 0x100 * rest) % 0x100 == b && (b + 0x100 * rest) / 0x100 == rest
  {
  }

  lemma BytesOfWord(b0: int, b1: int, b2: int, b3: int)
    requires 0 <= b0 < 0x100 && 0 <= b1 < 0x100 && 0 <= b2 < 0x100 && 0 <= b3 < 0x100
    ensures var v := Word32(b0, b1, b2, b3);
      Byte0(v) == b0 && Byte1(v) == b1 && Byte2(v) == b2 && Byte3(v) == b3
  {
    LowByte(b2, b3);
    LowByte(b1, b2 + 0x100 * b3);
    LowByte(b0, b1 + 0x100 * (b2 + 0x100 * b3));
  }

  function Bswap16(x: u16): u16 {
    Word16(x / 0x100, x % 0x100)
  }

  function Bswap32(x: u32): u32 {
    Word32(Byte3(x), Byte2(x), Byte1(x), Byte0(x))
  }

  /** `Endian<ToLittle>::Convert` for the two widths a header has. */
  function Convert16(hostLittle: bool, wireLittle: bool, v: u16): u16 {
    if wireLittle == hostLittle then v else Bswap16(v)
  }

  function Convert32(hostLittle: bool, wireLittle: bool, v: u32): u32 {
    if wireLittle == hostLittle then v else Bswap32(v)
  }

  function ConvertByteOrder(hostLittle: bool, wireLittle: bool, h: Header): Header {
    Header(Convert16(hostLittle, wireLittle, h.size),
           Convert16(hostLittle, wireLittle, h.msgType),
           Convert32(hostLittle, wireLittle, h.ackSeq))
  }

  function Store16(little: bool, v: u16): (b: seq<byte>)
    ensures |b| == 2
  {
    if little then [v % 0x100, v / 0x100] else [v / 0x100, v % 0x100]
  }

  function Store32(little: bool, v: u32): (b: seq<byte>)
    ensures |b| == 4
  {
    if little then [Byte0(v), Byte1(v), Byte2(v), Byte3(v)] else [Byte3(v), Byte2(v), Byte1(v), Byte0(v)]
  }

  function Load16(little: bool, b: seq<byte>): u16
    requires |b| == 2
  {
    if little then Word16(b[0], b[1]) else Word16(b[1], b[0])
  }

  function Load32(little: bool, b: seq<byte>): u32
    requires |b| == 4
  {
    if little then Word32(b[0], b[1], b[2], b[3]) else Word32(b[3], b[2], b[1], b[0])
  }

  /** The header as bytes of a machine of the given endianness. */
  function StoreHeader(little: bool, h: Header): (b: seq<byte>)
    ensures |b| == HEADER_SIZE
  {
    Store16(little, h.size) + Store16(little, h.msgType) + Store32(little, h.ackSeq)
  }

  function LoadHeader(little: bool, b: seq<byte>): Header
    requires |b| == HEADER_SIZE
  {
    Header(Load16(little, b[..2]), Load16(little, b[2..4]), Load32(little, b[4..]))
  }

  lemma LoadStore16(little: bool, v: u16)
    ensures Load16(little, Store16(little, v)) == v
  {
  }

  lemma StoreLoad16(little: bool, b: seq<byte>)
    requires |b| == 2
    ensures Store16(little, Load16(little, b)) == b
  {
  }

  lemma StoreLoad32(little: bool, b: seq<byte>)
    requires |b| == 4
    ensures Store32(little, Load32(little, b)) == b
  {
    if little {
      BytesOfWord(b[0], b[1], b[2], b[3]);
    } else {
      BytesOfWord(b[3], b[2], b[1], b[0]);
    }
  }

  /** A header read back from the bytes it was written to is the same header, and bytes read as
      a header and written back are the same bytes. */
  lemma LoadStoreHeader(little: bool, h: Header)
    ensures LoadHeader(little, StoreHeader(little, h)) == h
  {
  }

  lemma StoreLoadHeader(little: bool, b: seq<byte>)
    requires |b| == HEADER_SIZE
    ensures StoreHeader(little, LoadHeader(little, b)) == b
  {
    StoreLoad16(little, b[..2]);
    StoreLoad16(little, b[2..4]);
    StoreLoad32(little, b[4..]);
    assert b == b[..2] + b[2..4] + b[4..];
  }

  /** The number that `bytes` stand for, the first one counting most. */
  function BigEndian(bytes: seq<byte>): nat {
    if bytes == [] then 0 else 0x100 * BigEndian(bytes[..|bytes| - 1]) + bytes[|bytes| - 1]
  }

  /** The number that `bytes` stand for, the first one counting least. */
  function LittleEndian(bytes: seq<byte>): nat {
    if bytes == [] then 0 else bytes[0] + 0x100 * LittleEndian(bytes[1..])
  }

  function Value(little: bool, bytes: seq<byte>): nat {
    if little then LittleEndian(bytes) else BigEndian(bytes)
  }

  lemma ValueOfTwo(little: bool, b: seq<byte>)
    requires |b| == 2
    ensures Value(little, b) == if little then Word16(b[0], b[1]) else Word16(b[1], b[0])
  {
    var lo, hi := b[1..], b[..1];
    assert lo[1..] == [] && hi[..0] == [];
    assert LittleEndian(lo) == b[1] + 0x100 * LittleEndian([]);
    assert BigEndian(hi) == 0x100 * BigEndian([]) + b[0];
  }

  lemma ValueOfFour(little: bool, b: seq<byte>)
    requires |b| == 4
    ensures Value(little, b) ==
      if little then Word32(b[0], b[1], b[2], b[3]) else Word32(b[3], b[2], b[1], b[0])
  {
    ValueOfTwo(little, b[2..]);
    ValueOfTwo(little, b[..2]);
    var lo, hi := b[1..], b[..3];
    assert lo[1..] == b[2..] && hi[..2] == b[..2];
    assert LittleEndian(lo) == b[1] + 0x100 * LittleEndian(b[2..]);
    assert BigEndian(hi) == 0x100 * BigEndian(b[..2]) + b[2];
  }

  /** A header in memory: two bytes of size, two of type and four of acknowledgement, each least
      significant byte first on a little-endian machine and last on another. */
  lemma HeaderBytes(little: bool, h: Header)
    ensures var b := StoreHeader(little, h);
      && Value(little, b[..2]) == h.size
      && Value(little, b[2..4]) == h.msgType
      && Value(little, b[4..]) == h.ackSeq
  {
    ValueOfTwo(little, Store16(little, h.size));
    ValueOfTwo(little, Store16(little, h.msgType));
    ValueOfFour(little, Store32(little, h.ackSeq));
    WordOfBytes(h.ackSeq);
    var b := StoreHeader(little, h);
    assert b[..2] == Store16(little, h.size);
    assert b[2..4] == Store16(little, h.msgType);
    assert b[4..] == Store32(little, h.ackSeq);
  }

  /** And this is how a header is read back from memory. */
  lemma HeaderValues(little: bool, b: seq<byte>)
    requires |b| == HEADER_SIZE
    ensures LoadHeader(little, b).size == Value(little, b[..2])
    ensures LoadHeader(little, b).msgType == Value(little, b[2..4])
    ensures LoadHeader(little, b).ackSeq == Value(little, b[4..])
  {
    StoreLoadHeader(little, b);
    HeaderBytes(little, LoadHeader(little, b));
  }

  lemma Bswap16Bytes(x: u16)
    ensures Bswap16(x) / 0x100 == x % 0x100
    ensures Bswap16(x) % 0x100 == x / 0x100
  {
  }

  lemma Bswap32Bytes(x: u32)
    ensures Byte0(Bswap32(x)) == Byte3(x) && Byte1(Bswap32(x)) == Byte2(x)
    ensures Byte2(Bswap32(x)) == Byte1(x) && Byte3(Bswap32(x)) == Byte0(x)
  {
    hide Byte0, Byte1, Byte2, Byte3, Word32;
    BytesOfWord(Byte3(x), Byte2(x), Byte1(x), Byte0(x));
  }

  lemma Bswap32Twice(x: u32)
    ensures Bswap32(Bswap32(x)) == x
  {
    Bswap32Bytes(x);
    WordOfBytes(x);
  }

  /** Converting twice restores the header, whatever the two endian settings. */
  lemma ConvertTwice(hostLittle: bool, wireLittle: bool, h: Header)
    ensures ConvertByteOrder(hostLittle, wireLittle, ConvertByteOrder(hostLittle, wireLittle, h)) == h
  {
    if hostLittle != wireLittle {
      Bswap16Bytes(h.size);
      Bswap16Bytes(h.msgType);
      Bswap32Twice(h.ackSeq);
    }
  }

  lemma SwappedStore16(little: bool, v: u16)
    ensures Store16(!little, Bswap16(v)) == Store16(little, v)
  {
    Bswap16Bytes(v);
  }

  lemma SwappedStore32(little: bool, v: u32)
    ensures Store32(!little, Bswap32(v)) == Store32(little, v)
  {
    Bswap32Bytes(v);
  }

  /** The bytes a host leaves in memory after converting do not depend on the host: they are
      what a machine of the wire's own endianness would have stored. */
  lemma WireFormIsHostIndependent(hostLittle: bool, wireLittle: bool, h: Header)
    ensures StoreHeader(hostLittle, ConvertByteOrder(hostLittle, wireLittle, h)) == StoreHeader(wireLittle, h)
  {
    if hostLittle != wireLittle {
      SwappedStore16(wireLittle, h.size);
      SwappedStore16(wireLittle, h.msgType);
      SwappedStore32(wireLittle, h.ackSeq);
    }
  }

  /** Converting wire bytes on any host yields the header a machine of the wire's endianness
      would have read. */
  lemma ConvertReadsWire(hostLittle: bool, wireLittle: bool, b: seq<byte>)
    requires |b| == HEADER_SIZE
    ensures ConvertByteOrder(hostLittle, wireLittle, LoadHeader(hostLittle, b)) == LoadHeader(wireLittle, b)
  {
    var h := LoadHeader(wireLittle, b);
    StoreLoadHeader(wireLittle, b);
    WireFormIsHostIndependent(hostLittle, wireLittle, h);
    LoadStoreHeader(hostLittle, ConvertByteOrder(hostLittle, wireLittle, h));
    ConvertTwice(hostLittle, wireLittle, h);
  }
}
