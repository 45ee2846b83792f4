/** The few formats of Python's `struct` module that the converter uses:
    `>H` and `>h` (one big-endian 16-bit integer, unsigned and signed),
    `>HH` (two big-endian unsigned 16-bit integers) and the 32-bit pattern
    that `>f` reads as an IEEE-754 single (the float itself is not modelled). */
module PyStruct {
  import opened Words

  /** `struct.pack('>H', w)`: the word as two bytes, high byte first. */
  function PackU16(w: Word): (b: seq<Byte>)
    ensures |b| == 2
  {
    [w / 0x100, w % 0x100]
  }

  /** `struct.unpack('>h', b)[0]`: two big-endian bytes read as a
      two's-complement 16-bit integer. */
  function UnpackI16(b: seq<Byte>): int
    requires |b| == 2
  {
    var u := b[0] as int * 0x100 + b[1];
    if b[0] >= 0x80 then u - 0x1_0000 else u
  }

  /** `struct.pack('>h', i)` for an integer that fits 16 signed bits. */
  function PackI16(i: int): (b: seq<Byte>)
    requires -0x8000 <= i < 0x8000
    ensures |b| == 2
  {
    var u := i % 0x1_0000;
    [u / 0x100, u % 0x100]
  }

  /** `struct.pack('>HH', hi, lo)`: four bytes, the high word first. */
  function PackU16Pair(hi: Word, lo: Word): (b: seq<Byte>)
    ensures |b| == 4
  {
    PackU16(hi) + PackU16(lo)
  }

  /** The bit pattern `struct.unpack('>f', b)` decodes: four big-endian bytes
      read as one unsigned 32-bit integer. */
  function Pattern32(b: seq<Byte>): nat
    requires |b| == 4
  {
    ((b[0] as int * 0x100 + b[1]) * 0x100 + b[2]) * 0x100 + b[3]
  }

  /** Packing a word as `>H` and reading it back as `>h` is the
      two's-complement reinterpretation of its 16 bits. */
  lemma SignedReinterpretation(w: Word)
    ensures UnpackI16(PackU16(w)) == if w < 0x8000 then w else w - 0x1_0000
    ensures -0x8000 <= UnpackI16(PackU16(w)) < 0x8000
  {
    var b := PackU16(w);
    assert b[0] as int * 0x100 + b[1] == w;
    assert b[0] >= 0x80 <==> w >= 0x8000;
  }

  /** The reinterpretation keeps the bit pattern: the signed value packs
      back (`>h`) into exactly the bytes the word packed into (`>H`). */
  lemma SignedKeepsBytes(w: Word)
    ensures -0x8000 <= UnpackI16(PackU16(w)) < 0x8000
    ensures PackI16(UnpackI16(PackU16(w))) == PackU16(w)
  {
    SignedReinterpretation(w);
    var i := UnpackI16(PackU16(w));
    assert i % 0x1_0000 == w;
  }

  /** `>HH` followed by the 32-bit read puts the first word in the upper
      half: the pattern is hi * 65536 + lo, and it splits back into the pair. */
  lemma PairPattern(hi: Word, lo: Word)
    ensures Pattern32(PackU16Pair(hi, lo)) == hi * 0x1_0000 + lo
    ensures Pattern32(PackU16Pair(hi, lo)) < 0x1_0000_0000
    ensures Pattern32(PackU16Pair(hi, lo)) / 0x1_0000 == hi
    ensures Pattern32(PackU16Pair(hi, lo)) % 0x1_0000 == lo
  {
    var b := PackU16Pair(hi, lo);
    assert b[0] as int * 0x100 + b[1] == hi;
    assert b[2] as int * 0x100 + b[3] == lo;
    assert Pattern32(b) == (b[0] as int * 0x100 + b[1]) * 0x1_0000 + (b[2] as int * 0x100 + b[3]);
  }
}
