/** `ModScanWindow.convert_data`: turns the words of one Modbus read into the
    values the table shows, for each of the five data types the window
    offers. The Python function returns a list; here it is a `seq<Value>`
    whose elements carry the Python type of what the list holds. */
module Convert {
  import opened Words
  import opened PyStruct
  import opened PyText

  /** The entries of the data-type combo box. */
  datatype DataType = UInt16 | Int16 | Float32 | Hex | Ascii

  /** One element of the list `convert_data` returns. */
  datatype Value =
    | Unsigned(word: Word)    // a register word passed through (or a coil bit as 0/1)
    | Signed(int16: int)      // a Python int from `struct.unpack('>h', ...)`
    | FloatBits(bits: nat)    // the 32-bit pattern a Python float is decoded from
    | Text(text: string)      // a Python str

  /** The `int16` branch, one word: `struct.unpack('>h', struct.pack('>H', reg))[0]`. */
  function Int16Of(w: Word): int {
    UnpackI16(PackU16(w))
  }

  /** The `float32` branch, one pair: the pattern `struct.unpack('>f', struct.pack('>HH', hi, lo))`
      reads as a single-precision float. */
  function Float32Of(hi: Word, lo: Word): nat {
    Pattern32(PackU16Pair(hi, lo))
  }

  /** The `float32` branch: one value per word pair (data[2k], data[2k+1]). */
  function Float32Values(data: seq<Word>): seq<Value> {
    seq(|data| / 2, k requires 0 <= k < |data| / 2 => FloatBits(Float32Of(data[2 * k], data[2 * k + 1])))
  }

  /** The two characters one word adds to the `ascii` string:
      `chr((reg >> 8) & 0xFF) + chr(reg & 0xFF)`. */
  function WordChars(w: Word): (chars: string)
    ensures |chars| == 2 && chars[0] as int == w / 0x100 && chars[1] as int == w % 0x100
  {
    [((w / 0x100) % 0x100) as char, (w % 0x100) as char]
  }

  /** The `ascii` string before `strip()`: the words' characters, in order. */
  function AsciiChars(data: seq<Word>): (chars: string)
    ensures |chars| == 2 * |data|
  {
    if data == [] then "" else AsciiChars(data[..|data| - 1]) + WordChars(data[|data| - 1])
  }

  /** The `uint16` branch: `return data`. */
  function UnsignedValues(data: seq<Word>): seq<Value> {
    seq(|data|, k requires 0 <= k < |data| => Unsigned(data[k]))
  }

  /** The `int16` branch: the list comprehension over `data`. */
  function Int16Values(data: seq<Word>): seq<Value> {
    seq(|data|, k requires 0 <= k < |data| => Signed(Int16Of(data[k])))
  }

  /** The `hex` branch: `[hex(reg) for reg in data]`. */
  function HexValues(data: seq<Word>): seq<Value> {
    seq(|data|, k requires 0 <= k < |data| => Text(PyText.Hex(data[k])))
  }

  /** What `convert_data(data, data_type)` returns: one value per word for
      `uint16`, `int16` and `hex`, one per full word pair for `float32`, and
      a single string for `ascii`. */
  function Converted(data: seq<Word>, t: DataType): (r: seq<Value>)
    ensures t == UInt16 || t == Int16 || t == Hex ==> |r| == |data|
    ensures t == Float32 ==> |r| == |data| / 2
    ensures t == Ascii ==> |r| == 1
  {
    match t
    case UInt16 => UnsignedValues(data)
    case Int16 => Int16Values(data)
    case Float32 => Float32Values(data)
    case Hex => HexValues(data)
    case Ascii => [Text(Strip(AsciiChars(data)))]
  }

  /** The `float32` loop: `for i in range(0, len(data) - 1, 2)`, appending one
      float per pair. */
  method PairFloats(data: seq<Word>) returns (floats: seq<Value>)
    ensures floats == Float32Values(data)
  {
    floats := [];
    var i := 0;
    while i < |data| - 1
      invariant 0 <= i <= |data| && i % 2 == 0
      invariant |floats| == i / 2
      invariant forall k :: 0 <= k < i / 2 ==> floats[k] == FloatBits(Float32Of(data[2 * k], data[2 * k + 1]))
    {
      floats := floats + [FloatBits(Float32Of(data[i], data[i + 1]))];
      i := i + 2;
    }
  }

  /** The `ascii` loop: `chars += ...` word by word, then `chars.strip()`. */
  method PackAscii(data: seq<Word>) returns (text: string)
    ensures text == Strip(AsciiChars(data))
  {
    var chars := "";
    for i := 0 to |data|
      invariant chars == AsciiChars(data[..i])
    {
      assert data[..i + 1][..i] == data[..i];
      chars := chars + WordChars(data[i]);
    }
    assert data[..|data|] == data;
    text := Strip(chars);
  }

  /** `convert_data`: dispatches on the data type. The `uint16`, `int16`
      and `hex` branches are the comprehensions `Converted` uses; the
      `float32` and `ascii` branches run their loops. */
  method ConvertData(data: seq<Word>, t: DataType) returns (r: seq<Value>)
    ensures r == Converted(data, t)
  {
    match t {
      case UInt16 =>
        r := UnsignedValues(data);
      case Int16 =>
        r := Int16Values(data);
      case Float32 =>
        r := PairFloats(data);
      case Hex =>
        r := HexValues(data);
      case Ascii =>
        var text := PackAscii(data);
        r := [Text(text)];
    }
  }

  // ---------------------------------------------------------------------
  // What each branch promises.

  /** `uint16` returns the words unchanged: same length, same elements. */
  lemma UInt16Unchanged(data: seq<Word>)
    ensures |Converted(data, UInt16)| == |data|
    ensures forall k :: 0 <= k < |data| ==> Converted(data, UInt16)[k].Unsigned? && Converted(data, UInt16)[k].word == data[k]
  {
  }

  /** `int16` keeps the length and reads each word as two's complement:
      below 0x8000 the word itself, otherwise the word minus 0x10000, so
      every value lies in [-32768, 32767]; and each value packs back into
      the word's own bytes. */
  lemma Int16TwosComplement(data: seq<Word>)
    ensures |Converted(data, Int16)| == |data|
    ensures forall k :: 0 <= k < |data| ==>
      Converted(data, Int16)[k] == Signed(if data[k] < 0x8000 then data[k] else data[k] as int - 0x1_0000)
    ensures forall k :: 0 <= k < |data| ==> -0x8000 <= Converted(data, Int16)[k].int16 < 0x8000
    ensures forall k :: 0 <= k < |data| ==> PackI16(Converted(data, Int16)[k].int16) == PackU16(data[k])
  {
    forall k | 0 <= k < |data|
      ensures Int16Of(data[k]) == if data[k] < 0x8000 then data[k] else data[k] as int - 0x1_0000
      ensures -0x8000 <= Int16Of(data[k]) < 0x8000
      ensures PackI16(Int16Of(data[k])) == PackU16(data[k])
    {
      SignedReinterpretation(data[k]);
      SignedKeepsBytes(data[k]);
    }
  }

  /** `float32` gives len(data) / 2 values (a trailing odd word is dropped);
      value k is the pattern with data[2k] as its high and data[2k+1] as its
      low half, and it splits back into exactly that pair. */
  lemma Float32Pairs(data: seq<Word>)
    ensures |Converted(data, Float32)| == |data| / 2
    ensures forall k :: 0 <= k < |data| / 2 ==>
      Converted(data, Float32)[k] == FloatBits(data[2 * k] as int * 0x1_0000 + data[2 * k + 1])
    ensures forall k :: 0 <= k < |data| / 2 ==>
      Converted(data, Float32)[k].bits < 0x1_0000_0000 &&
      Converted(data, Float32)[k].bits / 0x1_0000 == data[2 * k] &&
      Converted(data, Float32)[k].bits % 0x1_0000 == data[2 * k + 1]
  {
    forall k | 0 <= k < |data| / 2
      ensures Float32Of(data[2 * k], data[2 * k + 1]) == data[2 * k] as int * 0x1_0000 + data[2 * k + 1]
      ensures Float32Of(data[2 * k], data[2 * k + 1]) < 0x1_0000_0000
      ensures Float32Of(data[2 * k], data[2 * k + 1]) / 0x1_0000 == data[2 * k]
      ensures Float32Of(data[2 * k], data[2 * k + 1]) % 0x1_0000 == data[2 * k + 1]
    {
      PairPattern(data[2 * k], data[2 * k + 1]);
    }
  }

  /** Fewer than two words (an empty or a one-word reading) give no
      `float32` values at all. */
  lemma Float32ShortInput(data: seq<Word>)
    requires |data| < 2
    ensures Converted(data, Float32) == []
  {
  }

  /** An odd trailing word makes no difference to `float32`. */
  lemma Float32DropsOddWord(data: seq<Word>, w: Word)
    requires |data| % 2 == 0
    ensures Converted(data + [w], Float32) == Converted(data, Float32)
  {
    var d := data + [w];
    assert |d| / 2 == |data| / 2;
    forall k | 0 <= k < |data| / 2
      ensures d[2 * k] == data[2 * k] && d[2 * k + 1] == data[2 * k + 1]
    {
    }
  }

  /** `hex` keeps the length; each string is `0x` followed by lower-case
      digits with no leading zero (`0x0` for 0), at most four of them, and
      reading the digits back gives the word. */
  lemma HexRendering(data: seq<Word>)
    ensures |Converted(data, Hex)| == |data|
    ensures forall k :: 0 <= k < |data| ==>
      var s := Converted(data, Hex)[k].text;
      && Converted(data, Hex)[k].Text?
      && 3 <= |s| <= 6 && s[..2] == "0x"
      && (forall j :: 2 <= j < |s| ==> IsLowerHexDigit(s[j]))
      && (s[2] == '0' <==> data[k] == 0)
      && (data[k] == 0 ==> s == "0x0")
      && ParseHexDigits(s[2..]) == data[k]
  {
    forall k | 0 <= k < |data|
      ensures var s := PyText.Hex(data[k]);
        3 <= |s| <= 6 && s[..2] == "0x" && s[2..] == HexDigits(data[k])
        && ParseHexDigits(s[2..]) == data[k]
    {
      HexDigitsOfWord(data[k]);
      HexDigitsRoundTrip(data[k]);
      var s := PyText.Hex(data[k]);
      assert s[2..] == HexDigits(data[k]);
    }
  }

  /** The string the `ascii` branch builds has two characters per word:
      character 2k is the word's high byte, character 2k+1 its low byte. */
  lemma {:induction false} AsciiLayout(data: seq<Word>)
    ensures |AsciiChars(data)| == 2 * |data|
    ensures forall k :: 0 <= k < |data| ==>
      AsciiChars(data)[2 * k] == (data[k] / 0x100) as char &&
      AsciiChars(data)[2 * k + 1] == (data[k] % 0x100) as char
  {
    if data != [] {
      var front := data[..|data| - 1];
      AsciiLayout(front);
      forall k | 0 <= k < |data|
        ensures AsciiChars(data)[2 * k] == (data[k] / 0x100) as char
        ensures AsciiChars(data)[2 * k + 1] == (data[k] % 0x100) as char
      {
        if k < |front| {
          assert data[k] == front[k];
        }
      }
    }
  }

  /** `ascii` always returns a one-element list: the packed string with
      white space stripped from both ends. The strip keeps a contiguous piece,
      and every character that is not white space, NUL included, survives it. */
  lemma AsciiSingleString(data: seq<Word>)
    ensures |Converted(data, Ascii)| == 1 && Converted(data, Ascii)[0].Text?
    ensures var chars := AsciiChars(data);
      && Converted(data, Ascii)[0].text == chars[LeadingSpaces(chars)..StripEnd(chars)]
      && (forall k :: 0 <= k < |chars| && !IsSpace(chars[k]) ==>
            LeadingSpaces(chars) <= k < StripEnd(chars))
  {
    var chars := AsciiChars(data);
    forall k | 0 <= k < |chars| && !IsSpace(chars[k])
      ensures LeadingSpaces(chars) <= k < StripEnd(chars)
    {
      StripKeepsNonSpace(chars, k);
    }
  }

  /** Worked values of `int16`: 0xFFFF, 0x8000 and 0 read as -1, -32768 and 0. */
  lemma Int16Examples()
    ensures Converted([0xFFFF, 0x8000, 0], Int16) == [Signed(-1), Signed(-0x8000), Signed(0)]
  {
    Int16TwosComplement([0xFFFF, 0x8000, 0]);
  }

  /** Worked value of `hex`: 255 renders as "0xff". */
  lemma HexExample()
    ensures Converted([255], Hex) == [Text("0xff")]
  {
    assert HexDigits(255) == "ff";
    assert PyText.Hex(255) == "0xff";
  }

  /** Worked value of `float32`: (0x4048, 0xF5C3) is the pattern 0x4048F5C3. */
  lemma Float32Example()
    ensures Converted([0x4048, 0xF5C3], Float32) == [FloatBits(0x4048_F5C3)]
  {
    Float32Pairs([0x4048, 0xF5C3]);
  }

  /** Worked value of `ascii`: [0x4849, 0x2100] gives "HI!" followed by the
      NUL of the last low byte, which `strip()` does not remove. */
  lemma AsciiKeepsTrailingNul()
    ensures Converted([0x4849, 0x2100], Ascii) == [Text("HI!\0")]
  {
    var chars := AsciiChars([0x4849, 0x2100]);
    assert chars == "HI!\0" by {
      AsciiLayout([0x4849, 0x2100]);
    }
    assert LeadingSpaces(chars) == 0;
    assert chars[0..] == chars;
    assert TrailingSpaces(chars) == 0;
    assert Strip(chars) == chars;
  }
}
