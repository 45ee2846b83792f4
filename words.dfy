/** The raw data a Modbus read hands to the window: 16-bit register words,
    or coil / discrete-input bits, which reach the converter unchanged as
    Python booleans and are modelled here as the words 0 and 1. */
module Words {

  /** An 8-bit byte, as produced by Python's `struct.pack`. */
  type Byte = b: int | 0 <= b < 0x100

  /** A 16-bit unsigned register word, as returned by pymodbus. */
  type Word = w: int | 0 <= w < 0x1_0000

  /** A coil or discrete-input reading as the words Python's `int(bool)` gives. */
  function BitsAsWords(bits: seq<bool>): (ws: seq<Word>)
    ensures |ws| == |bits|
    ensures forall k :: 0 <= k < |bits| ==> (ws[k] == 1 <==> bits[k]) && (ws[k] == 0 <==> !bits[k])
  {
    seq(|bits|, k requires 0 <= k < |bits| => if bits[k] then 1 else 0)
  }
}
