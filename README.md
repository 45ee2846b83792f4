# ModScan window core, in Dafny

ModScan is a small Modbus master with a Qt window. The window connects to a
slave device over TCP or RTU through pymodbus and reads coils, discrete
inputs, holding registers or input registers. It converts the words it gets
back into one of five display types and can repeat the read from a poll
timer. This project models the logic the repository itself contains, all of
it in `ModScanWindow` (modscan.py):

- `convert_data` turns a list of 16-bit words into `uint16`, `int16`,
  `float32`, `hex` or `ascii` values (`convert.dfy`). It is modelled twice.
  `Convert.Converted` is the specification function. `Convert.ConvertData`
  is the method that runs the source's two loops (`PairFloats`, `PackAscii`)
  and is proved equal to it. The Python library pieces it calls are modelled
  on their own: the `struct` formats `>H`, `>h`, `>HH` and the bit pattern
  behind `>f` (`pystruct.dfy`), and `hex()`, `str.isspace()` and
  `str.strip()` (`pytext.dfy`).
- The window's session state is modelled as the class
  `ModScan.ModScanWindow` (`modscan.dfy`). It holds the client field, the
  poll flag and the table contents, plus two logs: the clients that were
  closed and the read calls that were sent. Its methods follow
  `connect_modbus`, `read_data`, `toggle_polling` and the timer tick.
  Whatever pymodbus would answer is a parameter: a close outcome, a connect outcome, or a read
  outcome that is a response (with `isError()`, `bits`, `registers`) or an
  exception.

Coil and discrete-input bits reach the converter as Python booleans and are
modelled as the words 0 and 1 (`Words.BitsAsWords`).

In these places the code does something a reader might not expect, and the
model follows the code:

- The `ascii` branch applies `str.strip()`. This removes Python white space
  from both ends and never removes NUL. So `[0x4849, 0x2100]` gives
  `"HI!\0"`, not `"HI!"` (`Convert.AsciiKeepsTrailingNul`).
- The `float32` branch silently drops an odd trailing word. It does not
  report a conversion error (`Convert.Float32DropsOddWord`).
- Nothing rejects a `float32` or `ascii` conversion of coil bits.
- Nothing checks the read quantity. The range 1..125 is only the spin box's
  range.
- A failed connect drops the new client without calling `close()` on it.
  Only the previous client is closed.
- The old client's `close()` is called outside the `try` block. If it
  raises, the exception leaves `connect_modbus` with the old client still in
  place and no new client built.

## Model

| member | source | states |
|---|---|---|
| Words.BitsAsWords | modscan.py:140-145 | a bit reading becomes a word list of the same length, holding 1 exactly where the bit is True and 0 where it is False |
| PyStruct.SignedReinterpretation | modscan.py:171 | packing a word as `>H` and unpacking it as `>h` gives the word itself below 0x8000 and the word minus 0x10000 otherwise, always in [-32768, 32767] |
| PyStruct.SignedKeepsBytes | modscan.py:171 | the signed value packs back (`>h`) into exactly the two bytes the word packed into (`>H`): the reinterpretation keeps the bit pattern |
| PyStruct.PairPattern | modscan.py:175-176 | `>HH` followed by a 32-bit big-endian read gives hi * 65536 + lo, below 2^32, and dividing by 65536 splits it back into hi and lo |
| PyText.HexDigits | modscan.py:179 | the digits of `hex(n)` are at least one lower-case hexadecimal digit, the first one is '0' exactly when n is 0 (no leading zeros), and a number below 16, 0 included, prints as a single digit, so 0 prints as "0" |
| PyText.HexDigitsRoundTrip | modscan.py:179 | reading the digits of `hex(n)` back in base 16 gives n |
| PyText.HexDigitsOfWord | modscan.py:179 | a 16-bit word prints as one to four hexadecimal digits |
| PyText.Hex | modscan.py:179 | `hex(n)` is "0x" followed by at least one lower-case hexadecimal digit, its third character is '0' exactly when n is 0, and `hex(0)` is exactly "0x0" |
| PyText.IsSpace | modscan.py:184 | the characters `str.isspace()` accepts; below 0x100 they are exactly tab, line feed, vertical tab, form feed, carriage return, 0x1C-0x1F, space, 0x85 and 0xA0, so NUL is never white space |
| PyText.LeadingSpaces | modscan.py:184 | the count `strip()` removes at the front covers only white space and stops at the first character that is not white space |
| PyText.TrailingSpaces | modscan.py:184 | the count `strip()` removes at the back covers only white space and stops at the last character that is not white space |
| PyText.StripRemovesOnlyEdgeSpace | modscan.py:184 | `strip()` returns one contiguous piece of its input; everything before and after the piece is white space; the piece neither starts nor ends with white space |
| PyText.StripKeepsNonSpace | modscan.py:184 | every character that is not white space, NUL included, lies inside the kept piece and keeps its value there |
| PyText.Strip | modscan.py:184 | `strip()` never lengthens a string, and it returns the empty string exactly when every character is white space |
| Convert.AsciiChars | modscan.py:181-183 | the string built before `strip()` has exactly two characters per word |
| Convert.WordChars | modscan.py:183 | one word adds two characters: first its high byte (`reg >> 8`), then its low byte (`reg & 0xFF`) |
| Convert.PairFloats | modscan.py:173-177 | the `float32` loop, stepping by two while a full pair remains, yields exactly the specified one value per word pair |
| Convert.PackAscii | modscan.py:181-184 | the `ascii` loop, appending two characters per word and stripping the result, yields the stripped packed string |
| Convert.ConvertData | modscan.py:166-184 | `convert_data` returns, for each of the five data types, the list the specification function `Converted` gives |
| Convert.Converted | modscan.py:166-184 | the list `convert_data` returns: one value per word for `uint16`, `int16` and `hex`, one per full word pair for `float32`, and a single string for `ascii` |
| Convert.UInt16Unchanged | modscan.py:168-169 | `uint16` returns the words unchanged: the same length and the same word at every index |
| Convert.Int16TwosComplement | modscan.py:171 | `int16` keeps the length; element k is data[k] below 0x8000 and data[k] - 65536 otherwise, lies in [-32768, 32767], and packs back into data[k]'s bytes |
| Convert.Float32Pairs | modscan.py:173-177 | `float32` gives len(data)/2 values (floor); value k is data[2k] * 65536 + data[2k+1], high word first, and splits back into that pair |
| Convert.Float32DropsOddWord | modscan.py:174 | appending one word to an even-length reading does not change the `float32` result: an odd trailing word is dropped |
| Convert.Float32ShortInput | modscan.py:174 | an empty or one-word reading gives no `float32` values |
| Convert.HexRendering | modscan.py:179 | `hex` keeps the length; each string is "0x" then one to four lower-case digits with no leading zero, the word 0 gives exactly "0x0", and the digits parse back to the word |
| Convert.AsciiLayout | modscan.py:181-183 | character 2k of the packed string is the high byte of data[k] and character 2k+1 its low byte |
| Convert.AsciiSingleString | modscan.py:184 | `ascii` returns a one-element list holding a contiguous piece of the packed string, and that piece contains every character of it that is not white space |
| Convert.Int16Examples | modscan.py:171 | `int16` of 0xFFFF, 0x8000 and 0 gives -1, -32768 and 0 |
| Convert.HexExample | modscan.py:179 | `hex` of 255 gives "0xff" |
| Convert.Float32Example | modscan.py:175-176 | the pair (0x4048, 0xF5C3) gives the 32-bit pattern 0x4048F5C3 |
| Convert.AsciiKeepsTrailingNul | modscan.py:181-184 | `ascii` of [0x4849, 0x2100] gives "HI!" followed by a NUL: `strip()` does not remove NUL |
| ModScan.ClientFor | modscan.py:111-118 | mode TCP builds a TCP client for the IP and port; any other mode builds a serial client for the serial port and baud rate, with a one-second timeout |
| ModScan.Payload | modscan.py:140-151 | the two bit functions hand over the response's bits as words (1 exactly where a bit is True); the two register functions hand over its registers unchanged |
| ModScan.Displays | modscan.py:130-157 | a read reaches conversion and the table exactly when there is a client and a response whose `isError()` is false |
| ModScan.ModScanWindow.constructor | modscan.py:13-19 | a new window has no client, a stopped poll timer and an empty table |
| ModScan.ModScanWindow.ConnectModbus | modscan.py:102-127 | an existing client's `close()` is always called; if it raises, the exception escapes and the client stays as it was; otherwise the old client is cleared, the new client is kept only if `connect()` returned True, and after a refusal or an exception there is no client |
| ModScan.ModScanWindow.ReadData | modscan.py:129-164 | with no client nothing changes and no read is sent; otherwise one read is sent, and the table shows the converted payload only when the response is not an error and nothing raised |
| ModScan.ModScanWindow.TogglePolling | modscan.py:196-200 | check-box state 2 turns polling on; every other state turns it off; nothing else changes |
| ModScan.ModScanWindow.PollTick | modscan.py:18-19 | a timer tick is a `read_data` while polling is on, and changes nothing while it is off |

## Left out

- The IEEE-754 reading of the `float32` pattern (`struct.unpack('>f', ...)`). Each `float32` value is modelled by the 32-bit pattern the float is decoded from.
- The `except` branch of `convert_data` (modscan.py:185-186). The input is typed as 16-bit words, and for those none of the branches can raise.
- Data-type or function strings that are not in the combo boxes. In the source they would make `convert_data` return None and reach `read_data`'s `else` branch. The model's types are closed enumerations.
- Convert.UInt16Unchanged: for coil bits, Python returns the booleans themselves, and the table shows "True"/"False". The model returns the words 1/0.
- The client library. pymodbus construction, `close()`, `connect()` and the `read_*` calls are parameters of the methods, as their outcomes. `close()` is recorded in the `closed` log; its effect on the connection is not modelled. Modbus TCP framing and RTU CRC-16 are implemented inside pymodbus.
- Python truthiness of the client (`if self.client:`). The model assumes that a client object is always truthy, so it checks only whether a client is present.
- The widgets, `init_ui`, `display_data` (the model keeps only the values put in the table), the status-bar texts, the warning box and the exception messages.
- The Qt timer's scheduling and its 1000 ms interval. Only the running/stopped flag is modelled.
- The slave id from the connection settings. In `connect_modbus` it appears only in the status message. The slave id sent with each read is part of `ReadRequest`.
