/** The two Python string operations the converter relies on: `hex(n)` for a
    non-negative integer, and `str.strip()` with no argument, which removes
    the characters `str.isspace()` accepts from both ends of a string. */
module PyText {

  const LowerHexDigits: string := "0123456789abcdef"

  /** A character `hex()` may print after its `0x` prefix. */
  predicate IsLowerHexDigit(c: char) {
    c in LowerHexDigits
  }

  /** The digit `hex()` prints for a value below 16. */
  function HexDigit(d: int): (c: char)
    requires 0 <= d < 16
    ensures IsLowerHexDigit(c)
  {
    LowerHexDigits[d]
  }

  /** The value of one lower-case hexadecimal digit. */
  function DigitValue(c: char): (d: nat)
    requires IsLowerHexDigit(c)
    ensures d < 16 && HexDigit(d) == c
  {
    if '0' <= c <= '9' then c as int - '0' as int else c as int - 'a' as int + 10
  }

  /** Each digit reads back as the value it was printed for. */
  lemma DigitValueOfHexDigit(d: int)
    requires 0 <= d < 16
    ensures DigitValue(HexDigit(d)) == d
  {
  }

  /** The digits `hex(n)` prints after `0x`: base 16, most significant first,
      lower case, no leading zero (so 0 prints as the single digit `0`). */
  function HexDigits(n: nat): (s: string)
    ensures |s| >= 1
    ensures forall k :: 0 <= k < |s| ==> IsLowerHexDigit(s[k])
    ensures s[0] == '0' <==> n == 0
    ensures n < 16 ==> |s| == 1
    decreases n
  {
    if n < 16 then [HexDigit(n)] else HexDigits(n / 16) + [HexDigit(n % 16)]
  }

  /** Python's `hex(n)` for n >= 0. */
  function Hex(n: nat): (s: string)
    ensures |s| >= 3 && s[..2] == "0x"
    ensures forall k :: 2 <= k < |s| ==> IsLowerHexDigit(s[k])
    ensures s[2] == '0' <==> n == 0
    ensures n == 0 ==> s == "0x0"
  {
    "0x" + HexDigits(n)
  }

  /** Reads a string of lower-case hexadecimal digits, most significant first. */
  function ParseHexDigits(s: string): nat
    requires forall k :: 0 <= k < |s| ==> IsLowerHexDigit(s[k])
  {
    if s == [] then 0 else ParseHexDigits(s[..|s| - 1]) * 16 + DigitValue(s[|s| - 1])
  }

  /** `hex()` loses nothing: reading its digits back gives the number. */
  lemma {:induction false} HexDigitsRoundTrip(n: nat)
    ensures ParseHexDigits(HexDigits(n)) == n
    decreases n
  {
    var s := HexDigits(n);
    if n < 16 {
      DigitValueOfHexDigit(n);
      assert s[..0] == [];
    } else {
      HexDigitsRoundTrip(n / 16);
      DigitValueOfHexDigit(n % 16);
      assert s[..|s| - 1] == HexDigits(n / 16);
    }
  }

  /** A 16-bit word prints as one to four digits: `hex()` is `0x0` .. `0xffff`. */
  lemma {:induction false} HexDigitsOfWord(n: nat)
    requires n < 0x1_0000
    ensures 1 <= |HexDigits(n)| <= 4
  {
    if n >= 16 {
      HexDigitsWidth(n / 16, 3);
    }
  }

  /** A number below 16^m prints as at most m digits. */
  lemma {:induction false} HexDigitsWidth(n: nat, m: nat)
    requires m >= 1 && n < Pow16(m)
    ensures |HexDigits(n)| <= m
    decreases m
  {
    if n >= 16 {
      HexDigitsWidth(n / 16, m - 1);
    }
  }

  function Pow16(m: nat): (p: nat)
    ensures p >= 1
  {
    if m == 0 then 1 else 16 * Pow16(m - 1)
  }

  /** The code points below 0x100 that `str.isspace()` accepts, one by one:
      tab, line feed, vertical tab, form feed, carriage return, the four
      information separators 0x1C-0x1F, space, next line and no-break space. */
  const LatinSpaceCodes: set<int> := {0x09, 0x0A, 0x0B, 0x0C, 0x0D, 0x1C, 0x1D, 0x1E, 0x1F, 0x20, 0x85, 0xA0}

  /** Python's `str.isspace()` for one character: the Unicode white space,
      given as ranges of code points. In the Latin-1 range these are exactly
      the listed codes, so NUL (0x00) is not white space. */
  function IsSpace(c: char): (b: bool)
    ensures c as int < 0x100 ==> (b <==> c as int in LatinSpaceCodes)
    ensures c as int == 0 ==> !b
  {
    var n := c as int;
    (0x09 <= n <= 0x0D) || (0x1C <= n <= 0x20) || n == 0x85 || n == 0xA0
    || n == 0x1680 || (0x2000 <= n <= 0x200A) || n == 0x2028 || n == 0x2029
    || n == 0x202F || n == 0x205F || n == 0x3000
  }

  /** How many white-space characters `strip()` removes from the front. */
  function LeadingSpaces(s: string): (n: nat)
    ensures n <= |s|
    ensures forall k :: 0 <= k < n ==> IsSpace(s[k])
    ensures n < |s| ==> !IsSpace(s[n])
    decreases |s|
  {
    if s != [] && IsSpace(s[0]) then 1 + LeadingSpaces(s[1..]) else 0
  }

  /** How many white-space characters `strip()` removes from the back. */
  function TrailingSpaces(s: string): (n: nat)
    ensures n <= |s|
    ensures forall k :: |s| - n <= k < |s| ==> IsSpace(s[k])
    ensures n < |s| ==> !IsSpace(s[|s| - 1 - n])
    decreases |s|
  {
    if s != [] && IsSpace(s[|s| - 1]) then 1 + TrailingSpaces(s[..|s| - 1]) else 0
  }

  /** Where the text `strip()` keeps ends in s; it starts at `LeadingSpaces(s)`. */
  function StripEnd(s: string): nat
    ensures LeadingSpaces(s) <= StripEnd(s) <= |s|
  {
    |s| - TrailingSpaces(s[LeadingSpaces(s)..])
  }

  /** Python's `s.strip()`: s without its leading and trailing white space. */
  function Strip(s: string): (r: string)
    ensures |r| <= |s|
    ensures r == [] <==> forall k :: 0 <= k < |s| ==> IsSpace(s[k])
  {
    s[LeadingSpaces(s)..StripEnd(s)]
  }

  /** `strip()` keeps one contiguous piece of s, removes only white space,
      and only from the two ends: whatever precedes or follows the piece is
      white space, and the piece neither starts nor ends with white space. */
  lemma StripRemovesOnlyEdgeSpace(s: string)
    ensures 0 <= LeadingSpaces(s) <= StripEnd(s) <= |s|
    ensures Strip(s) == s[LeadingSpaces(s)..StripEnd(s)]
    ensures forall k :: 0 <= k < LeadingSpaces(s) ==> IsSpace(s[k])
    ensures forall k :: StripEnd(s) <= k < |s| ==> IsSpace(s[k])
    ensures Strip(s) != [] ==> !IsSpace(Strip(s)[0]) && !IsSpace(Strip(s)[|Strip(s)| - 1])
  {
    var i := LeadingSpaces(s);
    var t := s[i..];
    var n := TrailingSpaces(t);
    forall k | StripEnd(s) <= k < |s|
      ensures IsSpace(s[k])
    {
      assert s[k] == t[k - i];
    }
    if Strip(s) != [] {
      assert Strip(s)[|Strip(s)| - 1] == t[|t| - 1 - n];
    }
  }

  /** Every character that is not white space (NUL among them) survives
      `strip()`, in its place relative to the kept piece. */
  lemma StripKeepsNonSpace(s: string, k: nat)
    requires k < |s| && !IsSpace(s[k])
    ensures LeadingSpaces(s) <= k < StripEnd(s)
    ensures Strip(s)[k - LeadingSpaces(s)] == s[k]
  {
    StripRemovesOnlyEdgeSpace(s);
  }
}
