/**
 The character code table of the LCD driver: `sevenSegCode` maps one
 character, case-insensitively, to its seven-segment pattern shifted into
 bits 7..1 of a byte (bit 0 is left free for the decimal point), or to the
 sentinel 0xff when the character cannot be shown.
 */
module SevenSeg {

  /** An unsigned 8-bit byte (`uint8_t`). */
  type Byte = bv8

  /** The code `sevenSegCode` returns for an unsupported character. */
  const Invalid: Byte := 0xff

  /** `toupper` of the C library in the "C" locale: only 'a'..'z' change. */
  function ToUpper(c: char): char
  {
    if 'a' <= c <= 'z' then (c as int - 32) as char else c
  }

  /** The `case` labels of the switch in `sevenSegCode` and the pattern each one sets. */
  const Patterns: map<char, Byte> := map[
    ' ' := 0x00,
    '-' := 0x40,
    '0' := 0x3F,
    '1' := 0x06,
    '2' := 0x5B,
    '3' := 0x4F,
    '4' := 0x66,
    '5' := 0x6D,
    '6' := 0x7D,
    '7' := 0x07,
    '8' := 0x7F,
    '9' := 0x6F,
    'A' := 0x77,
    'B' := 0x7C,
    'C' := 0x39,
    'D' := 0x5E,
    'E' := 0x79,
    'F' := 0x71,
    'G' := 0x6f,
    'H' := 0x76,
    'I' := 0x06,
    'J' := 0x0e,
    'L' := 0x38,
    'N' := 0x54,
    'O' := 0x3f,
    'P' := 0x73,
    'S' := 0x6d,
    'T' := 0x78,
    'U' := 0x3E,
    'Y' := 0x6e
  ]

  /** The characters the display can show, before case folding. */
  predicate Supported(c: char)
  {
    ToUpper(c) in Patterns
  }

  /**
   `sevenSegCode`: the switch over `toupper(c)`, with 0xff as its default, then
   the shift into the upper seven bits for every code other than 0xff.
   */
  function SevenSegCode(c: char): (code: Byte)
    ensures code == Invalid <==> !Supported(c)
    ensures code != Invalid ==> code & 1 == 0
  {
    var u := ToUpper(c);
    var pattern := if u in Patterns then Patterns[u] else Invalid;
    if pattern != Invalid then pattern << 1 else pattern
  }

  /** Lower- and upper-case letters give the same code. */
  lemma CaseInsensitive(c: char)
    requires 'a' <= c <= 'z'
    ensures SevenSegCode(c) == SevenSegCode((c as int - 32) as char)
  {
    assert ToUpper(c) == ToUpper((c as int - 32) as char);
  }

  /**
   The punctuation the encoders treat specially, and the letters the table
   leaves out (in either case, by `CaseInsensitive`), have no code.
   */
  lemma Unsupported(c: char)
    requires c in ".,KMQRVWXZ"
    ensures SevenSegCode(c) == Invalid
  {
  }
}
