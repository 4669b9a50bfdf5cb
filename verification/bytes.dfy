/** Go strings are sequences of bytes. The model writes a byte read from a
    string as a character whose code is below 256, so that a slice of the input
    is itself a string. Go's `string(ch)` of a byte `ch` is different: it is
    the UTF-8 encoding of the code point `ch`, one byte below 0x80 and two
    bytes from 0x80 on. */
module Bytes {

  type Char8 = c: char | c as int < 256 witness '\0'

  /** A Go `string`: indexing and `len` work on bytes. */
  type ByteString = seq<Char8>

  /** The code point a one- or two-byte UTF-8 sequence encodes. */
  function RuneValue(s: string): int {
    if |s| == 1 then s[0] as int
    else if |s| == 2 then (s[0] as int - 0xC0) * 64 + (s[1] as int - 0x80)
    else -1
  }

  /** `string(ch)` for a byte `ch`: the UTF-8 encoding of code point `ch`.
      ASCII stays one byte; every other byte becomes a lead byte 0xC2 or 0xC3
      and a continuation byte, and the pair decodes back to `ch`. */
  function RuneOfByte(c: Char8): (s: ByteString)
    ensures RuneValue(s) == c as int
    ensures c as int < 0x80 ==> s == [c]
    ensures c as int >= 0x80 ==>
      |s| == 2 && 0xC2 <= s[0] as int <= 0xC3 && 0x80 <= s[1] as int < 0xC0
  {
    if c as int < 0x80 then [c]
    else [(0xC0 + c as int / 64) as char, (0x80 + c as int % 64) as char]
  }
}
