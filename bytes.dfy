/** Little-endian fields in byte sequences, as the USB setup packet and the
    pcap and USBPcap headers lay them out. */
module Bytes {

  /** An unsigned 8-bit value, uint8_t. */
  newtype byte = x: int | 0 <= x < 256

  /** A 16-bit value as two bytes, low byte first. */
  function Le16(v: int): (s: seq<byte>)
    requires 0 <= v < 0x1_0000
    ensures |s| == 2 && U16At(s, 0) == v
  {
    [(v % 256) as byte, (v / 256) as byte]
  }

  /** The 16-bit little-endian field at `at`. */
  function U16At(s: seq<byte>, at: int): (v: int)
    requires 0 <= at && at + 2 <= |s|
    ensures 0 <= v < 0x1_0000
  {
    s[at] as int + 256 * s[at + 1] as int
  }

  /** The 32-bit little-endian field at `at`. */
  function U32At(s: seq<byte>, at: int): (v: int)
    requires 0 <= at && at + 4 <= |s|
    ensures 0 <= v < 0x1_0000_0000
  {
    U16At(s, at) + 0x1_0000 * U16At(s, at + 2)
  }
}
