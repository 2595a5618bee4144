/** Bytes and 16-bit words as the driver handles them on the wire. */
module Bytes {
  type byte = bv8
  type u16 = bv16

  /** The most significant byte of a command word (`word >> 8`). */
  function HighByte(w: u16): (b: byte)
    ensures b as u16 == w >> 8
  {
    (w >> 8) as byte
  }

  /** The least significant byte of a command word (`word as u8`). */
  function LowByte(w: u16): (b: byte)
    ensures b as u16 == w & 0xFF
  {
    (w & 0xFF) as byte
  }

  /** A command word written big-endian, as the bus receives it. */
  function WordBytes(w: u16): (s: seq<byte>)
    ensures |s| == 2
  {
    [HighByte(w), LowByte(w)]
  }

  /** The 16-bit value stored little-endian in two received bytes. */
  function LittleEndian(lo: byte, hi: byte): (w: u16)
    ensures w & 0xFF == lo as u16 && w >> 8 == hi as u16
  {
    (hi as u16 << 8) | lo as u16
  }

  /** Splitting a word into its two bytes and joining them little-endian gives the word back. */
  lemma LittleEndianRoundTrip(w: u16)
    ensures LittleEndian(LowByte(w), HighByte(w)) == w
  {
  }

  /** Joining two bytes little-endian and splitting the word gives the bytes back. */
  lemma LittleEndianBytes(lo: byte, hi: byte)
    ensures LowByte(LittleEndian(lo, hi)) == lo && HighByte(LittleEndian(lo, hi)) == hi
  {
  }

  /** A number below 16 as a byte. */
  function Nibble(n: nat): (b: byte)
    requires n < 16
    ensures b as nat == n && b <= 0x0F
  {
    n as byte
  }

  lemma JoinNibbles(h: byte, l: byte)
    requires h <= 0x0F && l <= 0x0F
    ensures ((h << 4) | l) as nat == h as nat * 16 + l as nat
  {
  }

  /** A number below 256 as a byte, assembled from its two nibbles. */
  function ByteOf(n: nat): (b: byte)
    requires n < 256
    ensures b as nat == n
  {
    JoinNibbles(Nibble(n / 16), Nibble(n % 16));
    (Nibble(n / 16) << 4) | Nibble(n % 16)
  }

  /** `n` copies of one byte (a dummy or zeroed buffer). */
  function Fill(n: nat, b: byte): (s: seq<byte>)
    ensures |s| == n && forall i :: 0 <= i < n ==> s[i] == b
  {
    seq(n, _ => b)
  }
}
