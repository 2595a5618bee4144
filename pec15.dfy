/**
 * The 15-bit packet error code (PEC) that guards every command word and every
 * register block on the isoSPI link: CRC-15 with generator polynomial 0x4599,
 * seed 16, bits taken most significant first, the 15-bit remainder shifted
 * left once and sent high byte first.
 */
module Pec15 {
  import opened Bytes

  const Seed: bv16 := 16
  const Polynomial: bv16 := 0x4599

  /** One step of the shift register: feed a single data bit. */
  function ShiftBit(rem: bv16, bit: bool): (r: bv16)
    ensures r <= 0x7FFF
  {
    var feedback := (rem & 0x4000 != 0) != bit;
    if feedback then Shifted(rem) ^ Polynomial else Shifted(rem)
  }

  /** The register moved up one place, the bit leaving position 14 dropped. */
  function Shifted(rem: bv16): bv16
  {
    (rem << 1) & 0x7FFF
  }

  /** Feed one data byte, most significant bit first. */
  function ShiftByte(rem: bv16, b: byte): (r: bv16)
    ensures r <= 0x7FFF
  {
    var r7 := ShiftBit(rem, b & 0x80 != 0);
    var r6 := ShiftBit(r7, b & 0x40 != 0);
    var r5 := ShiftBit(r6, b & 0x20 != 0);
    var r4 := ShiftBit(r5, b & 0x10 != 0);
    var r3 := ShiftBit(r4, b & 0x08 != 0);
    var r2 := ShiftBit(r3, b & 0x04 != 0);
    var r1 := ShiftBit(r2, b & 0x02 != 0);
    ShiftBit(r1, b & 0x01 != 0)
  }

  /** The shift-register contents after feeding all of `data` into the seed. */
  function Remainder(data: seq<byte>): (r: bv16)
    ensures r <= 0x7FFF
  {
    if |data| == 0 then Seed else ShiftByte(Remainder(data[..|data| - 1]), data[|data| - 1])
  }

  /** The two PEC bytes sent after `data`; the last bit is always zero. */
  function Pec(data: seq<byte>): (r: seq<byte>)
    ensures |r| == 2 && r[1] & 1 == 0
    ensures ((r[0] as bv16) << 8) | (r[1] as bv16) == Remainder(data) << 1
  {
    var p := Remainder(data) << 1;
    [(p >> 8) as byte, (p & 0xFF) as byte]
  }

  /** A block whose last two bytes are the PEC of the bytes before them. */
  predicate Valid(block: seq<byte>)
  {
    |block| >= 2 && block[|block| - 2..] == Pec(block[..|block| - 2])
  }

  /** The payload followed by its PEC. */
  function WithPec(payload: seq<byte>): (block: seq<byte>)
    ensures Valid(block) && |block| == |payload| + 2 && block[..|payload|] == payload
  {
    var block := payload + Pec(payload);
    assert block[..|payload|] == payload;
    block
  }

  /** A valid block is exactly its payload with the PEC appended, and only such a block is valid. */
  lemma ValidIffWithPec(block: seq<byte>)
    requires |block| >= 2
    ensures Valid(block) <==> block == WithPec(block[..|block| - 2])
  {
    var n := |block| - 2;
    if Valid(block) {
      assert block == block[..n] + block[n..];
    }
  }

  /** The remainder of a two-byte command word, written out. */
  lemma RemainderOfPair(a: byte, b: byte)
    ensures Remainder([a, b]) == ShiftByte(ShiftByte(Seed, a), b)
  {
    var d := [a, b];
    assert d[..1][..0] == [];
    assert Remainder(d[..1]) == ShiftByte(Seed, a);
  }

  /** Feeding one more byte of a prefix. */
  lemma RemainderStep(d: seq<byte>, k: nat)
    requires 0 < k <= |d|
    ensures Remainder(d[..k]) == ShiftByte(Remainder(d[..k - 1]), d[k - 1])
  {
    assert d[..k][..k - 1] == d[..k - 1];
  }

  /** The remainder of a six-byte register block, written out. */
  lemma RemainderOfBlock(d: seq<byte>)
    requires |d| == 6
    ensures Remainder(d) == ShiftByte(ShiftByte(ShiftByte(ShiftByte(ShiftByte(ShiftByte(Seed,
      d[0]), d[1]), d[2]), d[3]), d[4]), d[5])
  {
    var r1 := ShiftByte(Seed, d[0]);
    var r2 := ShiftByte(r1, d[1]);
    var r3 := ShiftByte(r2, d[2]);
    var r4 := ShiftByte(r3, d[3]);
    var r5 := ShiftByte(r4, d[4]);
    assert Remainder(d[..1]) == r1 by {
      assert d[..1][..0] == [];
    }
    assert Remainder(d[..2]) == r2 by {
      RemainderStep(d, 2);
    }
    assert Remainder(d[..3]) == r3 by {
      RemainderStep(d, 3);
    }
    assert Remainder(d[..4]) == r4 by {
      RemainderStep(d, 4);
    }
    assert Remainder(d[..5]) == r5 by {
      RemainderStep(d, 5);
    }
    RemainderStep(d, 6);
    assert d[..6] == d;
  }

  /** Reference values for two-byte commands (STSCTRL, CLRSCTRL, RDCVA) and six-byte register blocks. */
  lemma BlockVectors()
    ensures Pec([0x00, 0x19]) == [0x8E, 0x4E]
    ensures Pec([0x00, 0x18]) == [0x05, 0x7C]
    ensures Pec([0x00, 0x04]) == [0x07, 0xC2]
    ensures Pec([0x32, 0x67, 0xF2, 0x1E, 0x5F, 0x24]) == [0x37, 0x9E]
    ensures Pec([0xCD, 0x62, 0x11, 0x1F, 0x83, 0x24]) == [0x98, 0x84]
    ensures Pec([0xC9, 0x62, 0x7C, 0x1C, 0x1A, 0x21]) == [0x1B, 0xE6]
  {
    RemainderOfPair(0x00, 0x19);
    RemainderOfPair(0x00, 0x18);
    RemainderOfPair(0x00, 0x04);
    RemainderOfBlock([0x32, 0x67, 0xF2, 0x1E, 0x5F, 0x24]);
    RemainderOfBlock([0xCD, 0x62, 0x11, 0x1F, 0x83, 0x24]);
    RemainderOfBlock([0xC9, 0x62, 0x7C, 0x1C, 0x1A, 0x21]);
  }
}
