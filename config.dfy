/**
 * Device configuration: the two six-byte configuration register groups (A
 * and B) a client edits through named setters before writing them to the
 * daisy chain. Every setter changes exactly its own switch or field.
 */
module Config {
  import opened Bytes
  import opened Wrappers

  /** GPIO pin N, for N in 1..9. */
  type Gpio = n: int | 1 <= n <= 9 witness 1

  /** Cell N, for N in 1..18. */
  type Cell = n: int | 1 <= n <= 18 witness 1

  /** Discharge timeout code: 0x0 disables the timer, 0x1 is half a minute, ..., 0xF two hours. */
  type DischargeTimeout = t: bv8 | t <= 0xF

  /** Which ADC digital path the redundancy check is applied to. */
  datatype DigitalRedundancyPath = All | Adc1 | Adc2 | Adc3

  function PathCode(p: DigitalRedundancyPath): (c: bv8)
    ensures c <= 3
  {
    match p
    case All => 0
    case Adc1 => 1
    case Adc2 => 2
    case Adc3 => 3
  }

  /** A comparison voltage that does not fit the 12-bit threshold field. */
  datatype VoltageOutOfRangeError = VoltageOutOfRangeError

  /**
   * The twelve configuration bytes: group A as bytes 0-5, group B as bytes
   * 6-11, in the order they are written to the device.
   */
  type Registers = s: seq<byte> | |s| == 12 witness [0, 0, 0, 0, 0, 0, 0, 0, 0, 0, 0, 0]

  /** A single switch: bit `bit` of configuration byte `index`. */
  datatype BitPos = BitPos(index: nat, bit: nat)

  predicate ValidPos(p: BitPos)
  {
    p.index < 12 && p.bit < 8
  }

  /**
   * The power-on defaults: GPIO pull-downs off, references off, discharge
   * timer off, default ADC modes, thresholds zero, no cell discharging.
   */
  const DefaultRegisters: Registers := [0xF8, 0, 0, 0, 0, 0, 0x0F, 0, 0, 0, 0, 0]

  function Mask(bit: nat): byte
    requires bit < 8
  {
    if bit == 0 then 0x01 else if bit == 1 then 0x02 else if bit == 2 then 0x04 else if bit == 3 then 0x08
    else if bit == 4 then 0x10 else if bit == 5 then 0x20 else if bit == 6 then 0x40 else 0x80
  }

  /** Whether the switch at `p` is on. */
  predicate IsSet(r: Registers, p: BitPos)
    requires ValidPos(p)
  {
    r[p.index] & Mask(p.bit) != 0
  }

  function SetByte(x: byte, i: nat, on: bool): byte
    requires i < 8
  {
    if on then x | Mask(i) else x & !Mask(i)
  }

  /** The registers with only the switch at `p` turned on or off. */
  function WithBit(r: Registers, p: BitPos, on: bool): Registers
    requires ValidPos(p)
  {
    r[p.index := SetByte(r[p.index], p.bit, on)]
  }

  /** GPIO1-5 live in bits 3-7 of A0, GPIO6-9 in bits 0-3 of B0; a set bit means pull-down off. */
  function PullDownPos(pin: Gpio): (p: BitPos)
    ensures ValidPos(p)
  {
    if pin <= 5 then BitPos(0, pin + 2) else BitPos(6, pin - 6)
  }

  const ReferencePowerPos := BitPos(0, 2)
  const DischargeTimerPos := BitPos(0, 1)
  const AdcOptionPos := BitPos(0, 0)
  const ForceRedundancyFailPos := BitPos(7, 6)
  const DischargeMonitorPos := BitPos(7, 3)

  /** Cells 1-8 in A4, 9-12 in the low half of A5, 13-16 in the high half of B0, 17-18 in B1. */
  function DischargePos(cell: Cell): (p: BitPos)
    ensures ValidPos(p)
  {
    if cell <= 8 then BitPos(4, cell - 1)
    else if cell <= 12 then BitPos(5, cell - 9)
    else if cell <= 16 then BitPos(6, cell - 9)
    else BitPos(7, cell - 17)
  }

  /** The 12-bit under-voltage threshold code: A1 and the low half of A2. */
  function UvCode(r: Registers): (c: nat)
    ensures c < 4096
  {
    (r[2] & 0x0F) as nat * 256 + r[1] as nat
  }

  /** The 12-bit over-voltage threshold code: A3 and the high half of A2. */
  function OvCode(r: Registers): (c: nat)
    ensures c < 4096
  {
    r[3] as nat * 16 + (r[2] >> 4) as nat
  }

  /** The discharge timeout code: the high half of A5. */
  function TimeoutCode(r: Registers): DischargeTimeout
  {
    r[5] >> 4
  }

  /** The digital redundancy path code: bits 4-5 of B1. */
  function PathField(r: Registers): (c: bv8)
    ensures c <= 3
  {
    (r[7] >> 4) & 0x3
  }

  /** The code `set_uv_comp_voltage` stores for a voltage in microvolts. */
  function UvCodeFor(voltage: nat): (r: Result<nat, VoltageOutOfRangeError>)
    ensures r.Ok? <==> voltage == 0 || 3200 <= voltage <= 6553600
    ensures r.Ok? ==> r.value < 4096
    ensures voltage == 0 ==> r == Ok(0)
    ensures r.Ok? && voltage != 0 ==> UvThreshold(r.value) <= voltage < UvThreshold(r.value) + 1600
  {
    if voltage == 0 then Ok(0)
    else if 3200 <= voltage <= 6553600 then Ok(voltage / 1600 - 1)
    else Err(VoltageOutOfRangeError)
  }

  /** The code `set_ov_comp_voltage` stores for a voltage in microvolts. */
  function OvCodeFor(voltage: nat): (r: Result<nat, VoltageOutOfRangeError>)
    ensures r.Ok? <==> voltage == 0 || 1600 <= voltage <= 6552000
    ensures r.Ok? ==> r.value < 4096
    ensures voltage == 0 ==> r == Ok(0)
    ensures r.Ok? && voltage != 0 ==> OvThreshold(r.value) <= voltage < OvThreshold(r.value) + 1600
  {
    if voltage == 0 then Ok(0)
    else if 1600 <= voltage <= 6552000 then Ok(voltage / 1600)
    else Err(VoltageOutOfRangeError)
  }

  /** The under-voltage comparison voltage, in microvolts, a nonzero code stands for. */
  function UvThreshold(code: nat): nat
  {
    (code + 1) * 1600
  }

  /** The over-voltage comparison voltage, in microvolts, a code stands for. */
  function OvThreshold(code: nat): nat
  {
    code * 1600
  }

  /** `value as u8` for a 12-bit code. */
  function LowByteOf(c: nat): (b: byte)
    requires c < 4096
    ensures b as nat == c % 256
  {
    ByteOf(c % 256)
  }

  /** `(value >> 8) as u8` for a 12-bit code. */
  function HighNibbleOf(c: nat): (b: byte)
    requires c < 4096
    ensures b as nat == c / 256 && b <= 0x0F
  {
    Nibble(c / 256)
  }

  /** `(value >> 4) as u8` for a 12-bit code. */
  function HighByteOf(c: nat): (b: byte)
    requires c < 4096
    ensures b as nat == c / 16
  {
    ByteOf(c / 16)
  }

  /** `(value << 4) as u8` for a 12-bit code. */
  function LowNibbleUp(c: nat): (b: byte)
    requires c < 4096
    ensures b >> 4 == Nibble(c % 16) && b & 0x0F == 0
  {
    Nibble(c % 16) << 4
  }

  /** Store a 12-bit under-voltage code: low byte in A1, high nibble in the low half of A2. */
  function WithUvCode(r: Registers, c: nat): Registers
    requires c < 4096
  {
    r[1 := LowByteOf(c)][2 := (r[2] & 0xF0) | HighNibbleOf(c)]
  }

  /** Store a 12-bit over-voltage code: high byte in A3, low nibble in the high half of A2. */
  function WithOvCode(r: Registers, c: nat): Registers
    requires c < 4096
  {
    r[3 := HighByteOf(c)][2 := (r[2] & 0x0F) | LowNibbleUp(c)]
  }

  /** Store a discharge timeout in the high half of A5. */
  function WithTimeout(r: Registers, t: DischargeTimeout): Registers
  {
    r[5 := (r[5] & 0x0F) | (t << 4)]
  }

  /** Store a redundancy path code in bits 4-5 of B1. */
  function WithPath(r: Registers, code: bv8): Registers
    requires code <= 3
  {
    r[7 := (r[7] & 0xCF) | (code << 4)]
  }

  /** `From<usize> for Cell`: index 0 is Cell1; an index past the last cell falls back to Cell1. */
  function CellFromIndex(index: nat): (c: Cell)
    ensures index < 18 ==> c as nat == index + 1
    ensures index >= 18 ==> c == 1
  {
    if index < 18 then index + 1 else 1
  }

  /** `From<usize> for GPIO`: index 0 is GPIO1; an index past the last pin falls back to GPIO1. */
  function GpioFromIndex(index: nat): (g: Gpio)
    ensures index < 9 ==> g as nat == index + 1
    ensures index >= 9 ==> g == 1
  {
    if index < 9 then index + 1 else 1
  }

  lemma MaskBits(x: byte, i: nat, j: nat)
    requires i < 8 && j < 8
    ensures (x | Mask(i)) & Mask(j) != 0 <==> i == j || x & Mask(j) != 0
    ensures (x & !Mask(i)) & Mask(j) != 0 <==> i != j && x & Mask(j) != 0
  {
  }

  /** Turning one switch on or off leaves every other switch as it was. */
  lemma WithBitReads(r: Registers, p: BitPos, on: bool, q: BitPos)
    requires ValidPos(p) && ValidPos(q)
    ensures IsSet(WithBit(r, p, on), q) == if p == q then on else IsSet(r, q)
  {
    var s := WithBit(r, p, on);
    if p.index == q.index {
      var x := r[p.index];
      MaskBits(x, p.bit, q.bit);
      assert s[q.index] == if on then x | Mask(p.bit) else x & !Mask(p.bit);
    } else {
      assert s[q.index] == r[q.index];
    }
  }

  lemma SetByteOverrides(x: byte, i: nat, on1: bool, on2: bool)
    requires i < 8
    ensures SetByte(SetByte(x, i, on1), i, on2) == SetByte(x, i, on2)
  {
    if i == 0 {
    } else if i == 1 {
    } else if i == 2 {
    } else if i == 3 {
    } else if i == 4 {
    } else if i == 5 {
    } else if i == 6 {
    } else {
    }
  }

  lemma SetByteKeeps(x: byte, i: nat)
    requires i < 8
    ensures SetByte(x, i, x & Mask(i) != 0) == x
  {
    if i == 0 {
    } else if i == 1 {
    } else if i == 2 {
    } else if i == 3 {
    } else if i == 4 {
    } else if i == 5 {
    } else if i == 6 {
    } else {
    }
  }

  /** Setting a switch twice keeps only the last setting. */
  lemma WithBitOverrides(r: Registers, p: BitPos, on1: bool, on2: bool)
    requires ValidPos(p)
    ensures WithBit(WithBit(r, p, on1), p, on2) == WithBit(r, p, on2)
  {
    SetByteOverrides(r[p.index], p.bit, on1, on2);
  }

  /** Setting a switch to the value it already has changes nothing. */
  lemma WithBitKeeps(r: Registers, p: BitPos)
    requires ValidPos(p)
    ensures WithBit(r, p, IsSet(r, p)) == r
  {
    SetByteKeeps(r[p.index], p.bit);
  }

  /**
   * Every named switch has a bit of its own: the nine pull-downs, the
   * eighteen discharge switches and the single-bit options never share one.
   */
  lemma SwitchesDistinct(pin1: Gpio, pin2: Gpio, cell1: Cell, cell2: Cell)
    ensures PullDownPos(pin1) == PullDownPos(pin2) ==> pin1 == pin2
    ensures DischargePos(cell1) == DischargePos(cell2) ==> cell1 == cell2
    ensures PullDownPos(pin1) != DischargePos(cell1)
    ensures PullDownPos(pin1) !in {ReferencePowerPos, DischargeTimerPos, AdcOptionPos, ForceRedundancyFailPos, DischargeMonitorPos}
    ensures DischargePos(cell1) !in {ReferencePowerPos, DischargeTimerPos, AdcOptionPos, ForceRedundancyFailPos, DischargeMonitorPos}
  {
  }

  /** Only the bytes in `fieldBytes` differ. */
  predicate KeepsOutside(r: Registers, s: Registers, fieldBytes: set<nat>)
  {
    forall i :: 0 <= i < 12 && i !in fieldBytes ==> r[i] == s[i]
  }

  lemma UvNibble(x: byte, h: byte)
    requires h <= 0x0F
    ensures ((x & 0xF0) | h) & 0x0F == h && ((x & 0xF0) | h) >> 4 == x >> 4
  {
  }

  /** The under-voltage code reads back as written; the over-voltage code and every other byte are kept. */
  lemma UvCodeRoundTrip(r: Registers, c: nat)
    requires c < 4096
    ensures UvCode(WithUvCode(r, c)) == c
    ensures OvCode(WithUvCode(r, c)) == OvCode(r)
    ensures KeepsOutside(r, WithUvCode(r, c), {1, 2})
  {
    UvNibble(r[2], HighNibbleOf(c));
  }

  lemma OvNibble(x: byte, l: byte)
    requires l & 0x0F == 0
    ensures ((x & 0x0F) | l) >> 4 == l >> 4 && ((x & 0x0F) | l) & 0x0F == x & 0x0F
  {
  }

  /** The over-voltage code reads back as written; the under-voltage code and every other byte are kept. */
  lemma OvCodeRoundTrip(r: Registers, c: nat)
    requires c < 4096
    ensures OvCode(WithOvCode(r, c)) == c
    ensures UvCode(WithOvCode(r, c)) == UvCode(r)
    ensures KeepsOutside(r, WithOvCode(r, c), {2, 3})
  {
    OvNibble(r[2], LowNibbleUp(c));
  }

  lemma TimeoutNibble(x: byte, t: DischargeTimeout)
    ensures ((x & 0x0F) | (t << 4)) >> 4 == t && ((x & 0x0F) | (t << 4)) & 0x0F == x & 0x0F
  {
  }

  lemma LowNibbleMasks(x: byte, y: byte, i: nat)
    requires x & 0x0F == y & 0x0F && i < 4
    ensures x & Mask(i) == y & Mask(i)
  {
  }

  /** The timeout reads back as written and only byte A5 changes. */
  lemma TimeoutRoundTrip(r: Registers, t: DischargeTimeout)
    ensures TimeoutCode(WithTimeout(r, t)) == t
    ensures KeepsOutside(r, WithTimeout(r, t), {5})
  {
    TimeoutNibble(r[5], t);
  }

  /** Setting the timeout keeps the discharge switches, including those of cells 9-12 that share A5. */
  lemma TimeoutKeepsDischarge(r: Registers, t: DischargeTimeout, cell: Cell)
    ensures IsSet(WithTimeout(r, t), DischargePos(cell)) == IsSet(r, DischargePos(cell))
  {
    if 9 <= cell <= 12 {
      var y := (r[5] & 0x0F) | (t << 4);
      TimeoutNibble(r[5], t);
      LowNibbleMasks(r[5], y, cell - 9);
    }
  }

  lemma PathBits(x: byte, c: bv8)
    requires c <= 3
    ensures (((x & 0xCF) | (c << 4)) >> 4) & 0x3 == c
    ensures ((x & 0xCF) | (c << 4)) & Mask(0) == x & Mask(0) && ((x & 0xCF) | (c << 4)) & Mask(1) == x & Mask(1)
    ensures ((x & 0xCF) | (c << 4)) & Mask(3) == x & Mask(3) && ((x & 0xCF) | (c << 4)) & Mask(6) == x & Mask(6)
  {
  }

  /** The redundancy path reads back as written; cells 17-18, the monitor and the forced failure are kept. */
  lemma PathRoundTrip(r: Registers, path: DigitalRedundancyPath, cell: Cell)
    ensures PathField(WithPath(r, PathCode(path))) == PathCode(path)
    ensures IsSet(WithPath(r, PathCode(path)), DischargePos(cell)) == IsSet(r, DischargePos(cell))
    ensures IsSet(WithPath(r, PathCode(path)), DischargeMonitorPos) == IsSet(r, DischargeMonitorPos)
    ensures IsSet(WithPath(r, PathCode(path)), ForceRedundancyFailPos) == IsSet(r, ForceRedundancyFailPos)
    ensures KeepsOutside(r, WithPath(r, PathCode(path)), {7})
  {
    PathBits(r[7], PathCode(path));
  }

  /**
   * The defaults: every GPIO pull-down off, references, discharge timer and
   * alternative ADC modes off, no cell discharging, both thresholds zero.
   */
  lemma DefaultsDescribed(pin: Gpio, cell: Cell)
    ensures IsSet(DefaultRegisters, PullDownPos(pin))
    ensures !IsSet(DefaultRegisters, DischargePos(cell))
    ensures !IsSet(DefaultRegisters, ReferencePowerPos) && !IsSet(DefaultRegisters, DischargeTimerPos)
    ensures !IsSet(DefaultRegisters, AdcOptionPos)
    ensures UvCode(DefaultRegisters) == 0 && OvCode(DefaultRegisters) == 0 && TimeoutCode(DefaultRegisters) == 0
  {
  }

  lemma LowByte1999()
    ensures LowByteOf(1999) == 0xCF
  {
  }

  lemma LowByte4095()
    ensures LowByteOf(4095) == 0xFF
  {
  }

  lemma HighByte2600()
    ensures HighByteOf(2600) == 0xA2
  {
  }

  /** Worked values: 3.2 V and the largest under-voltage threshold on the defaults. */
  lemma UvThresholdVectors()
    ensures UvCodeFor(3200000) == Ok(1999)
    ensures WithUvCode(DefaultRegisters, 1999)[..6] == [0xF8, 0xCF, 0x07, 0, 0, 0]
    ensures UvCodeFor(6553600) == Ok(4095)
    ensures WithUvCode(DefaultRegisters, 4095)[..6] == [0xF8, 0xFF, 0x0F, 0, 0, 0]
  {
    LowByte1999();
    LowByte4095();
    assert HighNibbleOf(1999) == 0x07 && HighNibbleOf(4095) == 0x0F;
  }

  /** Worked value: 4.16 V over-voltage next to a 3.2 V under-voltage threshold. */
  lemma OvThresholdVector()
    ensures OvCodeFor(4160000) == Ok(2600)
    ensures WithOvCode(WithUvCode(DefaultRegisters, 1999), 2600)[..6] == [0xF8, 0xCF, 0x87, 0xA2, 0, 0]
  {
    LowByte1999();
    HighByte2600();
    assert HighNibbleOf(1999) == 0x07 && LowNibbleUp(2600) == 0x80;
  }

  lemma UpdatesCommute(r: seq<byte>, i: nat, u: byte, j: nat, v: byte)
    requires i < |r| && j < |r| && i != j
    ensures r[i := u][j := v] == r[j := v][i := u]
  {
  }

  /** A write into group A seen through the concatenated register view. */
  lemma ConcatUpdate(a: seq<byte>, b: seq<byte>, j: nat, v: byte)
    requires j < |a|
    ensures a[j := v] + b == (a + b)[j := v]
  {
  }

  /** A write into group B seen through the concatenated register view. */
  lemma ConcatUpdateRight(a: seq<byte>, b: seq<byte>, j: nat, v: byte)
    requires j < |b|
    ensures a + b[j := v] == (a + b)[|a| + j := v]
  {
  }

  /** `Configuration`: the two register groups, edited in place. */
  class Configuration {
    const registerA: array<byte>
    const registerB: array<byte>

    ghost predicate Valid()
      reads this
    {
      registerA.Length == 6 && registerB.Length == 6 && registerA != registerB
    }

    /** Both groups, A first. */
    ghost function Value(): Registers
      reads this, registerA, registerB
      requires Valid()
    {
      registerA[..] + registerB[..]
    }

    /** `Configuration::default()`. */
    constructor ()
      ensures Valid() && Value() == DefaultRegisters
      ensures fresh(registerA) && fresh(registerB)
    {
      registerA := new byte[6] [0xF8, 0, 0, 0, 0, 0];
      registerB := new byte[6] [0x0F, 0, 0, 0, 0, 0];
    }

    method UpdateA(i: nat, v: byte)
      requires Valid() && i < 6
      modifies registerA
      ensures Valid() && Value() == old(Value())[i := v]
    {
      registerA[i] := v;
    }

    method UpdateB(i: nat, v: byte)
      requires Valid() && i < 6
      modifies registerB
      ensures Valid() && Value() == old(Value())[6 + i := v]
    {
      registerB[i] := v;
    }

    method EnableGpioPullDown(pin: Gpio)
      requires Valid()
      modifies registerA, registerB
      ensures Valid() && Value() == WithBit(old(Value()), PullDownPos(pin), false)
    {
      if pin <= 5 {
        UpdateA(0, registerA[0] & !Mask(pin + 2));
      } else {
        UpdateB(0, registerB[0] & !Mask(pin - 6));
      }
    }

    method DisableGpioPullDown(pin: Gpio)
      requires Valid()
      modifies registerA, registerB
      ensures Valid() && Value() == WithBit(old(Value()), PullDownPos(pin), true)
    {
      if pin <= 5 {
        UpdateA(0, registerA[0] | Mask(pin + 2));
      } else {
        UpdateB(0, registerB[0] | Mask(pin - 6));
      }
    }

    method EnableReferencePower()
      requires Valid()
      modifies registerA
      ensures Valid() && Value() == WithBit(old(Value()), ReferencePowerPos, true)
    {
      UpdateA(0, registerA[0] | 0x04);
    }

    method DisableReferencePower()
      requires Valid()
      modifies registerA
      ensures Valid() && Value() == WithBit(old(Value()), ReferencePowerPos, false)
    {
      UpdateA(0, registerA[0] & 0xFB);
    }

    method EnableDischargeTimer()
      requires Valid()
      modifies registerA
      ensures Valid() && Value() == WithBit(old(Value()), DischargeTimerPos, true)
    {
      UpdateA(0, registerA[0] | 0x02);
    }

    method DisableDischargeTimer()
      requires Valid()
      modifies registerA
      ensures Valid() && Value() == WithBit(old(Value()), DischargeTimerPos, false)
    {
      UpdateA(0, registerA[0] & 0xFD);
    }

    /** `register_a[j] &= keep; register_a[j] |= bits`. */
    method MaskA(j: nat, keep: byte, bits: byte)
      requires Valid() && j < 6
      modifies registerA
      ensures Valid() && Value() == old(Value())[j := (old(Value())[j] & keep) | bits]
    {
      ghost var a, b := registerA[..], registerB[..];
      var x := registerA[j];
      assert (a + b)[j] == x;
      registerA[j] := x & keep;
      registerA[j] := registerA[j] | bits;
      assert registerA[..] == a[j := (x & keep) | bits];
      ConcatUpdate(a, b, j, (x & keep) | bits);
    }

    /** `register_b[j] &= keep; register_b[j] |= bits`. */
    method MaskB(j: nat, keep: byte, bits: byte)
      requires Valid() && j < 6
      modifies registerB
      ensures Valid() && Value() == old(Value())[6 + j := (old(Value())[6 + j] & keep) | bits]
    {
      ghost var a, b := registerA[..], registerB[..];
      var x := registerB[j];
      assert (a + b)[6 + j] == x;
      registerB[j] := x & keep;
      registerB[j] := registerB[j] | bits;
      assert registerB[..] == b[j := (x & keep) | bits];
      ConcatUpdateRight(a, b, j, (x & keep) | bits);
    }

    method SetUvCompVoltage(voltage: nat) returns (r: Result<Unit, VoltageOutOfRangeError>)
      requires Valid()
      modifies registerA
      ensures Valid()
      ensures r.Ok? <==> UvCodeFor(voltage).Ok?
      ensures r.Ok? ==> Value() == WithUvCode(old(Value()), UvCodeFor(voltage).value)
      ensures r.Err? ==> Value() == old(Value())
    {
      if voltage == 0 {
        UpdateA(1, 0x00);
        MaskA(2, 0xF0, 0x00);
        return Ok(Unit);
      }
      if !(3200 <= voltage <= 6553600) {
        return Err(VoltageOutOfRangeError);
      }
      var value: nat := voltage / 1600 - 1;
      assert UvCodeFor(voltage) == Ok(value);
      UpdateA(1, LowByteOf(value));
      MaskA(2, 0xF0, HighNibbleOf(value));
      r := Ok(Unit);
    }

    method SetOvCompVoltage(voltage: nat) returns (r: Result<Unit, VoltageOutOfRangeError>)
      requires Valid()
      modifies registerA
      ensures Valid()
      ensures r.Ok? <==> OvCodeFor(voltage).Ok?
      ensures r.Ok? ==> Value() == WithOvCode(old(Value()), OvCodeFor(voltage).value)
      ensures r.Err? ==> Value() == old(Value())
    {
      if voltage == 0 {
        MaskA(2, 0x0F, 0x00);
        UpdateA(3, 0x00);
        assert HighByteOf(0) == 0 && LowNibbleUp(0) == 0;
        UpdatesCommute(old(Value()), 2, (old(Value())[2] & 0x0F) | 0, 3, 0);
        return Ok(Unit);
      }
      if !(1600 <= voltage <= 6552000) {
        return Err(VoltageOutOfRangeError);
      }
      var value: nat := voltage / 1600;
      assert OvCodeFor(voltage) == Ok(value);
      UpdateA(3, HighByteOf(value));
      MaskA(2, 0x0F, LowNibbleUp(value));
      r := Ok(Unit);
    }

    method DischargeCell(cell: Cell)
      requires Valid()
      modifies registerA, registerB
      ensures Valid() && Value() == WithBit(old(Value()), DischargePos(cell), true)
    {
      if cell <= 8 {
        UpdateA(4, registerA[4] | Mask(cell - 1));
      } else if cell <= 12 {
        UpdateA(5, registerA[5] | Mask(cell - 9));
      } else if cell <= 16 {
        UpdateB(0, registerB[0] | Mask(cell - 9));
      } else {
        UpdateB(1, registerB[1] | Mask(cell - 17));
      }
    }

    method SetDischargeTimeout(timeout: DischargeTimeout)
      requires Valid()
      modifies registerA
      ensures Valid() && Value() == WithTimeout(old(Value()), timeout)
    {
      MaskA(5, 0x0F, timeout << 4);
    }

    method SetAlternativeAdcModes()
      requires Valid()
      modifies registerA
      ensures Valid() && Value() == WithBit(old(Value()), AdcOptionPos, true)
    {
      UpdateA(0, registerA[0] | 0x01);
    }

    method SetDefaultAdcModes()
      requires Valid()
      modifies registerA
      ensures Valid() && Value() == WithBit(old(Value()), AdcOptionPos, false)
    {
      UpdateA(0, registerA[0] & 0xFE);
    }

    method ForceDigitalRedundancyFail()
      requires Valid()
      modifies registerB
      ensures Valid() && Value() == WithBit(old(Value()), ForceRedundancyFailPos, true)
    {
      UpdateB(1, registerB[1] | 0x40);
    }

    method SetDigitalRedundancyPath(selection: DigitalRedundancyPath)
      requires Valid()
      modifies registerB
      ensures Valid() && Value() == WithPath(old(Value()), PathCode(selection))
    {
      MaskB(1, 0xCF, PathCode(selection) << 4);
    }

    method EnableDischargeMonitor()
      requires Valid()
      modifies registerB
      ensures Valid() && Value() == WithBit(old(Value()), DischargeMonitorPos, true)
    {
      UpdateB(1, registerB[1] | 0x08);
    }

    /** `eq`: two configurations are equal when both register groups hold the same bytes. */
    function Equals(other: Configuration): (eq: bool)
      reads this, registerA, registerB, other, other.registerA, other.registerB
      requires Valid() && other.Valid()
      ensures eq <==> Value() == other.Value()
    {
      var eq := forall i :: 0 <= i < 6 ==> registerA[i] == other.registerA[i] && registerB[i] == other.registerB[i];
      assert Value()[..6] == registerA[..] && Value()[6..] == registerB[..];
      assert other.Value()[..6] == other.registerA[..] && other.Value()[6..] == other.registerB[..];
      eq
    }
  }
}
