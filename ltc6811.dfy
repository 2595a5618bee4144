/**
 * The LTC6811: twelve cells in four cell-voltage registers, five GPIOs and
 * the second reference in two auxiliary registers, two status registers and
 * two configuration registers. Its tables carry no conversion times.
 */
module Ltc6811 {
  import opened Bytes
  import opened Wrappers
  import opened Device
  import Commands
  import Pec15
  import Protocol

  datatype Register =
    | CellVoltageA | CellVoltageB | CellVoltageC | CellVoltageD
    | AuxiliaryA | AuxiliaryB
    | StatusA | StatusB
    | ConfigurationA | ConfigurationB

  type CellNumber = n: nat | 1 <= n <= 12 witness 1
  type GpioNumber = n: nat | 1 <= n <= 5 witness 1
  type PairNumber = n: nat | 1 <= n <= 6 witness 1

  /** A conversion channel: `Cell1`..`Cell12`, `GPIO1`..`GPIO5` or the second reference. */
  datatype Channel = Cell(cell: CellNumber) | Gpio(pin: GpioNumber) | SecondReference

  /** The registers sharing a grouped index range. */
  datatype Family = CellFamily | AuxiliaryFamily | StatusFamily | ConfigurationFamily

  function FamilyOf(r: Register): Family
  {
    match r
    case CellVoltageA | CellVoltageB | CellVoltageC | CellVoltageD => CellFamily
    case AuxiliaryA | AuxiliaryB => AuxiliaryFamily
    case StatusA | StatusB => StatusFamily
    case ConfigurationA | ConfigurationB => ConfigurationFamily
  }

  /** The precalculated read command of a register. */
  function ReadCommand(r: Register): (cmd: seq<byte>)
    ensures |cmd| == 4
  {
    match r
    case CellVoltageA => Commands.ReadCellVoltageA
    case CellVoltageB => Commands.ReadCellVoltageB
    case CellVoltageC => Commands.ReadCellVoltageC
    case CellVoltageD => Commands.ReadCellVoltageD
    case AuxiliaryA => Commands.ReadAuxiliaryA
    case AuxiliaryB => Commands.ReadAuxiliaryB
    case StatusA => Commands.ReadStatusA
    case StatusB => Commands.ReadStatusB
    case ConfigurationA => Commands.ReadConfigurationA
    case ConfigurationB => Commands.ReadConfigurationB
  }

  /** The write command of a register: only the two configuration registers have one. */
  function WriteCommand(r: Register): (cmd: Result<seq<byte>, NoWriteCommandError>)
    ensures cmd.Ok? <==> FamilyOf(r) == ConfigurationFamily
    ensures cmd.Ok? ==> |cmd.value| == 4
  {
    match r
    case ConfigurationA => Ok(Commands.WriteConfigurationA)
    case ConfigurationB => Ok(Commands.WriteConfigurationB)
    case _ => Err(NoWriteCommandError)
  }

  /** Every command of the table carries a valid PEC. */
  lemma CommandsFramed(r: Register)
    ensures Pec15.Valid(ReadCommand(r))
    ensures WriteCommand(r).Ok? ==> Pec15.Valid(WriteCommand(r).value)
  {
    Commands.CellReadCommandsFramed();
    Commands.AuxiliaryReadCommandsFramed();
    Commands.StatusAndConfigurationCommandsFramed();
  }

  /** Distinct registers are read by distinct commands: the second byte of the command names the register. */
  lemma ReadCommandsDistinct(r: Register, s: Register)
    ensures ReadCommand(r) == ReadCommand(s) ==> r == s
  {
    assert ReadCommand(r)[1] == ReadCommand(s)[1] ==> r == s;
  }

  /** The index of a register within its family (`to_index`). */
  function ToIndex(r: Register): (i: nat)
    ensures i < 4
    ensures FamilyOf(r) != CellFamily ==> i < 2
  {
    match r
    case CellVoltageA => 0
    case CellVoltageB => 1
    case CellVoltageC => 2
    case CellVoltageD => 3
    case AuxiliaryA => 0
    case AuxiliaryB => 1
    case StatusA => 0
    case StatusB => 1
    case ConfigurationA => 0
    case ConfigurationB => 1
  }

  /** Within a family, the grouped index tells the registers apart. */
  lemma ToIndexInjective(r: Register, s: Register)
    requires FamilyOf(r) == FamilyOf(s) && ToIndex(r) == ToIndex(s)
    ensures r == s
  {
  }

  /** The zero-based cell index of a channel (`to_cell_index`). */
  function CellIndex(c: Channel): Option<nat>
  {
    match c
    case Cell(n) => Some(n - 1)
    case _ => None
  }

  /** The zero-based GPIO index of a channel (`to_gpio_index`). */
  function GpioIndex(c: Channel): Option<nat>
  {
    match c
    case Gpio(n) => Some(n - 1)
    case _ => None
  }

  /** What kind of input a channel is. */
  function TypeOf(c: Channel): ChannelType
  {
    match c
    case Gpio(_) => GpioChannel
    case SecondReference => ReferenceChannel
    case _ => CellChannel
  }

  /** A channel is a cell exactly when it has a cell index, a GPIO exactly when it has a GPIO index; the indices are in range and tell channels apart. */
  lemma ChannelClassification(c: Channel, e: Channel)
    ensures TypeOf(c) == CellChannel <==> CellIndex(c).Some?
    ensures TypeOf(c) == GpioChannel <==> GpioIndex(c).Some?
    ensures CellIndex(c).Some? ==> CellIndex(c).value < 12 && GpioIndex(c).None?
    ensures GpioIndex(c).Some? ==> GpioIndex(c).value < 5
    ensures CellIndex(c).Some? && CellIndex(c) == CellIndex(e) ==> c == e
    ensures GpioIndex(c).Some? && GpioIndex(c) == GpioIndex(e) ==> c == e
  {
  }

  function At(channel: Channel, register: Register, slot: nat): RegisterAddress<Register, Channel>
  {
    RegisterAddress(channel, register, slot)
  }

  /** Where each cell's result lives, ordered by the pairs of the cell conversion command. */
  const CellLocations: seq<RegisterAddress<Register, Channel>> := [
    At(Cell(1), CellVoltageA, 0), At(Cell(7), CellVoltageC, 0),
    At(Cell(2), CellVoltageA, 1), At(Cell(8), CellVoltageC, 1),
    At(Cell(3), CellVoltageA, 2), At(Cell(9), CellVoltageC, 2),
    At(Cell(4), CellVoltageB, 0), At(Cell(10), CellVoltageD, 0),
    At(Cell(5), CellVoltageB, 1), At(Cell(11), CellVoltageD, 1),
    At(Cell(6), CellVoltageB, 2), At(Cell(12), CellVoltageD, 2)]

  /** Where each GPIO's and the second reference's result lives. */
  const GpioLocations: seq<RegisterAddress<Register, Channel>> := [
    At(Gpio(1), AuxiliaryA, 0), At(Gpio(2), AuxiliaryA, 1), At(Gpio(3), AuxiliaryA, 2),
    At(Gpio(4), AuxiliaryB, 0), At(Gpio(5), AuxiliaryB, 1), At(SecondReference, AuxiliaryB, 2)]

  /** Cell N sits in cell register (N-1)/3 at slot (N-1)%3, and every slot is one of a register's three. */
  lemma CellLocationsPlacement()
    ensures |CellLocations| == 12 && Protocol.SlotsInRange(CellLocations)
    ensures forall k :: 0 <= k < 12 ==>
      var a := CellLocations[k];
      && a.channel.Cell? && FamilyOf(a.register) == CellFamily
      && ToIndex(a.register) == (a.channel.cell - 1) / 3 && a.slot == (a.channel.cell - 1) % 3
  {
  }

  /** Every cell appears in the table, and only once. */
  lemma CellLocationsComplete(n: CellNumber)
    ensures CellLocations[2 * ((n - 1) % 6) + (n - 1) / 6].channel == Cell(n)
    ensures forall j, k :: 0 <= j < k < 12 ==> CellLocations[j].channel != CellLocations[k].channel
  {
  }

  /** GPIO N sits in auxiliary register (N-1)/3 at slot (N-1)%3, the second reference last; each channel once. */
  lemma GpioLocationsPlacement()
    ensures |GpioLocations| == 6 && Protocol.SlotsInRange(GpioLocations)
    ensures forall k :: 0 <= k < 5 ==>
      GpioLocations[k].channel == Gpio(k + 1) && ToIndex(GpioLocations[k].register) == k / 3
      && FamilyOf(GpioLocations[k].register) == AuxiliaryFamily && GpioLocations[k].slot == k % 3
    ensures GpioLocations[5] == At(SecondReference, AuxiliaryB, 2)
  {
  }

  /** Which cells the cell conversion command converts: all, or one pair. */
  datatype CellSelection = AllCells | CellPair(pair: PairNumber)

  /** Which auxiliary inputs the auxiliary conversion command converts: all, one GPIO, or the second reference. */
  datatype GpioSelection = AllGpios | SingleGpio(pin: GpioNumber) | SecondReferenceOnly

  function CellBitmap(sel: CellSelection): (b: u16)
    ensures b <= 6 && (b == 0 <==> sel.AllCells?)
  {
    match sel
    case AllCells => 0
    case CellPair(k) => k as u16
  }

  function GpioBitmap(sel: GpioSelection): (b: u16)
    ensures b <= 6 && (b == 0 <==> sel.AllGpios?)
  {
    match sel
    case AllGpios => 0
    case SingleGpio(k) => k as u16
    case SecondReferenceOnly => 6
  }

  /** The command bits tell every cell selection apart. */
  lemma CellBitmapInjective(c: CellSelection, d: CellSelection)
    ensures CellBitmap(c) == CellBitmap(d) ==> c == d
  {
  }

  /** The command bits tell every GPIO selection apart. */
  lemma GpioBitmapInjective(g: GpioSelection, h: GpioSelection)
    ensures GpioBitmap(g) == GpioBitmap(h) ==> g == h
  {
  }

  /** The locations a cell selection reads: all of them, or the two entries of one pair. */
  function CellSelectionLocations(sel: CellSelection): (locs: seq<RegisterAddress<Register, Channel>>)
  {
    match sel
    case AllCells => CellLocations
    case CellPair(k) => CellLocations[2 * (k - 1)..2 * k]
  }

  /** The locations a GPIO selection reads: all of them, or the single entry selected. */
  function GpioSelectionLocations(sel: GpioSelection): (locs: seq<RegisterAddress<Register, Channel>>)
  {
    match sel
    case AllGpios => GpioLocations
    case SingleGpio(k) => GpioLocations[k - 1..k]
    case SecondReferenceOnly => GpioLocations[5..6]
  }

  /** Cell pair K converts cells K and K+6. */
  lemma CellPairMembers(k: PairNumber)
    ensures |CellSelectionLocations(CellPair(k))| == 2
    ensures CellSelectionLocations(CellPair(k))[0].channel == Cell(k)
    ensures CellSelectionLocations(CellPair(k))[1].channel == Cell(k + 6)
  {
    var g := CellSelectionLocations(CellPair(k));
    assert g == [CellLocations[2 * k - 2], CellLocations[2 * k - 1]];
    if k == 1 {
    } else if k == 2 {
    } else if k == 3 {
    } else if k == 4 {
    } else if k == 5 {
    } else {
    }
  }

  /** A single-input GPIO selection reads exactly the location of that input. */
  lemma GpioSelectionMembers(k: GpioNumber)
    ensures GpioSelectionLocations(SingleGpio(k)) == [At(Gpio(k), if k <= 3 then AuxiliaryA else AuxiliaryB, (k - 1) % 3)]
    ensures GpioSelectionLocations(SecondReferenceOnly) == [At(SecondReference, AuxiliaryB, 2)]
  {
  }

  /** The LTC6811 as the generic client sees it, with the status calibration as a parameter. */
  function Descriptor(cal: Calibration): (d: Device.Descriptor<Register>)
    ensures d.cellCount == 12 && d.gpioCount == 5
    ensures d.overlapRegister1 == Some(CellVoltageC) && d.overlapRegister2 == None
    ensures d.statusA == StatusA && d.statusB == StatusB
    ensures d.configurationA == ConfigurationA && d.configurationB == Some(ConfigurationB)
  {
    Device.Descriptor(ReadCommand, WriteCommand, ToIndex, 12, 5, Some(CellVoltageC), None,
      StatusA, StatusB, ConfigurationA, Some(ConfigurationB), cal)
  }

  /** The descriptor meets what the generic client relies on whenever the calibration does. */
  lemma DescriptorWellFormed(cal: Calibration)
    requires cal.totalVoltageFactor <= MaxTotalVoltageFactor && cal.tempGain != 0
    ensures WellFormed(Descriptor(cal))
  {
  }

  /** Two locations in the given registers. */
  predicate InRegisters(row: seq<RegisterAddress<Register, Channel>>, a: Register, b: Register)
  {
    |row| == 2 && row[0].register == a && row[1].register == b
  }

  /**
   * Converting all cells, `read_voltages` reads the four cell registers
   * once each, in the order A, C, B, D in which their first cells appear.
   */
  lemma AllCellsReadOrder(cal: Calibration)
    ensures Protocol.FirstReads(Descriptor(cal), CellLocations) == [CellVoltageA, CellVoltageC, CellVoltageB, CellVoltageD]
    ensures Protocol.IndexSet(Descriptor(cal), CellLocations) == {0, 1, 2, 3}
  {
    var d := Descriptor(cal);
    var r1 := [At(Cell(1), CellVoltageA, 0), At(Cell(7), CellVoltageC, 0)];
    var r2 := [At(Cell(2), CellVoltageA, 1), At(Cell(8), CellVoltageC, 1)];
    var r3 := [At(Cell(3), CellVoltageA, 2), At(Cell(9), CellVoltageC, 2)];
    var r4 := [At(Cell(4), CellVoltageB, 0), At(Cell(10), CellVoltageD, 0)];
    var r5 := [At(Cell(5), CellVoltageB, 1), At(Cell(11), CellVoltageD, 1)];
    var r6 := [At(Cell(6), CellVoltageB, 2), At(Cell(12), CellVoltageD, 2)];
    assert CellLocations == r1 + r2 + r3 + r4 + r5 + r6;
    UpperRowsRead(d, r1, r2, r3);
    LowerRowsRead(d, r1 + r2 + r3, r4, r5, r6);
  }

  /** The first three pairs of the cell table read registers A and C. */
  lemma UpperRowsRead(d: Device.Descriptor<Register>, r1: seq<RegisterAddress<Register, Channel>>,
      r2: seq<RegisterAddress<Register, Channel>>, r3: seq<RegisterAddress<Register, Channel>>)
    requires d.toIndex == ToIndex
    requires InRegisters(r1, CellVoltageA, CellVoltageC)
    requires InRegisters(r2, CellVoltageA, CellVoltageC)
    requires InRegisters(r3, CellVoltageA, CellVoltageC)
    ensures Protocol.IndexSet(d, r1 + r2 + r3) == {0, 2}
    ensures Protocol.FirstReads(d, r1 + r2 + r3) == [CellVoltageA, CellVoltageC]
  {
    FirstRowRead(d, r1);
    KnownRowRead(d, r1, r2, CellVoltageA, CellVoltageC);
    KnownRowRead(d, r1 + r2, r3, CellVoltageA, CellVoltageC);
  }

  /** A pair whose registers were both read before reads nothing. */
  lemma KnownRowRead(d: Device.Descriptor<Register>, p: seq<RegisterAddress<Register, Channel>>,
      r: seq<RegisterAddress<Register, Channel>>, a: Register, b: Register)
    requires d.toIndex == ToIndex && InRegisters(r, a, b)
    requires ToIndex(a) in Protocol.IndexSet(d, p) && ToIndex(b) in Protocol.IndexSet(d, p)
    ensures Protocol.IndexSet(d, p + r) == Protocol.IndexSet(d, p)
    ensures Protocol.FirstReads(d, p + r) == Protocol.FirstReads(d, p)
  {
    Protocol.FirstReadsAppendKnown(d, p, r);
  }

  /** The first pair of the cell table reads registers A and C. */
  lemma FirstRowRead(d: Device.Descriptor<Register>, r: seq<RegisterAddress<Register, Channel>>)
    requires d.toIndex == ToIndex && InRegisters(r, CellVoltageA, CellVoltageC)
    ensures Protocol.IndexSet(d, r) == {0, 2}
    ensures Protocol.FirstReads(d, r) == [CellVoltageA, CellVoltageC]
  {
    var empty: seq<RegisterAddress<Register, Channel>> := [];
    Protocol.FirstReadsStep(d, empty, r[0]);
    Protocol.FirstReadsStep(d, [r[0]], r[1]);
    assert [r[0]] + [r[1]] == r;
  }

  /** The last three pairs of the cell table add registers B and D. */
  lemma LowerRowsRead(d: Device.Descriptor<Register>, p: seq<RegisterAddress<Register, Channel>>,
      r4: seq<RegisterAddress<Register, Channel>>, r5: seq<RegisterAddress<Register, Channel>>,
      r6: seq<RegisterAddress<Register, Channel>>)
    requires d.toIndex == ToIndex && Protocol.IndexSet(d, p) == {0, 2}
    requires InRegisters(r4, CellVoltageB, CellVoltageD)
    requires InRegisters(r5, CellVoltageB, CellVoltageD)
    requires InRegisters(r6, CellVoltageB, CellVoltageD)
    ensures Protocol.IndexSet(d, p + r4 + r5 + r6) == {0, 1, 2, 3}
    ensures Protocol.FirstReads(d, p + r4 + r5 + r6) == Protocol.FirstReads(d, p) + [CellVoltageB, CellVoltageD]
  {
    FourthRowRead(d, p, r4);
    KnownRowRead(d, p + r4, r5, CellVoltageB, CellVoltageD);
    KnownRowRead(d, p + r4 + r5, r6, CellVoltageB, CellVoltageD);
  }

  /** The fourth pair of the cell table adds registers B and D. */
  lemma FourthRowRead(d: Device.Descriptor<Register>, p: seq<RegisterAddress<Register, Channel>>,
      r: seq<RegisterAddress<Register, Channel>>)
    requires d.toIndex == ToIndex && InRegisters(r, CellVoltageB, CellVoltageD)
    requires Protocol.IndexSet(d, p) == {0, 2}
    ensures Protocol.IndexSet(d, p + r) == {0, 1, 2, 3}
    ensures Protocol.FirstReads(d, p + r) == Protocol.FirstReads(d, p) + [CellVoltageB, CellVoltageD]
  {
    var f := Protocol.FirstReads(d, p);
    var p1 := p + [r[0]];
    assert Protocol.IndexSet(d, p1) == {0, 1, 2} && Protocol.FirstReads(d, p1) == f + [CellVoltageB] by {
      Protocol.FirstReadsStep(d, p, r[0]);
    }
    assert p1 + [r[1]] == p + r;
    Protocol.FirstReadsStep(d, p1, r[1]);
  }
}
