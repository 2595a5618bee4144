/**
 * The LTC6810: six cells in two cell-voltage registers, the S0 input, four
 * GPIOs and the second reference in two auxiliary registers, two status
 * registers and a single configuration register. It has no overlap test
 * registers; only its cell conversion carries timing.
 */
module Ltc6810 {
  import opened Bytes
  import opened Wrappers
  import opened Device
  import Commands
  import Pec15
  import Protocol

  datatype Register =
    | CellVoltageA | CellVoltageB
    | AuxiliaryA | AuxiliaryB
    | StatusA | StatusB
    | Configuration

  type CellNumber = n: nat | 1 <= n <= 6 witness 1
  type GpioNumber = n: nat | 1 <= n <= 4 witness 1

  /** A conversion channel: `Cell1`..`Cell6`, `GPIO1`..`GPIO4`, the S0 input or the second reference. */
  datatype Channel = Cell(cell: CellNumber) | Gpio(pin: GpioNumber) | S0 | SecondReference

  /** The registers sharing a grouped index range. */
  datatype Family = CellFamily | AuxiliaryFamily | StatusFamily | ConfigurationFamily

  function FamilyOf(r: Register): Family
  {
    match r
    case CellVoltageA | CellVoltageB => CellFamily
    case AuxiliaryA | AuxiliaryB => AuxiliaryFamily
    case StatusA | StatusB => StatusFamily
    case Configuration => ConfigurationFamily
  }

  /** The precalculated read command of a register; the configuration register is read as configuration group A. */
  function ReadCommand(r: Register): (cmd: seq<byte>)
    ensures |cmd| == 4
    ensures r == Configuration ==> cmd == Commands.ReadConfigurationA
  {
    match r
    case CellVoltageA => Commands.ReadCellVoltageA
    case CellVoltageB => Commands.ReadCellVoltageB
    case AuxiliaryA => Commands.ReadAuxiliaryA
    case AuxiliaryB => Commands.ReadAuxiliaryB
    case StatusA => Commands.ReadStatusA
    case StatusB => Commands.ReadStatusB
    case Configuration => Commands.ReadConfigurationA
  }

  /** The write command of a register: only the configuration register has one, that of group A. */
  function WriteCommand(r: Register): (cmd: Result<seq<byte>, NoWriteCommandError>)
    ensures cmd.Ok? <==> r == Configuration
    ensures cmd.Ok? ==> cmd.value == Commands.WriteConfigurationA
  {
    match r
    case Configuration => Ok(Commands.WriteConfigurationA)
    case _ => Err(NoWriteCommandError)
  }

  /** Every command of the table carries a valid PEC. */
  lemma CommandsFramed(r: Register)
    ensures Pec15.Valid(ReadCommand(r))
    ensures WriteCommand(r).Ok? ==> Pec15.Valid(WriteCommand(r).value)
  {
    Commands.CellReadCommandsFramed();
    Commands.AuxiliaryReadCommandsFramed();
    Commands.StatusAndConfigurationCommandsFramed();
  }

  /** Distinct registers are read by distinct commands: the second byte of the command names the register. */
  lemma ReadCommandsDistinct(r: Register, s: Register)
    ensures ReadCommand(r) == ReadCommand(s) ==> r == s
  {
    assert ReadCommand(r)[1] == ReadCommand(s)[1] ==> r == s;
  }

  /** The index of a register within its family (`to_index`). */
  function ToIndex(r: Register): (i: nat)
    ensures i < 2
    ensures FamilyOf(r) == ConfigurationFamily ==> i == 0
  {
    match r
    case CellVoltageA => 0
    case CellVoltageB => 1
    case AuxiliaryA => 0
    case AuxiliaryB => 1
    case StatusA => 0
    case StatusB => 1
    case Configuration => 0
  }

  /** Within a family, the grouped index tells the registers apart. */
  lemma ToIndexInjective(r: Register, s: Register)
    requires FamilyOf(r) == FamilyOf(s) && ToIndex(r) == ToIndex(s)
    ensures r == s
  {
  }

  /** The zero-based cell index of a channel (`to_cell_index`). */
  function CellIndex(c: Channel): Option<nat>
  {
    match c
    case Cell(n) => Some(n - 1)
    case _ => None
  }

  /** The zero-based GPIO index of a channel (`to_gpio_index`). */
  function GpioIndex(c: Channel): Option<nat>
  {
    match c
    case Gpio(n) => Some(n - 1)
    case _ => None
  }

  /** What kind of input a channel is: GPIOs and the second reference by name, everything else a cell. */
  function TypeOf(c: Channel): ChannelType
  {
    match c
    case Gpio(_) => GpioChannel
    case SecondReference => ReferenceChannel
    case _ => CellChannel
  }

  /**
   * A GPIO exactly when it has a GPIO index; a cell-typed channel has a cell
   * index, except S0, which counts as a cell but has neither index. The
   * indices are in range and tell channels apart.
   */
  lemma ChannelClassification(c: Channel, e: Channel)
    ensures TypeOf(c) == CellChannel <==> CellIndex(c).Some? || c == S0
    ensures TypeOf(c) == GpioChannel <==> GpioIndex(c).Some?
    ensures c == S0 ==> CellIndex(c).None? && GpioIndex(c).None?
    ensures CellIndex(c).Some? ==> CellIndex(c).value < 6 && GpioIndex(c).None?
    ensures GpioIndex(c).Some? ==> GpioIndex(c).value < 4
    ensures CellIndex(c).Some? && CellIndex(c) == CellIndex(e) ==> c == e
    ensures GpioIndex(c).Some? && GpioIndex(c) == GpioIndex(e) ==> c == e
  {
  }

  function At(channel: Channel, register: Register, slot: nat): RegisterAddress<Register, Channel>
  {
    RegisterAddress(channel, register, slot)
  }

  /** Where each cell's result lives. */
  const CellLocations: seq<RegisterAddress<Register, Channel>> := [
    At(Cell(1), CellVoltageA, 0), At(Cell(2), CellVoltageA, 1), At(Cell(3), CellVoltageA, 2),
    At(Cell(4), CellVoltageB, 0), At(Cell(5), CellVoltageB, 1), At(Cell(6), CellVoltageB, 2)]

  /** Where S0's, each GPIO's and the second reference's result lives. */
  const GpioLocations: seq<RegisterAddress<Register, Channel>> := [
    At(S0, AuxiliaryA, 0), At(Gpio(1), AuxiliaryA, 1), At(Gpio(2), AuxiliaryA, 2),
    At(Gpio(3), AuxiliaryB, 0), At(Gpio(4), AuxiliaryB, 1), At(SecondReference, AuxiliaryB, 2)]

  /** Cell N is entry N-1 of the table, in cell register (N-1)/3 at slot (N-1)%3; each cell once. */
  lemma CellLocationsPlacement()
    ensures |CellLocations| == 6 && Protocol.SlotsInRange(CellLocations)
    ensures forall k :: 0 <= k < 6 ==>
      && CellLocations[k].channel == Cell(k + 1) && FamilyOf(CellLocations[k].register) == CellFamily
      && ToIndex(CellLocations[k].register) == k / 3 && CellLocations[k].slot == k % 3
  {
  }

  /** S0 comes first, then GPIO N one place later than in the numbering, and the second reference last; all in auxiliary registers. */
  lemma GpioLocationsPlacement()
    ensures |GpioLocations| == 6 && Protocol.SlotsInRange(GpioLocations)
    ensures GpioLocations[0] == At(S0, AuxiliaryA, 0)
    ensures forall k :: 1 <= k < 5 ==>
      GpioLocations[k].channel == Gpio(k) && ToIndex(GpioLocations[k].register) == k / 3
      && FamilyOf(GpioLocations[k].register) == AuxiliaryFamily && GpioLocations[k].slot == k % 3
    ensures GpioLocations[5] == At(SecondReference, AuxiliaryB, 2)
  {
  }

  /** Which cells the cell conversion command converts: all, or a single one. */
  datatype CellSelection = AllCells | SingleCell(cell: CellNumber)

  /** Which auxiliary inputs the auxiliary conversion command converts: all, S0, one GPIO, or the second reference. */
  datatype GpioSelection = AllGpios | S0Only | SingleGpio(pin: GpioNumber) | SecondReferenceOnly

  function CellBitmap(sel: CellSelection): (b: u16)
    ensures b <= 6 && (b == 0 <==> sel.AllCells?)
  {
    match sel
    case AllCells => 0
    case SingleCell(n) => n as u16
  }

  function GpioBitmap(sel: GpioSelection): (b: u16)
    ensures b <= 6 && (b == 0 <==> sel.AllGpios?)
  {
    match sel
    case AllGpios => 0
    case S0Only => 1
    case SingleGpio(n) => (n + 1) as u16
    case SecondReferenceOnly => 6
  }

  /** The command bits tell every cell selection apart. */
  lemma CellBitmapInjective(c: CellSelection, d: CellSelection)
    ensures CellBitmap(c) == CellBitmap(d) ==> c == d
  {
  }

  /** The command bits tell every GPIO selection apart. */
  lemma GpioBitmapInjective(g: GpioSelection, h: GpioSelection)
    ensures GpioBitmap(g) == GpioBitmap(h) ==> g == h
  {
  }

  /** The locations a cell selection reads: all of them, or the entry of the single cell. */
  function CellSelectionLocations(sel: CellSelection): (locs: seq<RegisterAddress<Register, Channel>>)
  {
    match sel
    case AllCells => CellLocations
    case SingleCell(n) => CellLocations[n - 1..n]
  }

  /** The locations a GPIO selection reads: all of them, or the single entry selected. */
  function GpioSelectionLocations(sel: GpioSelection): (locs: seq<RegisterAddress<Register, Channel>>)
  {
    match sel
    case AllGpios => GpioLocations
    case S0Only => GpioLocations[0..1]
    case SingleGpio(n) => GpioLocations[n..n + 1]
    case SecondReferenceOnly => GpioLocations[5..6]
  }

  /** A single-cell selection reads exactly the location of that cell. */
  lemma CellSelectionMembers(n: CellNumber)
    ensures CellSelectionLocations(SingleCell(n)) == [At(Cell(n), if n <= 3 then CellVoltageA else CellVoltageB, (n - 1) % 3)]
  {
    assert CellSelectionLocations(SingleCell(n)) == [CellLocations[n - 1]];
    if n == 1 {
    } else if n == 2 {
    } else if n == 3 {
    } else if n == 4 {
    } else if n == 5 {
    } else {
    }
  }

  /** A single-input GPIO selection reads exactly the location of that input. */
  lemma GpioSelectionMembers(k: GpioNumber)
    ensures GpioSelectionLocations(SingleGpio(k)) == [At(Gpio(k), if k <= 2 then AuxiliaryA else AuxiliaryB, k % 3)]
    ensures GpioSelectionLocations(S0Only) == [At(S0, AuxiliaryA, 0)]
    ensures GpioSelectionLocations(SecondReferenceOnly) == [At(SecondReference, AuxiliaryB, 2)]
  {
    assert GpioSelectionLocations(SingleGpio(k)) == [GpioLocations[k]];
    if k == 1 {
    } else if k == 2 {
    } else if k == 3 {
    } else {
    }
  }

  /** How long a cell conversion takes. */
  function CellTiming(sel: CellSelection, mode: AdcMode): (t: CommandTime)
    ensures 0 < t.regular && 0 < t.alternative
  {
    if sel.AllCells? then
      match mode
      case Fast => CommandTime(1106, 1281)
      case Normal => CommandTime(2328, 3026)
      case Filtered => CommandTime(201310, 4423)
      case Other => CommandTime(12801, 7215)
    else
      match mode
      case Fast => CommandTime(200, 229)
      case Normal => CommandTime(404, 520)
      case Filtered => CommandTime(33567, 753)
      case Other => CommandTime(2149, 1218)
  }

  /** Converting one cell takes less time than converting all six, in both ADC settings, and the same for every cell. */
  lemma SingleCellConvertsFaster(n: CellNumber, m: CellNumber, mode: AdcMode)
    ensures CellTiming(SingleCell(n), mode).regular < CellTiming(AllCells, mode).regular
    ensures CellTiming(SingleCell(n), mode).alternative < CellTiming(AllCells, mode).alternative
    ensures CellTiming(SingleCell(n), mode) == CellTiming(SingleCell(m), mode)
  {
  }

  /** A cell selection as the generic client uses it. */
  function CellSelectionOf(sel: CellSelection): (s: Selection)
    ensures s.bitmap == CellBitmap(sel)
  {
    Selection(CellBitmap(sel), mode => CellTiming(sel, mode))
  }

  /** The LTC6810 as the generic client sees it, with the status calibration as a parameter. */
  function Descriptor(cal: Calibration): (d: Device.Descriptor<Register>)
    ensures d.cellCount == 6 && d.gpioCount == 4
    ensures d.overlapRegister1 == None && d.overlapRegister2 == None
    ensures d.statusA == StatusA && d.statusB == StatusB
    ensures d.configurationA == Configuration && d.configurationB == None
  {
    Device.Descriptor(ReadCommand, WriteCommand, ToIndex, 6, 4, None, None,
      StatusA, StatusB, Configuration, None, cal)
  }

  /** The descriptor meets what the generic client relies on whenever the calibration does. */
  lemma DescriptorWellFormed(cal: Calibration)
    requires cal.totalVoltageFactor <= MaxTotalVoltageFactor && cal.tempGain != 0
    ensures WellFormed(Descriptor(cal))
  {
  }

  /**
   * Without overlap test registers, `read_overlap_result` touches no
   * register and reports zero for every device.
   */
  lemma OverlapReadsNothing(cal: Calibration, l: Protocol.Link, n: nat)
    requires n >= 1
    ensures Protocol.ReadOverlapResult(Descriptor(cal), l, n).0 == l
    ensures Protocol.ReadOverlapResult(Descriptor(cal), l, n).1.Ok?
    ensures forall i, k :: 0 <= i < n && 0 <= k < 4 ==> Protocol.ReadOverlapResult(Descriptor(cal), l, n).1.value[i][k] == 0
  {
    Protocol.OverlapWithoutRegisters(Descriptor(cal), l, n);
  }

  /** Converting all cells, `read_voltages` reads cell register A, then B, once each. */
  lemma AllCellsReadOrder(cal: Calibration)
    ensures Protocol.FirstReads(Descriptor(cal), CellLocations) == [CellVoltageA, CellVoltageB]
    ensures Protocol.IndexSet(Descriptor(cal), CellLocations) == {0, 1}
  {
    var d := Descriptor(cal);
    var empty: seq<RegisterAddress<Register, Channel>> := [];
    var a := CellLocations[..3];
    var b := CellLocations[3..];
    assert CellLocations == a + b;
    Protocol.FirstReadsStep(d, empty, a[0]);
    assert [a[0]] == empty + [a[0]];
    Protocol.FirstReadsAppendKnown(d, [a[0]], a[1..]);
    assert a == [a[0]] + a[1..];
    var c := [b[0]];
    Protocol.FirstReadsStep(d, a, b[0]);
    Protocol.FirstReadsAppendKnown(d, a + c, b[1..]);
    assert a + c + b[1..] == a + b;
  }
}
