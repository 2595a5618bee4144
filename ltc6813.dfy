/**
 * The LTC6813: eighteen cells in six cell-voltage registers, nine GPIOs and
 * the second reference in four auxiliary registers, two status registers and
 * two configuration registers. Its tables say which command reads and writes
 * each register, where each channel's result lives, and how long each
 * conversion takes.
 */
module Ltc6813 {
  import opened Bytes
  import opened Wrappers
  import opened Device
  import Commands
  import Pec15
  import Protocol

  datatype Register =
    | CellVoltageA | CellVoltageB | CellVoltageC | CellVoltageD | CellVoltageE | CellVoltageF
    | AuxiliaryA | AuxiliaryB | AuxiliaryC | AuxiliaryD
    | StatusA | StatusB
    | ConfigurationA | ConfigurationB

  type CellNumber = n: nat | 1 <= n <= 18 witness 1
  type GpioNumber = n: nat | 1 <= n <= 9 witness 1
  type GroupNumber = n: nat | 1 <= n <= 6 witness 1

  /** A conversion channel: `Cell1`..`Cell18`, `GPIO1`..`GPIO9` or the second reference. */
  datatype Channel = Cell(cell: CellNumber) | Gpio(pin: GpioNumber) | SecondReference

  /** The registers sharing a grouped index range. */
  datatype Family = CellFamily | AuxiliaryFamily | StatusFamily | ConfigurationFamily

  function FamilyOf(r: Register): Family
  {
    match r
    case CellVoltageA | CellVoltageB | CellVoltageC | CellVoltageD | CellVoltageE | CellVoltageF => CellFamily
    case AuxiliaryA | AuxiliaryB | AuxiliaryC | AuxiliaryD => AuxiliaryFamily
    case StatusA | StatusB => StatusFamily
    case ConfigurationA | ConfigurationB => ConfigurationFamily
  }

  /** The precalculated read command of a register. */
  function ReadCommand(r: Register): (cmd: seq<byte>)
    ensures |cmd| == 4
  {
    match r
    case CellVoltageA => Commands.ReadCellVoltageA
    case CellVoltageB => Commands.ReadCellVoltageB
    case CellVoltageC => Commands.ReadCellVoltageC
    case CellVoltageD => Commands.ReadCellVoltageD
    case CellVoltageE => Commands.ReadCellVoltageE
    case CellVoltageF => Commands.ReadCellVoltageF
    case AuxiliaryA => Commands.ReadAuxiliaryA
    case AuxiliaryB => Commands.ReadAuxiliaryB
    case AuxiliaryC => Commands.ReadAuxiliaryC
    case AuxiliaryD => Commands.ReadAuxiliaryD
    case StatusA => Commands.ReadStatusA
    case StatusB => Commands.ReadStatusB
    case ConfigurationA => Commands.ReadConfigurationA
    case ConfigurationB => Commands.ReadConfigurationB
  }

  /** The write command of a register: only the two configuration registers have one. */
  function WriteCommand(r: Register): (cmd: Result<seq<byte>, NoWriteCommandError>)
    ensures cmd.Ok? <==> FamilyOf(r) == ConfigurationFamily
    ensures cmd.Ok? ==> |cmd.value| == 4
  {
    match r
    case ConfigurationA => Ok(Commands.WriteConfigurationA)
    case ConfigurationB => Ok(Commands.WriteConfigurationB)
    case _ => Err(NoWriteCommandError)
  }

  /** Every command of the table carries a valid PEC. */
  lemma CommandsFramed(r: Register)
    ensures Pec15.Valid(ReadCommand(r))
    ensures WriteCommand(r).Ok? ==> Pec15.Valid(WriteCommand(r).value)
  {
    Commands.CellReadCommandsFramed();
    Commands.AuxiliaryReadCommandsFramed();
    Commands.StatusAndConfigurationCommandsFramed();
  }

  /** Distinct registers are read by distinct commands: the second byte of the command names the register. */
  lemma ReadCommandsDistinct(r: Register, s: Register)
    ensures ReadCommand(r) == ReadCommand(s) ==> r == s
  {
    assert ReadCommand(r)[1] == ReadCommand(s)[1] ==> r == s;
  }

  /** The index of a register within its family (`to_index`). */
  function ToIndex(r: Register): (i: nat)
    ensures i < 6
    ensures FamilyOf(r) != CellFamily ==> i < 4
  {
    match r
    case CellVoltageA => 0
    case CellVoltageB => 1
    case CellVoltageC => 2
    case CellVoltageD => 3
    case CellVoltageE => 4
    case CellVoltageF => 5
    case AuxiliaryA => 0
    case AuxiliaryB => 1
    case AuxiliaryC => 2
    case AuxiliaryD => 3
    case StatusA => 0
    case StatusB => 1
    case ConfigurationA => 0
    case ConfigurationB => 1
  }

  /** Within a family, the grouped index tells the registers apart. */
  lemma ToIndexInjective(r: Register, s: Register)
    requires FamilyOf(r) == FamilyOf(s) && ToIndex(r) == ToIndex(s)
    ensures r == s
  {
  }

  /** The zero-based cell index of a channel (`to_cell_index`). */
  function CellIndex(c: Channel): Option<nat>
  {
    match c
    case Cell(n) => Some(n - 1)
    case _ => None
  }

  /** The zero-based GPIO index of a channel (`to_gpio_index`). */
  function GpioIndex(c: Channel): Option<nat>
  {
    match c
    case Gpio(n) => Some(n - 1)
    case _ => None
  }

  /** What kind of input a channel is. */
  function TypeOf(c: Channel): ChannelType
  {
    match c
    case Gpio(_) => GpioChannel
    case SecondReference => ReferenceChannel
    case _ => CellChannel
  }

  /** A channel is a cell exactly when it has a cell index, a GPIO exactly when it has a GPIO index; the indices are in range and tell channels apart. */
  lemma ChannelClassification(c: Channel, e: Channel)
    ensures TypeOf(c) == CellChannel <==> CellIndex(c).Some?
    ensures TypeOf(c) == GpioChannel <==> GpioIndex(c).Some?
    ensures CellIndex(c).Some? ==> CellIndex(c).value < 18 && GpioIndex(c).None?
    ensures GpioIndex(c).Some? ==> GpioIndex(c).value < 9
    ensures CellIndex(c).Some? && CellIndex(c) == CellIndex(e) ==> c == e
    ensures GpioIndex(c).Some? && GpioIndex(c) == GpioIndex(e) ==> c == e
  {
  }

  function At(channel: Channel, register: Register, slot: nat): RegisterAddress<Register, Channel>
  {
    RegisterAddress(channel, register, slot)
  }

  /** Where each cell's result lives, ordered by the groups of the cell conversion command. */
  const CellLocations: seq<RegisterAddress<Register, Channel>> := [
    At(Cell(1), CellVoltageA, 0), At(Cell(7), CellVoltageC, 0), At(Cell(13), CellVoltageE, 0),
    At(Cell(2), CellVoltageA, 1), At(Cell(8), CellVoltageC, 1), At(Cell(14), CellVoltageE, 1),
    At(Cell(3), CellVoltageA, 2), At(Cell(9), CellVoltageC, 2), At(Cell(15), CellVoltageE, 2),
    At(Cell(4), CellVoltageB, 0), At(Cell(10), CellVoltageD, 0), At(Cell(16), CellVoltageF, 0),
    At(Cell(5), CellVoltageB, 1), At(Cell(11), CellVoltageD, 1), At(Cell(17), CellVoltageF, 1),
    At(Cell(6), CellVoltageB, 2), At(Cell(12), CellVoltageD, 2), At(Cell(18), CellVoltageF, 2)]

  /** Where each GPIO's and the second reference's result lives, ordered by the GPIO groups. */
  const GpioLocations: seq<RegisterAddress<Register, Channel>> := [
    At(Gpio(1), AuxiliaryA, 0), At(Gpio(6), AuxiliaryC, 0),
    At(Gpio(2), AuxiliaryA, 1), At(Gpio(7), AuxiliaryC, 1),
    At(Gpio(3), AuxiliaryA, 2), At(Gpio(8), AuxiliaryC, 2),
    At(Gpio(4), AuxiliaryB, 0), At(Gpio(9), AuxiliaryD, 0),
    At(Gpio(5), AuxiliaryB, 1), At(SecondReference, AuxiliaryB, 2)]

  /** Cell N sits in cell register (N-1)/3 at slot (N-1)%3, and every slot is one of a register's three. */
  lemma CellLocationsPlacement()
    ensures |CellLocations| == 18 && Protocol.SlotsInRange(CellLocations)
    ensures forall k :: 0 <= k < 18 ==>
      var a := CellLocations[k];
      && a.channel.Cell? && FamilyOf(a.register) == CellFamily
      && ToIndex(a.register) == (a.channel.cell - 1) / 3 && a.slot == (a.channel.cell - 1) % 3
  {
  }

  /** Every cell appears in the table, and only once. */
  lemma CellLocationsComplete(n: CellNumber)
    ensures CellLocations[3 * ((n - 1) % 6) + (n - 1) / 6].channel == Cell(n)
    ensures forall j, k :: 0 <= j < k < 18 ==> CellLocations[j].channel != CellLocations[k].channel
  {
  }

  /** GPIO N sits in auxiliary register A or B for N <= 5, in C or D above, and the second reference last in B. */
  lemma GpioLocationsPlacement()
    ensures |GpioLocations| == 10 && Protocol.SlotsInRange(GpioLocations)
    ensures forall k :: 0 <= k < 10 ==>
      var a := GpioLocations[k];
      && FamilyOf(a.register) == AuxiliaryFamily && !a.channel.Cell?
      && (a.channel.Gpio? && a.channel.pin <= 5 ==>
        ToIndex(a.register) == (a.channel.pin - 1) / 3 && a.slot == (a.channel.pin - 1) % 3)
      && (a.channel.Gpio? && a.channel.pin > 5 ==>
        ToIndex(a.register) == 2 + (a.channel.pin - 6) / 3 && a.slot == (a.channel.pin - 6) % 3)
      && (a.channel.SecondReference? ==> a.register == AuxiliaryB && a.slot == 2)
    ensures forall j, k :: 0 <= j < k < 10 ==> GpioLocations[j].channel != GpioLocations[k].channel
  {
  }

  /** Which cells the cell conversion command converts. */
  datatype CellSelection = AllCells | CellGroup(group: GroupNumber)

  /** Which GPIOs the auxiliary conversion command converts. */
  datatype GpioSelection = AllGpios | GpioGroup(group: GroupNumber)

  function CellBitmap(sel: CellSelection): (b: u16)
    ensures b <= 6 && (b == 0 <==> sel.AllCells?)
  {
    match sel
    case AllCells => 0
    case CellGroup(k) => k as u16
  }

  function GpioBitmap(sel: GpioSelection): (b: u16)
    ensures b <= 6 && (b == 0 <==> sel.AllGpios?)
  {
    match sel
    case AllGpios => 0
    case GpioGroup(k) => k as u16
  }

  /** The command bits tell every cell selection apart. */
  lemma CellBitmapInjective(c: CellSelection, d: CellSelection)
    ensures CellBitmap(c) == CellBitmap(d) ==> c == d
  {
  }

  /** The command bits tell every GPIO selection apart. */
  lemma GpioBitmapInjective(g: GpioSelection, h: GpioSelection)
    ensures GpioBitmap(g) == GpioBitmap(h) ==> g == h
  {
  }

  /** The locations a cell selection reads: all of them, or the three entries of one group. */
  function CellSelectionLocations(sel: CellSelection): (locs: seq<RegisterAddress<Register, Channel>>)
  {
    match sel
    case AllCells => CellLocations
    case CellGroup(k) => CellLocations[3 * (k - 1)..3 * k]
  }

  /** The locations a GPIO selection reads: pairs for groups 1 to 4, single entries for 5 and 6. */
  function GpioSelectionLocations(sel: GpioSelection): (locs: seq<RegisterAddress<Register, Channel>>)
  {
    match sel
    case AllGpios => GpioLocations
    case GpioGroup(k) =>
      if k <= 4 then GpioLocations[2 * (k - 1)..2 * k]
      else if k == 5 then GpioLocations[8..9]
      else GpioLocations[9..10]
  }

  /** Cell group K converts cells K, K+6 and K+12. */
  lemma CellGroupsMembers(k: GroupNumber)
    ensures |CellSelectionLocations(CellGroup(k))| == 3
    ensures CellSelectionLocations(CellGroup(k))[0].channel == Cell(k)
    ensures CellSelectionLocations(CellGroup(k))[1].channel == Cell(k + 6)
    ensures CellSelectionLocations(CellGroup(k))[2].channel == Cell(k + 12)
  {
    var g := CellSelectionLocations(CellGroup(k));
    assert g[0] == CellLocations[3 * (k - 1)] && g[1] == CellLocations[3 * (k - 1) + 1];
    assert g[2] == CellLocations[3 * (k - 1) + 2];
  }

  /** Together the six groups are the whole table, in order. */
  lemma CellGroupsPartition()
    ensures CellSelectionLocations(CellGroup(1)) + CellSelectionLocations(CellGroup(2))
      + CellSelectionLocations(CellGroup(3)) + CellSelectionLocations(CellGroup(4))
      + CellSelectionLocations(CellGroup(5)) + CellSelectionLocations(CellGroup(6)) == CellLocations
  {
  }

  /** GPIO group K converts GPIO K and K+5 for K <= 4, GPIO 5 for group 5 and the second reference for group 6. */
  lemma GpioGroupsMembers(k: GroupNumber)
    ensures k <= 4 ==> (
      && |GpioSelectionLocations(GpioGroup(k))| == 2
      && GpioSelectionLocations(GpioGroup(k))[0].channel == Gpio(k)
      && GpioSelectionLocations(GpioGroup(k))[1].channel == Gpio(k + 5))
    ensures GpioSelectionLocations(GpioGroup(5)) == [At(Gpio(5), AuxiliaryB, 1)]
    ensures GpioSelectionLocations(GpioGroup(6)) == [At(SecondReference, AuxiliaryB, 2)]
  {
    var g := GpioSelectionLocations(GpioGroup(k));
    if k == 1 {
      assert g[0] == GpioLocations[0] && g[1] == GpioLocations[1];
    } else if k == 2 {
      assert g[0] == GpioLocations[2] && g[1] == GpioLocations[3];
    } else if k == 3 {
      assert g[0] == GpioLocations[4] && g[1] == GpioLocations[5];
    } else if k == 4 {
      assert g[0] == GpioLocations[6] && g[1] == GpioLocations[7];
    }
    assert GpioLocations[8..9] == [GpioLocations[8]] && GpioLocations[9..10] == [GpioLocations[9]];
  }

  /** How long a cell conversion takes. */
  function CellTiming(sel: CellSelection, mode: AdcMode): (t: CommandTime)
    ensures 0 < t.regular && 0 < t.alternative
  {
    if sel.AllCells? then
      match mode
      case Fast => CommandTime(1121, 1296)
      case Normal => CommandTime(2343, 3041)
      case Filtered => CommandTime(201325, 4437)
      case Other => CommandTime(12816, 7230)
    else
      match mode
      case Fast => CommandTime(203, 232)
      case Normal => CommandTime(407, 523)
      case Filtered => CommandTime(33570, 756)
      case Other => CommandTime(2152, 1221)
  }

  /** How long a GPIO conversion takes; the alternative time of groups 1-4 in the other mode is 24000 as the table writes it. */
  function GpioTiming(sel: GpioSelection, mode: AdcMode): (t: CommandTime)
    ensures 0 < t.regular && 0 < t.alternative
  {
    match sel
    case AllGpios =>
      (match mode
       case Fast => CommandTime(1825, 2116)
       case Normal => CommandTime(3862, 5025)
       case Filtered => CommandTime(335498, 7353)
       case Other => CommandTime(21316, 12007))
    case GpioGroup(k) =>
      if k <= 4 then
        match mode
        case Fast => CommandTime(380, 439)
        case Normal => CommandTime(788, 1000)
        case Filtered => CommandTime(67100, 1500)
        case Other => CommandTime(4300, 24000)
      else
        match mode
        case Fast => CommandTime(200, 229)
        case Normal => CommandTime(403, 520)
        case Filtered => CommandTime(34000, 753)
        case Other => CommandTime(2100, 1200)
  }

  /**
   * Converting a group takes less time than converting everything, in both
   * ADC settings, with one exception the table carries: the alternative time
   * of GPIO groups 1-4 in the other mode exceeds that of all GPIOs.
   */
  lemma GroupsConvertFaster(c: CellSelection, g: GpioSelection, mode: AdcMode)
    ensures c.CellGroup? ==> (
      && CellTiming(c, mode).regular < CellTiming(AllCells, mode).regular
      && CellTiming(c, mode).alternative < CellTiming(AllCells, mode).alternative)
    ensures g.GpioGroup? ==> GpioTiming(g, mode).regular < GpioTiming(AllGpios, mode).regular
    ensures g.GpioGroup? ==>
      (GpioTiming(g, mode).alternative < GpioTiming(AllGpios, mode).alternative
       <==> !(g.group <= 4 && mode == Other))
  {
  }

  /** A cell selection as the generic client uses it. */
  function CellSelectionOf(sel: CellSelection): (s: Selection)
    ensures s.bitmap == CellBitmap(sel)
  {
    Selection(CellBitmap(sel), mode => CellTiming(sel, mode))
  }

  /** A GPIO selection as the generic client uses it. */
  function GpioSelectionOf(sel: GpioSelection): (s: Selection)
    ensures s.bitmap == GpioBitmap(sel)
  {
    Selection(GpioBitmap(sel), mode => GpioTiming(sel, mode))
  }

  /** The sum-of-cells factor and temperature constants that the repository's LTC6813 test cases expect status readings to be converted with. */
  const ReferenceCalibration := Calibration(30, 7600, 276)

  /** The LTC6813 as the generic client sees it, with the status calibration as a parameter. */
  function Descriptor(cal: Calibration): (d: Device.Descriptor<Register>)
    ensures d.cellCount == 18 && d.gpioCount == 9
    ensures d.overlapRegister1 == Some(CellVoltageC) && d.overlapRegister2 == Some(CellVoltageE)
    ensures d.statusA == StatusA && d.statusB == StatusB
    ensures d.configurationA == ConfigurationA && d.configurationB == Some(ConfigurationB)
  {
    Device.Descriptor(ReadCommand, WriteCommand, ToIndex, 18, 9, Some(CellVoltageC), Some(CellVoltageE),
      StatusA, StatusB, ConfigurationA, Some(ConfigurationB), cal)
  }

  /** The descriptor meets what the generic client relies on whenever the calibration does. */
  lemma DescriptorWellFormed(cal: Calibration)
    requires cal.totalVoltageFactor <= MaxTotalVoltageFactor && cal.tempGain != 0
    ensures WellFormed(Descriptor(cal))
  {
  }

  /**
   * Converting all cells, `read_voltages` reads the six cell registers
   * once each, in the order A, C, E, B, D, F in which their first cells
   * appear.
   */
  lemma AllCellsReadOrder(cal: Calibration)
    ensures Protocol.FirstReads(Descriptor(cal), CellLocations)
      == [CellVoltageA, CellVoltageC, CellVoltageE, CellVoltageB, CellVoltageD, CellVoltageF]
    ensures Protocol.IndexSet(Descriptor(cal), CellLocations) == {0, 1, 2, 3, 4, 5}
  {
    var d := Descriptor(cal);
    var r1 := [At(Cell(1), CellVoltageA, 0), At(Cell(7), CellVoltageC, 0), At(Cell(13), CellVoltageE, 0)];
    var r2 := [At(Cell(2), CellVoltageA, 1), At(Cell(8), CellVoltageC, 1), At(Cell(14), CellVoltageE, 1)];
    var r3 := [At(Cell(3), CellVoltageA, 2), At(Cell(9), CellVoltageC, 2), At(Cell(15), CellVoltageE, 2)];
    var r4 := [At(Cell(4), CellVoltageB, 0), At(Cell(10), CellVoltageD, 0), At(Cell(16), CellVoltageF, 0)];
    var r5 := [At(Cell(5), CellVoltageB, 1), At(Cell(11), CellVoltageD, 1), At(Cell(17), CellVoltageF, 1)];
    var r6 := [At(Cell(6), CellVoltageB, 2), At(Cell(12), CellVoltageD, 2), At(Cell(18), CellVoltageF, 2)];
    assert CellLocations == r1 + r2 + r3 + r4 + r5 + r6;
    UpperRowsRead(d, r1, r2, r3);
    LowerRowsRead(d, r1 + r2 + r3, r4, r5, r6);
  }

  /** The first three rows of the cell table read registers A, C and E. */
  lemma UpperRowsRead(d: Device.Descriptor<Register>, r1: seq<RegisterAddress<Register, Channel>>,
      r2: seq<RegisterAddress<Register, Channel>>, r3: seq<RegisterAddress<Register, Channel>>)
    requires d.toIndex == ToIndex
    requires InRegisters(r1, CellVoltageA, CellVoltageC, CellVoltageE)
    requires InRegisters(r2, CellVoltageA, CellVoltageC, CellVoltageE)
    requires InRegisters(r3, CellVoltageA, CellVoltageC, CellVoltageE)
    ensures Protocol.IndexSet(d, r1 + r2 + r3) == {0, 2, 4}
    ensures Protocol.FirstReads(d, r1 + r2 + r3) == [CellVoltageA, CellVoltageC, CellVoltageE]
  {
    FirstRowRead(d, r1);
    KnownRowRead(d, r1, r2, CellVoltageA, CellVoltageC, CellVoltageE);
    KnownRowRead(d, r1 + r2, r3, CellVoltageA, CellVoltageC, CellVoltageE);
  }

  /** The last three rows of the cell table add registers B, D and F. */
  lemma LowerRowsRead(d: Device.Descriptor<Register>, p: seq<RegisterAddress<Register, Channel>>,
      r4: seq<RegisterAddress<Register, Channel>>, r5: seq<RegisterAddress<Register, Channel>>,
      r6: seq<RegisterAddress<Register, Channel>>)
    requires d.toIndex == ToIndex && Protocol.IndexSet(d, p) == {0, 2, 4}
    requires InRegisters(r4, CellVoltageB, CellVoltageD, CellVoltageF)
    requires InRegisters(r5, CellVoltageB, CellVoltageD, CellVoltageF)
    requires InRegisters(r6, CellVoltageB, CellVoltageD, CellVoltageF)
    ensures Protocol.IndexSet(d, p + r4 + r5 + r6) == {0, 1, 2, 3, 4, 5}
    ensures Protocol.FirstReads(d, p + r4 + r5 + r6) == Protocol.FirstReads(d, p) + [CellVoltageB, CellVoltageD, CellVoltageF]
  {
    FourthRowRead(d, p, r4);
    KnownRowRead(d, p + r4, r5, CellVoltageB, CellVoltageD, CellVoltageF);
    KnownRowRead(d, p + r4 + r5, r6, CellVoltageB, CellVoltageD, CellVoltageF);
  }

  /** Three locations in the given registers. */
  predicate InRegisters(row: seq<RegisterAddress<Register, Channel>>, a: Register, b: Register, c: Register)
  {
    |row| == 3 && row[0].register == a && row[1].register == b && row[2].register == c
  }

  /** The first row of the cell table reads registers A, C and E. */
  lemma FirstRowRead(d: Device.Descriptor<Register>, r: seq<RegisterAddress<Register, Channel>>)
    requires d.toIndex == ToIndex && InRegisters(r, CellVoltageA, CellVoltageC, CellVoltageE)
    ensures Protocol.IndexSet(d, r) == {0, 2, 4}
    ensures Protocol.FirstReads(d, r) == [CellVoltageA, CellVoltageC, CellVoltageE]
  {
    var empty: seq<RegisterAddress<Register, Channel>> := [];
    Protocol.FirstReadsStep(d, empty, r[0]);
    Protocol.FirstReadsStep(d, [r[0]], r[1]);
    Protocol.FirstReadsStep(d, [r[0], r[1]], r[2]);
    assert [r[0], r[1]] + [r[2]] == r;
  }

  /** A row whose registers were all read before reads nothing. */
  lemma KnownRowRead(d: Device.Descriptor<Register>, p: seq<RegisterAddress<Register, Channel>>,
      r: seq<RegisterAddress<Register, Channel>>, a: Register, b: Register, c: Register)
    requires d.toIndex == ToIndex && InRegisters(r, a, b, c)
    requires ToIndex(a) in Protocol.IndexSet(d, p) && ToIndex(b) in Protocol.IndexSet(d, p)
    requires ToIndex(c) in Protocol.IndexSet(d, p)
    ensures Protocol.IndexSet(d, p + r) == Protocol.IndexSet(d, p)
    ensures Protocol.FirstReads(d, p + r) == Protocol.FirstReads(d, p)
  {
    Protocol.FirstReadsAppendKnown(d, p, r);
  }

  /** The fourth row of the cell table adds registers B, D and F. */
  lemma FourthRowRead(d: Device.Descriptor<Register>, p: seq<RegisterAddress<Register, Channel>>,
      r: seq<RegisterAddress<Register, Channel>>)
    requires d.toIndex == ToIndex && InRegisters(r, CellVoltageB, CellVoltageD, CellVoltageF)
    requires Protocol.IndexSet(d, p) == {0, 2, 4}
    ensures Protocol.IndexSet(d, p + r) == {0, 1, 2, 3, 4, 5}
    ensures Protocol.FirstReads(d, p + r) == Protocol.FirstReads(d, p) + [CellVoltageB, CellVoltageD, CellVoltageF]
  {
    var f := Protocol.FirstReads(d, p);
    var p1 := p + [r[0]];
    var p2 := p1 + [r[1]];
    assert Protocol.IndexSet(d, p1) == {0, 1, 2, 4} && Protocol.FirstReads(d, p1) == f + [CellVoltageB] by {
      Protocol.FirstReadsStep(d, p, r[0]);
    }
    assert Protocol.IndexSet(d, p2) == {0, 1, 2, 3, 4} && Protocol.FirstReads(d, p2) == f + [CellVoltageB, CellVoltageD] by {
      Protocol.FirstReadsStep(d, p1, r[1]);
    }
    assert p2 + [r[2]] == p + r;
    Protocol.FirstReadsStep(d, p2, r[2]);
  }

  /** Die temperatures under the reference calibration: 25256 reads about 56.3 degrees, 20596 reads -5. */
  lemma TemperatureVectors()
    ensures 56.31578 < Protocol.CalcTemperature(ReferenceCalibration, 25256) < 56.31579
    ensures Protocol.CalcTemperature(ReferenceCalibration, 20596) == -5.0
    ensures Protocol.CalcTemperature(ReferenceCalibration, 53744) == Protocol.FixedMax
  {
  }

  /**
   * A reading between 32768 and 53743 is well inside the range the
   * conversion claims to handle, yet the conversion as written reports
   * about -612 degrees for 40000 where about 250.3 degrees is meant.
   */
  lemma TemperatureWrapsAsWritten()
    ensures Protocol.CalcTemperatureAsWritten(ReferenceCalibration, 40000) == -612.0
    ensures Protocol.CalcTemperatureAsWritten(ReferenceCalibration, 32767) > 155.0
    ensures 250.0 < Protocol.CalcTemperature(ReferenceCalibration, 40000) < 251.0
    ensures Protocol.Parameters(ReferenceCalibration, [0, 40000, 0], [0, 0, 0]).temperature == -612.0
  {
  }
}
