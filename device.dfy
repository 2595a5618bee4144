/**
 * The device-independent vocabulary of the client: ADC modes, status
 * groups, command timings, register locations, and the descriptor every
 * member of the LTC681X family supplies (its registers, their commands and
 * grouped indices, and the registers the client reaches for by role).
 */
module Device {
  import opened Bytes
  import opened Wrappers

  /** ADC frequency and filter setting (`ADCMode`). */
  datatype AdcMode = Fast | Normal | Filtered | Other

  /** The two mode bits the command word carries. */
  function ModeCode(mode: AdcMode): (c: u16)
    ensures c <= 3
  {
    match mode
    case Fast => 1
    case Normal => 2
    case Filtered => 3
    case Other => 0
  }

  /** Reading the mode bits back. */
  function ModeFromCode(c: u16): (mode: AdcMode)
    requires c <= 3
  {
    if c == 1 then Fast else if c == 2 then Normal else if c == 3 then Filtered else Other
  }

  /** Every mode has its own code, and the code gives the mode back. */
  lemma ModeCodeRoundTrip(mode: AdcMode)
    ensures ModeFromCode(ModeCode(mode)) == mode
  {
  }

  /** Which internal parameters the status conversion measures (`StatusGroup`). */
  datatype StatusGroup = All | CellSum | Temperature | AnalogVoltage | DigitalVoltage

  /** The selection bits the status conversion command carries. */
  function StatusBitmap(group: StatusGroup): (b: u16)
    ensures b <= 4
  {
    match group
    case All => 0
    case CellSum => 1
    case Temperature => 2
    case AnalogVoltage => 3
    case DigitalVoltage => 4
  }

  /** Distinct groups are told apart by the command word. */
  lemma StatusBitmapInjective(g1: StatusGroup, g2: StatusGroup)
    ensures StatusBitmap(g1) == StatusBitmap(g2) ==> g1 == g2
  {
  }

  /** Expected execution time in microseconds, in the regular and the alternative (CFGAR0=1) ADC modes. */
  datatype CommandTime = CommandTime(regular: nat, alternative: nat)

  /** How long the status conversion of a group takes. */
  function StatusTiming(group: StatusGroup, mode: AdcMode): (t: CommandTime)
    ensures 0 < t.regular && 0 < t.alternative
  {
    if group == All then
      match mode
      case Fast => CommandTime(742, 858)
      case Normal => CommandTime(1600, 2000)
      case Filtered => CommandTime(134000, 3000)
      case Other => CommandTime(8500, 4800)
    else
      match mode
      case Fast => CommandTime(200, 229)
      case Normal => CommandTime(403, 520)
      case Filtered => CommandTime(34000, 753)
      case Other => CommandTime(2100, 1200)
  }

  /** Measuring all four parameters takes longer than measuring one, in every mode. */
  lemma StatusTimingAllIsLongest(group: StatusGroup, mode: AdcMode)
    requires group != All
    ensures StatusTiming(group, mode).regular < StatusTiming(All, mode).regular
    ensures StatusTiming(group, mode).alternative < StatusTiming(All, mode).alternative
    ensures StatusTiming(group, mode) == StatusTiming(CellSum, mode)
  {
  }

  /** What kind of input a channel is (`ChannelType`). */
  datatype ChannelType = CellChannel | GpioChannel | ReferenceChannel

  /** Where a channel's conversion result lives: register and slot 0, 1 or 2. */
  datatype RegisterAddress<R, C> = RegisterAddress(channel: C, register: R, slot: nat)

  /** The raw result of one channel (units of 100 uV). */
  datatype Voltage<C> = Voltage(channel: C, voltage: u16)

  /** The register has no write command. */
  datatype NoWriteCommandError = NoWriteCommandError

  /** A cell or GPIO selection as the client uses it: its command bits and its timing. */
  datatype Selection = Selection(bitmap: u16, timing: AdcMode -> CommandTime)

  /**
   * Conversion constants for the status registers: sum-of-cells factor,
   * die-temperature gain (uV per degree times 100) and offset in degrees.
   */
  datatype Calibration = Calibration(totalVoltageFactor: nat, tempGain: int, tempOffset: int)

  /** What a device type supplies to the generic client (`DeviceTypes`). */
  datatype Descriptor<!R> = Descriptor(
    readCommand: R -> seq<byte>,
    writeCommand: R -> Result<seq<byte>, NoWriteCommandError>,
    toIndex: R -> nat,
    cellCount: nat,
    gpioCount: nat,
    overlapRegister1: Option<R>,
    overlapRegister2: Option<R>,
    statusA: R,
    statusB: R,
    configurationA: R,
    configurationB: Option<R>,
    calibration: Calibration)

  /** The largest sum-of-cells factor for which `raw * factor * 100` fits 32 bits for every raw reading. */
  const MaxTotalVoltageFactor: nat := 655

  /**
   * What the client relies on: four-byte commands, grouped indices that
   * fit its six-entry cache, a sum-of-cells factor whose products fit 32
   * bits, and a nonzero temperature gain.
   */
  ghost predicate WellFormed<R(!new)>(d: Descriptor<R>)
  {
    && (forall r :: |d.readCommand(r)| == 4)
    && (forall r :: d.writeCommand(r).Ok? ==> |d.writeCommand(r).value| == 4)
    && (forall r :: d.toIndex(r) < 6)
    && d.calibration.totalVoltageFactor <= MaxTotalVoltageFactor
    && d.calibration.tempGain != 0
  }
}
