/**
 * Command words and the four-byte frames that carry them: the word sent
 * high byte first, followed by its PEC. Conversion commands are a fixed
 * skeleton with the ADC mode in bits 7-8, the discharge permission in bit
 * 4 and the selection in bits 0-2; register commands are precomputed
 * frames.
 */
module Commands {
  import opened Bytes
  import opened Pec15
  import opened Device

  /** The frame that carries a command word. */
  function Frame(w: u16): (f: seq<byte>)
    ensures |f| == 4 && Valid(f)
    ensures f[..2] == WordBytes(w) && f[2..] == Pec(WordBytes(w))
  {
    WithPec(WordBytes(w))
  }

  /** The word a frame carries. */
  function FrameWord(f: seq<byte>): u16
    requires |f| == 4
  {
    (f[0] as u16 << 8) | f[1] as u16
  }

  /** A frame gives its word back, and two words share a frame only when they are the same word. */
  lemma FrameRoundTrip(w: u16)
    ensures FrameWord(Frame(w)) == w
  {
    var f := Frame(w);
    assert f[0] == HighByte(w) && f[1] == LowByte(w);
  }

  const CellSkeleton: u16 := 0x0260
  const GpioSkeleton: u16 := 0x0460
  const OverlapSkeleton: u16 := 0x0201
  const StatusSkeleton: u16 := 0x0468
  const DischargePermitted: u16 := 0x0010

  /** ADCV: convert the selected cells. */
  function CellConversionWord(mode: AdcMode, bitmap: u16, dcp: bool): (w: u16)
    ensures w & CellSkeleton == CellSkeleton
    ensures dcp ==> WordDischarge(w)
  {
    CellSkeleton | (ModeCode(mode) << 7) | bitmap | (if dcp then DischargePermitted else 0)
  }

  /** ADAX: convert the selected GPIOs. */
  function GpioConversionWord(mode: AdcMode, bitmap: u16): (w: u16)
    ensures w & GpioSkeleton == GpioSkeleton
  {
    GpioSkeleton | (ModeCode(mode) << 7) | bitmap
  }

  /** ADOL: overlap measurement of the shared cells. */
  function OverlapConversionWord(mode: AdcMode, dcp: bool): (w: u16)
    ensures w & OverlapSkeleton == OverlapSkeleton
    ensures WordDischarge(w) == dcp
  {
    OverlapSkeleton | (ModeCode(mode) << 7) | (if dcp then DischargePermitted else 0)
  }

  /** ADSTAT: measure the selected internal parameters. */
  function StatusConversionWord(mode: AdcMode, group: StatusGroup): (w: u16)
    ensures w & StatusSkeleton == StatusSkeleton
    ensures !WordDischarge(w)
  {
    StatusSkeleton | (ModeCode(mode) << 7) | StatusBitmap(group)
  }

  /** The mode a conversion word carries. */
  function WordMode(w: u16): AdcMode
  {
    ModeFromCode((w >> 7) & 0x3)
  }

  /** The selection a conversion word carries. */
  function WordSelection(w: u16): u16
  {
    w & 0x7
  }

  /** Whether a conversion word permits discharge. */
  function WordDischarge(w: u16): bool
  {
    w & DischargePermitted != 0
  }

  lemma ModeBits(c: u16, bitmap: u16, extra: u16, skeleton: u16)
    requires c <= 3 && bitmap <= 7 && (extra == 0 || extra == DischargePermitted)
    requires skeleton in {CellSkeleton, GpioSkeleton, OverlapSkeleton, StatusSkeleton}
    ensures ((skeleton | (c << 7) | bitmap | extra) >> 7) & 0x3 == c
    ensures (skeleton | (c << 7) | bitmap | extra) & 0x7 == (skeleton & 0x7) | bitmap
    ensures (skeleton | (c << 7) | bitmap | extra) & DischargePermitted == extra
    ensures (skeleton | (c << 7) | bitmap | extra) & 0xFE68 == skeleton & 0xFE68
  {
  }

  /** A cell conversion word gives back its mode, selection and discharge permission. */
  lemma CellConversionRoundTrip(mode: AdcMode, bitmap: u16, dcp: bool)
    requires bitmap <= 7
    ensures WordMode(CellConversionWord(mode, bitmap, dcp)) == mode
    ensures WordSelection(CellConversionWord(mode, bitmap, dcp)) == bitmap
    ensures WordDischarge(CellConversionWord(mode, bitmap, dcp)) == dcp
    ensures CellConversionWord(mode, bitmap, dcp) & 0xFE68 == CellSkeleton
  {
    ModeBits(ModeCode(mode), bitmap, if dcp then DischargePermitted else 0, CellSkeleton);
    ModeCodeRoundTrip(mode);
  }

  /** A GPIO conversion word gives back its mode and selection and never permits discharge. */
  lemma GpioConversionRoundTrip(mode: AdcMode, bitmap: u16)
    requires bitmap <= 7
    ensures WordMode(GpioConversionWord(mode, bitmap)) == mode
    ensures WordSelection(GpioConversionWord(mode, bitmap)) == bitmap
    ensures !WordDischarge(GpioConversionWord(mode, bitmap))
    ensures GpioConversionWord(mode, bitmap) & 0xFE68 == GpioSkeleton
  {
    ModeBits(ModeCode(mode), bitmap, 0, GpioSkeleton);
    assert GpioConversionWord(mode, bitmap) == GpioSkeleton | (ModeCode(mode) << 7) | bitmap | 0;
    ModeCodeRoundTrip(mode);
  }

  /** An overlap word gives back its mode and discharge permission; its selection bits stay 1. */
  lemma OverlapConversionRoundTrip(mode: AdcMode, dcp: bool)
    ensures WordMode(OverlapConversionWord(mode, dcp)) == mode
    ensures WordSelection(OverlapConversionWord(mode, dcp)) == 1
    ensures WordDischarge(OverlapConversionWord(mode, dcp)) == dcp
    ensures OverlapConversionWord(mode, dcp) & 0xFE68 == OverlapSkeleton & 0xFE68
  {
    var extra := if dcp then DischargePermitted else 0;
    ModeBits(ModeCode(mode), 0, extra, OverlapSkeleton);
    assert OverlapConversionWord(mode, dcp) == OverlapSkeleton | (ModeCode(mode) << 7) | 0 | extra;
    ModeCodeRoundTrip(mode);
  }

  /** A status word gives back its mode and group. */
  lemma StatusConversionRoundTrip(mode: AdcMode, group: StatusGroup)
    ensures WordMode(StatusConversionWord(mode, group)) == mode
    ensures WordSelection(StatusConversionWord(mode, group)) == StatusBitmap(group)
    ensures !WordDischarge(StatusConversionWord(mode, group))
    ensures StatusConversionWord(mode, group) & 0xFE68 == StatusSkeleton
  {
    ModeBits(ModeCode(mode), StatusBitmap(group), 0, StatusSkeleton);
    assert StatusConversionWord(mode, group) == StatusSkeleton | (ModeCode(mode) << 7) | StatusBitmap(group) | 0;
    ModeCodeRoundTrip(mode);
  }

  /** The frames the device expects for some cell conversions. */
  lemma CellConversionFrames()
    ensures Frame(CellConversionWord(Normal, 0, false)) == [0x03, 0x60, 0xF4, 0x6C]
    ensures Frame(CellConversionWord(Fast, 0, false)) == [0x02, 0xE0, 0x38, 0x06]
    ensures Frame(CellConversionWord(Normal, 0, true)) == [0x03, 0x70, 0xAF, 0x42]
    ensures Frame(CellConversionWord(Normal, 1, false)) == [0x03, 0x61, 0x7F, 0x5E]
  {
    RemainderOfPair(0x03, 0x60);
    RemainderOfPair(0x02, 0xE0);
    RemainderOfPair(0x03, 0x70);
    RemainderOfPair(0x03, 0x61);
  }

  /** The frames for a GPIO, status and overlap conversion in normal mode. */
  lemma OtherConversionFrames()
    ensures Frame(GpioConversionWord(Normal, 0)) == [0x05, 0x60, 0xD3, 0xA0]
    ensures Frame(StatusConversionWord(Normal, All)) == [0x05, 0x68, 0x3B, 0xAE]
    ensures Frame(OverlapConversionWord(Normal, false)) == [0x03, 0x01, 0x2E, 0x88]
  {
    RemainderOfPair(0x05, 0x60);
    RemainderOfPair(0x05, 0x68);
    RemainderOfPair(0x03, 0x01);
  }

  // Precomputed register commands.

  const ReadCellVoltageA: seq<byte> := [0x00, 0x04, 0x07, 0xC2]
  const ReadCellVoltageB: seq<byte> := [0x00, 0x06, 0x9A, 0x94]
  const ReadCellVoltageC: seq<byte> := [0x00, 0x08, 0x5E, 0x52]
  const ReadCellVoltageD: seq<byte> := [0x00, 0x0A, 0xC3, 0x04]
  const ReadCellVoltageE: seq<byte> := [0x00, 0x09, 0xD5, 0x60]
  const ReadCellVoltageF: seq<byte> := [0x00, 0x0B, 0x48, 0x36]
  const ReadAuxiliaryA: seq<byte> := [0x00, 0x0C, 0xEF, 0xCC]
  const ReadAuxiliaryB: seq<byte> := [0x00, 0x0E, 0x72, 0x9A]
  const ReadAuxiliaryC: seq<byte> := [0x00, 0x0D, 0x64, 0xFE]
  const ReadAuxiliaryD: seq<byte> := [0x00, 0x0F, 0xF9, 0xA8]
  const ReadStatusA: seq<byte> := [0x00, 0x10, 0xED, 0x72]
  const ReadStatusB: seq<byte> := [0x00, 0x12, 0x70, 0x24]
  const ReadConfigurationA: seq<byte> := [0x00, 0x02, 0x2B, 0x0A]
  const ReadConfigurationB: seq<byte> := [0x00, 0x26, 0x2C, 0xC8]
  const WriteConfigurationA: seq<byte> := [0x00, 0x01, 0x3D, 0x6E]
  const WriteConfigurationB: seq<byte> := [0x00, 0x24, 0xB1, 0x9E]

  /** Every precomputed cell-voltage read command is the frame of its command code. */
  lemma CellReadCommandsFramed()
    ensures ReadCellVoltageA == Frame(0x0004) && ReadCellVoltageB == Frame(0x0006)
    ensures ReadCellVoltageC == Frame(0x0008) && ReadCellVoltageD == Frame(0x000A)
    ensures ReadCellVoltageE == Frame(0x0009) && ReadCellVoltageF == Frame(0x000B)
  {
    RemainderOfPair(0x00, 0x04);
    RemainderOfPair(0x00, 0x06);
    RemainderOfPair(0x00, 0x08);
    RemainderOfPair(0x00, 0x0A);
    RemainderOfPair(0x00, 0x09);
    RemainderOfPair(0x00, 0x0B);
  }

  /** Every precomputed auxiliary read command is the frame of its command code. */
  lemma AuxiliaryReadCommandsFramed()
    ensures ReadAuxiliaryA == Frame(0x000C) && ReadAuxiliaryB == Frame(0x000E)
    ensures ReadAuxiliaryC == Frame(0x000D) && ReadAuxiliaryD == Frame(0x000F)
  {
    RemainderOfPair(0x00, 0x0C);
    RemainderOfPair(0x00, 0x0E);
    RemainderOfPair(0x00, 0x0D);
    RemainderOfPair(0x00, 0x0F);
  }

  /** Every precomputed status and configuration command is the frame of its command code. */
  lemma StatusAndConfigurationCommandsFramed()
    ensures ReadStatusA == Frame(0x0010) && ReadStatusB == Frame(0x0012)
    ensures ReadConfigurationA == Frame(0x0002) && ReadConfigurationB == Frame(0x0026)
    ensures WriteConfigurationA == Frame(0x0001) && WriteConfigurationB == Frame(0x0024)
  {
    RemainderOfPair(0x00, 0x10);
    RemainderOfPair(0x00, 0x12);
    RemainderOfPair(0x00, 0x02);
    RemainderOfPair(0x00, 0x26);
    RemainderOfPair(0x00, 0x01);
    RemainderOfPair(0x00, 0x24);
  }
}
