# LTC681X battery-stack monitor client, modelled in Dafny

This project models the client library for the Analog Devices LTC681X family of
battery-stack monitors (LTC6813, LTC6811, LTC6810) and proves properties of it.
The devices sit in an isoSPI daisy chain. The host sends four-byte commands
(a 16-bit word and its PEC15 checksum). It starts ADC conversions, reads
six-byte register groups (one eight-byte block per device) and writes the
two configuration register groups.

The modules follow the structure of the library:

- `Bytes`, `Pec15`, `Commands`: big-endian command words and little-endian
  register words; the 15-bit packet error code; the frames of the conversion
  and register commands.
- `Hal`: the embedded-hal SPI device, modelled as an oracle that answers each
  transaction. The `SpiDevice` class keeps a log of the transactions.
- `Spi`: `LatchingSpiDevice`, the SPI device that keeps chip select asserted
  after a transaction so that the SDO line can be polled. It is a class with
  the `cs_low` flag as a field. Its pin and bus are oracles, and a ghost event
  log records every call.
- `Config`: `Configuration`, the two six-byte register groups, as a class over
  two arrays whose setters change exactly one switch or field.
- `Device`: ADC modes, status groups, conversion timings, and the
  `Descriptor` that stands for the `DeviceTypes` trait of one device type.
  The descriptor holds its register commands, grouped indices, constants and
  calibration.
- `Protocol`: every client operation as a function from the link state
  (`NoPolling` over a plain device, or `SDOLinePolling` over a latching
  device) to the new link state and the result. The properties of the
  client are stated about these functions.
- `Monitor`: the `LTC681X` client as a class. Each method is proved to
  produce exactly what its `Protocol` function says. This includes the
  cache-driven loop of `read_voltages`.
- `Ltc6813`, `Ltc6811`, `Ltc6810`: the device tables. These are the register
  commands, grouped indices, channel classification, register locations,
  selections, bitmaps and conversion timings.

## Model

| member | source | states |
|---|---|---|
| Bytes.HighByte | src/monitor.rs:908-914 | the first byte sent for a command word is its upper eight bits |
| Bytes.LowByte | src/monitor.rs:908-914 | the second byte sent for a command word is its lower eight bits |
| Bytes.LittleEndian | src/monitor.rs:937-944 | a register word's low byte is the first received byte and its high byte the second |
| Bytes.LittleEndianRoundTrip | src/monitor.rs:937-944 | splitting a word into bytes and joining them little-endian gives the word back |
| Bytes.LittleEndianBytes | src/monitor.rs:937-944 | joining two bytes little-endian and splitting the word gives both bytes back |
| Pec15.Remainder | src/tests.rs:544-560 | the CRC-15 shift register stays within 15 bits after any input |
| Pec15.Pec | src/tests.rs:544-560 | the two PEC bytes are the 15-bit remainder shifted left once, so the last bit is zero |
| Pec15.WithPec | src/monitor.rs:917-922 | a payload followed by its PEC is a valid block that starts with the payload |
| Pec15.ValidIffWithPec | src/monitor.rs:932-935 | a block passes the checksum comparison exactly when it is its payload followed by that payload's PEC |
| Pec15.RemainderStep | src/tests.rs:556-560 | the remainder of a prefix is the previous remainder fed with one more byte |
| Pec15.BlockVectors | src/tests.rs:544-560 | the PECs of STSCTRL (00 19), CLRSCTRL (00 18) and RDCVA (00 04) are 8E 4E, 05 7C and 07 C2, and those of the three six-byte reference blocks are 0x379E, 0x9884 and 0x1BE6 |
| Commands.Frame | src/monitor.rs:908-914 | a frame is the big-endian word followed by its PEC, four bytes, valid |
| Commands.FrameRoundTrip | src/monitor.rs:908-914 | the word can be read back from its frame, so distinct words have distinct frames |
| Commands.CellConversionWord | src/monitor.rs:699-706 | the ADCV word keeps every bit of its skeleton and carries the discharge bit when discharge is permitted |
| Commands.GpioConversionWord | src/monitor.rs:715-718 | the ADAX word keeps every bit of its skeleton |
| Commands.OverlapConversionWord | src/monitor.rs:727-733 | the ADOL word keeps every bit of its skeleton and carries the discharge bit exactly when discharge is permitted |
| Commands.StatusConversionWord | src/monitor.rs:740-743 | the ADSTAT word keeps every bit of its skeleton and never permits discharge |
| Commands.CellConversionRoundTrip | src/monitor.rs:698-711 | the ADCV word carries the mode in bits 7-8, the selection in bits 0-2, the discharge permission in bit 4, and otherwise the ADCV skeleton |
| Commands.GpioConversionRoundTrip | src/monitor.rs:714-723 | the ADAX word carries the mode and selection, never permits discharge, and otherwise is the ADAX skeleton |
| Commands.OverlapConversionRoundTrip | src/monitor.rs:726-736 | the ADOL word carries the mode and discharge permission, its selection bits stay 1, and otherwise it is the ADOL skeleton |
| Commands.StatusConversionRoundTrip | src/monitor.rs:739-748 | the ADSTAT word carries the mode and the status group's bitmap, never permits discharge, and otherwise is the ADSTAT skeleton |
| Commands.CellConversionFrames | src/tests/monitor.rs:14-86 | ADCV frames in normal and fast mode, with discharge and with group 1, match the bytes the device expects |
| Commands.OtherConversionFrames | src/tests/monitor.rs:140-323 | the ADAX, ADSTAT and ADOL frames in normal mode match the bytes the device expects |
| Commands.CellReadCommandsFramed | src/commands.rs:1-17 | each precomputed cell-voltage read command is the frame of its command code |
| Commands.AuxiliaryReadCommandsFramed | src/commands.rs:19-29 | each precomputed auxiliary read command is the frame of its command code |
| Commands.StatusAndConfigurationCommandsFramed | src/commands.rs:31-35 | the status read commands, and the configuration read and write commands, are the frames of their command codes |
| Device.ModeCode | src/monitor.rs:325-334 | the ADC mode is a two-bit code |
| Device.ModeCodeRoundTrip | src/monitor.rs:325-334 | every ADC mode has its own code and the code gives the mode back |
| Device.StatusBitmap | src/monitor.rs:351-355 | the status group bitmap is at most 4 |
| Device.StatusBitmapInjective | src/monitor.rs:338-355 | distinct status groups have distinct bitmaps |
| Device.StatusTiming | src/monitor.rs:357-377 | the status conversion time of every group and mode is positive in both settings, as the table gives it |
| Device.StatusTimingAllIsLongest | src/monitor.rs:357-377 | measuring all parameters takes longer than one, in both timings and every mode, and every single group takes the same time |
| Spi.Kind | src/spi.rs:81-88 | a chip-select error has the chip-select fault kind and a bus error keeps the bus's kind |
| Spi.Step | src/spi.rs:53-65 | one operation that succeeds fills a receive buffer of the operation's length |
| Spi.RunOps | src/spi.rs:53-68 | a run of operations that succeeds returns one buffer per operation |
| Spi.RunOpsReceived | src/spi.rs:53-68 | every buffer of a successful run has the length its operation asked for |
| Spi.FailureStops | src/spi.rs:62-65 | once an operation fails, the operations after it do nothing |
| Spi.ReleaseSpec | src/spi.rs:25-30 | releasing raises the pin once; only a successful raise clears the flag; a failed raise is a chip-select error that keeps the flag |
| Spi.StepEffect | src/spi.rs:53-65 | a delay does nothing; a bus call is logged; a fault is followed by one attempt to raise the pin; the pin is never driven low |
| Spi.RunOpsEffect | src/spi.rs:53-68 | a run only appends to the log, never drives the pin low, and on success keeps the flag and puts exactly its non-delay operations on the bus |
| Spi.RunOpsGrows | src/spi.rs:53-68 | a run only appends to the log and never drives the pin low |
| Spi.RunOpsSucceeds | src/spi.rs:53-68 | a successful run keeps the flag and puts its non-delay operations on the bus in order |
| Spi.RunOpsFailure | src/spi.rs:62-65 | a failed run stopped at a bus fault: the earlier operations reached the bus in order, then the faulting call and a raise of the pin |
| Spi.TransactionDrivesPinOnlyWhenReleased | src/spi.rs:47-51 | a transaction drives the pin low exactly when the flag is clear; if that fails it is a chip-select error and nothing else happens; success leaves the flag set |
| Spi.BackToBackDrivesOnce | src/spi.rs:48-51 | two transactions in a row drive the pin low only once |
| Spi.SuccessfulTransactionOrder | src/spi.rs:47-69 | a successful transaction puts exactly its non-delay operations on the bus, in order |
| Spi.PinLowAppend | src/spi.rs:25-65 | the pin level after one more event: a successful drive sets it, a successful raise clears it, and bus calls keep it |
| Spi.StepTracksPin | src/spi.rs:53-65 | corrected: with the flag cleared after a fault, one operation keeps the flag equal to the pin level |
| Spi.RunOpsTracksPin | src/spi.rs:53-68 | corrected: with the flag cleared after a fault, a run keeps the flag equal to the pin level |
| Spi.ClearLatchTracksPin | src/spi.rs:47-69 | corrected: the flag always equals the level the pin was last driven to, across transactions and releases |
| Spi.RunOpsKeepsLatch | src/spi.rs:53-65 | as written: running the operations never changes the flag, even when a fault raises the pin |
| Spi.KeepLatchOutlivesFault | src/spi.rs:62-65 | as written: after a bus fault the pin is high but the flag is still set, so the next transaction talks to the bus without driving the pin low |
| Spi.LatchingSpiDevice.constructor | src/spi.rs:19-21 | a new device starts with the flag clear and an empty log |
| Spi.LatchingSpiDevice.ReleaseCs | src/spi.rs:25-30 | the device's new flag, log and result are those of `ReleaseSpec` |
| Spi.TransactionSpec | src/spi.rs:47-69 | a transaction that succeeds returns one buffer per operation; if the pin cannot be driven low, the transaction is a chip-select error that touches nothing else |
| Spi.LatchingSpiDevice.Transaction | src/spi.rs:47-69 | as written: the device's new flag, log and result are those of `TransactionSpec` with the flag kept set after a fault |
| Config.Configuration.constructor | src/config.rs:73-94 | a new configuration holds the default bytes F8 00 00 00 00 00 / 0F 00 00 00 00 00 |
| Config.DefaultsDescribed | src/config.rs:73-94 | by default every GPIO pull-down is off, the references, timer and alternative modes are off, no cell discharges, and both thresholds and the timeout are zero |
| Config.PullDownPos | src/config.rs:184-196 | each GPIO's pull-down is one bit: GPIO1-5 in bits 3-7 of A0, GPIO6-9 in bits 0-3 of B0 |
| Config.DischargePos | src/config.rs:276-297 | each cell's discharge switch is one bit: cells 1-8 in A4, 9-12 in A5, 13-16 in the high half of B0, 17-18 in B1 |
| Config.SwitchesDistinct | src/config.rs:184-331 | every pull-down, discharge switch and single-bit option has a bit of its own |
| Config.WithBitReads | src/config.rs:184-331 | setting one switch changes that switch and leaves every other switch as it was |
| Config.WithBitOverrides | src/config.rs:184-231 | setting a switch twice keeps only the last setting |
| Config.WithBitKeeps | src/config.rs:184-231 | setting a switch to the value it already has changes nothing |
| Config.Configuration.EnableGpioPullDown | src/config.rs:184-196 | only the pin's pull-down bit is cleared |
| Config.Configuration.DisableGpioPullDown | src/config.rs:199-211 | only the pin's pull-down bit is set |
| Config.Configuration.EnableReferencePower | src/config.rs:214-216 | only the reference-power bit (A0 bit 2) is set |
| Config.Configuration.DisableReferencePower | src/config.rs:219-221 | only the reference-power bit is cleared |
| Config.Configuration.EnableDischargeTimer | src/config.rs:224-226 | only the discharge-timer bit (A0 bit 1) is set |
| Config.Configuration.DisableDischargeTimer | src/config.rs:229-231 | only the discharge-timer bit is cleared |
| Config.UvCodeFor | src/config.rs:234-252 | a voltage is accepted exactly when it is 0 or between 3200 and 6553600 µV; 0 gives code 0; otherwise the code's threshold is the largest 1.6 mV step not above the voltage |
| Config.OvCodeFor | src/config.rs:255-273 | a voltage is accepted exactly when it is 0 or between 1600 and 6552000 µV; 0 gives code 0; otherwise the code's threshold is the largest 1.6 mV step not above the voltage |
| Config.UvCodeRoundTrip | src/config.rs:245-249 | the under-voltage code reads back as written; the over-voltage code and all bytes but A1 and A2 are kept |
| Config.OvCodeRoundTrip | src/config.rs:266-270 | the over-voltage code reads back as written; the under-voltage code and all bytes but A2 and A3 are kept |
| Config.Configuration.SetUvCompVoltage | src/config.rs:234-252 | succeeds exactly for the accepted voltages and then stores their code; an error leaves the registers unchanged |
| Config.Configuration.SetOvCompVoltage | src/config.rs:255-273 | succeeds exactly for the accepted voltages and then stores their code; an error leaves the registers unchanged |
| Config.UvThresholdVectors | src/tests/reg_config.rs:182-207 | 3.2 V stores CF and 07 in A1 and A2; 6.5536 V stores FF and 0F |
| Config.OvThresholdVector | src/tests/reg_config.rs:209-213 | 4.16 V over a 3.2 V under-voltage threshold gives A1-A3 = CF 87 A2 |
| Config.Configuration.DischargeCell | src/config.rs:276-297 | only the cell's discharge bit is set |
| Config.TimeoutRoundTrip | src/config.rs:300-303 | the timeout reads back as written and only byte A5 changes |
| Config.TimeoutKeepsDischarge | src/config.rs:300-303 | setting the timeout keeps every discharge switch, including cells 9-12 that share A5 |
| Config.Configuration.SetDischargeTimeout | src/config.rs:300-303 | the registers become those with the timeout stored in the high half of A5 |
| Config.Configuration.SetAlternativeAdcModes | src/config.rs:306-308 | only the ADC option bit (A0 bit 0) is set |
| Config.Configuration.SetDefaultAdcModes | src/config.rs:311-313 | only the ADC option bit is cleared |
| Config.Configuration.ForceDigitalRedundancyFail | src/config.rs:316-318 | only the forced-failure bit (B1 bit 6) is set |
| Config.PathRoundTrip | src/config.rs:321-324 | the redundancy path reads back as written; cells 17-18, the discharge monitor and the forced failure are kept, and only B1 changes |
| Config.Configuration.SetDigitalRedundancyPath | src/config.rs:321-324 | the registers become those with the path code in bits 4-5 of B1 |
| Config.Configuration.EnableDischargeMonitor | src/config.rs:329-331 | only the discharge-monitor bit (B1 bit 3) is set |
| Config.Configuration.Equals | src/config.rs:334-338 | two configurations are equal exactly when all twelve bytes agree |
| Config.CellFromIndex | src/config.rs:342-366 | index i below 18 is cell i+1, and any larger index falls back to cell 1 |
| Config.GpioFromIndex | src/config.rs:368-383 | index i below 9 is GPIO i+1, and any larger index falls back to GPIO 1 |
| Protocol.LinkTransaction | src/monitor.rs:908-914 | a transaction on a plain device appends one exchange to the log; a latching device keeps its oracle and, as written, keeps its flag set after a fault; success gives one buffer per operation |
| Protocol.LinkReceived | src/monitor.rs:952-977 | a successful transaction fills every receive buffer to the length its operation asked for |
| Protocol.EndSync | src/monitor.rs:300-321 | without polling nothing happens; with SDO-line polling chip select is released on success and the flag is kept on failure |
| Protocol.SendCommand | src/monitor.rs:908-914 | without polling, exactly one exchange writing the command's frame is logged |
| Protocol.StartConversion | src/monitor.rs:708-710 | the link is that of sending the word; the result is the expected timing exactly when sending succeeds |
| Protocol.StartConvCells | src/monitor.rs:698-711 | without polling, one exchange writes the ADCV frame; on success the selection's timing is returned |
| Protocol.StartConvGpio | src/monitor.rs:714-723 | without polling, one exchange writes the ADAX frame; on success the selection's timing is returned |
| Protocol.StartOverlapMeasurement | src/monitor.rs:726-736 | without polling, one exchange writes the ADOL frame |
| Protocol.MeasureInternalParameters | src/monitor.rs:739-748 | without polling, one exchange writes the ADSTAT frame; on success the status group's timing is returned |
| Protocol.SendCommandEffect | src/monitor.rs:908-914 | a command puts exactly its frame on the link in one transaction, and with polling leaves chip select asserted when it succeeds |
| Protocol.StartConvCellsEffect | src/monitor.rs:698-711 | a cell conversion sends the word carrying the mode, selection and discharge permission, and on success returns the selection's timing |
| Protocol.ChainReadOps | src/monitor.rs:952-977 | a chain read is the command and eight dummy bytes in one transfer, then one eight-byte read per further device |
| Protocol.ChainBlocks | src/monitor.rs:952-977 | the first device's block is the last eight bytes of the transfer, and the others are the reads |
| Protocol.ReadTransDaisyChain | src/monitor.rs:952-977 | a chain read is one transaction and on success gives one eight-byte block per device |
| Protocol.ChainReadBlocks | src/monitor.rs:952-977 | the blocks a chain read returns are the transfer's tail and the reads, and it succeeds exactly when the transaction does |
| Protocol.Decode | src/monitor.rs:937-944 | a block's six data bytes give three words |
| Protocol.Encode | src/monitor.rs:937-944 | three words are stored as six bytes, the inverse of the decoding |
| Protocol.DecodeEncode | src/monitor.rs:937-944 | decoding the bytes of three words gives the words back |
| Protocol.EncodeDecode | src/monitor.rs:937-944 | encoding the decoded words gives the six data bytes back |
| Protocol.DecodeSlots | src/monitor.rs:937-944 | slot k of a block is the little-endian word in bytes 2k and 2k+1 |
| Protocol.DecodeAll | src/monitor.rs:929-945 | every device's block is decoded to its own three words |
| Protocol.ReadDaisyChain | src/monitor.rs:925-949 | a successful read gives three words per device |
| Protocol.ReadDaisyChainOutcome | src/monitor.rs:925-949 | a read succeeds exactly when the transaction succeeds, every block passes its checksum and the end step succeeds; a bad checksum skips the end step and leaves chip select asserted |
| Protocol.ReadDaisyChainValues | src/monitor.rs:929-945 | a successful read gives every device the decoding of its own block |
| Protocol.ReadRegister | src/monitor.rs:751-753 | a successful register read gives three words per device |
| Protocol.PlainReadRegister | src/monitor.rs:751-753 | without polling a register read is exactly one transaction, the register's chain read |
| Protocol.ChainWriteOps | src/monitor.rs:756-788 | a chain write is the command and the first device's data and PEC in one write, then one eight-byte write per further device |
| Protocol.ChainWriteBlocks | src/monitor.rs:756-788 | the first write starts with the command, and every device's eight-byte block carries its six bytes and a valid PEC |
| Protocol.WriteRegister | src/monitor.rs:756-760 | a register without a write command is refused before the bus is touched, and only such a register is refused |
| Protocol.WriteRegisterEffect | src/monitor.rs:756-788 | a writable register is one transaction of the chain write followed by the end step; a bus error is reported and skips the end step |
| Protocol.GroupA | src/monitor.rs:791-806 | group A of every device is its configuration bytes 0-5 |
| Protocol.GroupB | src/monitor.rs:791-806 | group B of every device is its configuration bytes 6-11 |
| Protocol.WriteConfiguration | src/monitor.rs:791-806 | the write succeeds only if group A was written; a type without a second configuration register writes group A alone |
| Protocol.WriteConfigurationPlain | src/monitor.rs:791-806 | group A is written to the first configuration register; group B follows only when the type has a second one and the first write succeeded |
| Protocol.FirstReadsStep | src/monitor.rs:832-839 | one more location adds its grouped index, and its register is read only when that index is new |
| Protocol.Registers | src/monitor.rs:832-833 | the registers of the locations, in order |
| Protocol.IndexSetImage | src/monitor.rs:832-839 | the cached indices are the grouped indices of the locations |
| Protocol.FirstReadsAppendKnown | src/monitor.rs:832-839 | locations whose indices are already cached read nothing more |
| Protocol.IndexSetAppend | src/monitor.rs:832-839 | the indices of two location runs together are the union of their indices |
| Protocol.IndexAbsent | src/monitor.rs:832-839 | an index that no appended location has stays uncached |
| Protocol.FirstReadsAppendNew | src/monitor.rs:832-839 | locations with new, pairwise distinct indices read each of their registers, in order |
| Protocol.FirstReadsAppendOne | src/monitor.rs:832-839 | one more location with a new index adds its register to the reads |
| Protocol.Load | src/monitor.rs:832-839 | a successful load caches exactly the locations' grouped indices, each with three words per device |
| Protocol.LoadFailureStops | src/monitor.rs:837 | once a register read fails, the later locations change nothing |
| Protocol.LoadCached | src/monitor.rs:836-839 | a location whose index is cached adds no read |
| Protocol.LoadReads | src/monitor.rs:836-838 | a location whose index is not cached reads its register, and caches the reading or stops with the error |
| Protocol.Assemble | src/monitor.rs:829-848 | device by device, the voltage at each location is the cached word of its register and slot, with the location's channel |
| Protocol.RowExtend | src/monitor.rs:841-846 | the voltage at the next location extends a device's row |
| Protocol.RowGrowsCache | src/monitor.rs:836-838 | caching a new register keeps the rows already built |
| Protocol.RowsAppend | src/monitor.rs:829-848 | a finished row extends the rows built so far |
| Protocol.RowsAssemble | src/monitor.rs:817-850 | rows that each hold a device's cached voltage at every location are the assembled result |
| Protocol.IndexSetCovers | src/monitor.rs:832-839 | every location's index is among the cached indices |
| Protocol.ReadVoltages | src/monitor.rs:810-851 | a successful read gives every device one voltage per location, with the location's channel |
| Protocol.RegisterIndicesMembers | src/monitor.rs:832-839 | every read register's index is among the read indices |
| Protocol.FirstReadsDistinct | src/monitor.rs:832-839 | the registers read have pairwise distinct grouped indices, and these are exactly the locations' indices |
| Protocol.LoadReadsEachIndexOnce | src/monitor.rs:829-839 | without polling, a successful load is one chain read per distinct index, in order of first appearance, and nothing else |
| Protocol.Zeros | src/monitor.rs:857-867 | the stand-in for a missing register is three zero words per device |
| Protocol.ReadOptional | src/monitor.rs:857-867 | a missing register reads as zeros without touching the link |
| Protocol.ReadOverlapResult | src/monitor.rs:854-877 | a successful overlap read gives four words per device |
| Protocol.OverlapWithoutRegisters | src/monitor.rs:854-877 | a missing second register gives zeros in slots 2-3; with neither register the result is all zeros and the link is untouched |
| Protocol.CalcTemperature | src/monitor.rs:980-991 | readings from 53744 on saturate to the largest fixed-point value |
| Protocol.CalcTemperatureAsWritten | src/monitor.rs:980-991 | as written: it saturates from 53744 on and agrees with the corrected conversion below 32768 |
| Protocol.CalcTemperatureMonotone | src/monitor.rs:980-991 | corrected: below the saturation limit, a higher reading never gives a lower temperature when the gain is positive |
| Protocol.Parameters | src/monitor.rs:886-894 | a device's record is the sum of cells times the factor times 100 µV, the analog and digital supplies times 100 µV, and the temperature converted as written, which equals the corrected conversion outside 32768..53743 |
| Protocol.ReadInternalDeviceParameters | src/monitor.rs:880-898 | a successful read gives one record per device |
| Protocol.ParametersFit | src/monitor.rs:890-892 | with a factor the device types use, the 32-bit products never wrap |
| Protocol.AdcReady | src/monitor.rs:1023-1033 | polling keeps the latching device's oracle |
| Protocol.AdcReadyReleasesOnlyWhenReady | src/monitor.rs:1023-1033 | ready is true exactly when the byte read is 0xFF and chip select was released; while busy, chip select stays asserted; once latched, only a ready answer clears the flag, so a faulting poll leaves it set |
| Monitor.Ltc681x.New | src/monitor.rs:680-687 | a client without polling starts with the device's log |
| Monitor.Ltc681x.EnableSdoPolling | src/monitor.rs:1004-1010 | a polling client starts with chip select released and an empty log |
| Monitor.Ltc681x.Transaction | src/monitor.rs:908-914 | one bus transaction updates the link as `LinkTransaction` says: a plain device logs one exchange, and the latching device drives chip select low only when released and, as written, keeps its flag set after a fault |
| Monitor.Ltc681x.EndSyncCommand | src/monitor.rs:300-321 | the poll method's end step updates the link as `EndSync` says |
| Monitor.Ltc681x.AddPecChecksum | src/monitor.rs:917-922 | the slice's last two bytes become the PEC of the bytes before them, and nothing else changes |
| Monitor.Ltc681x.SendCommand | src/monitor.rs:908-914 | the link and result are those of `SendCommand` |
| Monitor.Ltc681x.CellCommand | src/monitor.rs:698-706 | the word built is the ADCV word of the mode, selection and discharge permission |
| Monitor.Ltc681x.StartConvCells | src/monitor.rs:698-711 | the link and result are those of `StartConvCells` |
| Monitor.Ltc681x.StartConvGpio | src/monitor.rs:714-723 | the link and result are those of `StartConvGpio` |
| Monitor.Ltc681x.StartOverlapMeasurement | src/monitor.rs:726-736 | the link and result are those of `StartOverlapMeasurement` |
| Monitor.Ltc681x.MeasureInternalParameters | src/monitor.rs:739-748 | the link and result are those of `MeasureInternalParameters` |
| Monitor.Ltc681x.ReadTransDaisyChain | src/monitor.rs:952-977 | the link and result are those of `ReadTransDaisyChain` |
| Monitor.Ltc681x.CheckAndDecode | src/monitor.rs:929-945 | the loop succeeds exactly when every block passes its checksum; it then returns every block decoded, and otherwise a checksum mismatch |
| Monitor.Ltc681x.ReadDaisyChain | src/monitor.rs:925-949 | the link and result are those of `ReadDaisyChain` |
| Monitor.Ltc681x.ReadRegister | src/monitor.rs:751-753 | the link and result are those of `ReadRegister` |
| Monitor.Ltc681x.CopyFromSlice | src/monitor.rs:770-779 | the slice is copied into the buffer at the offset and nothing else changes |
| Monitor.Ltc681x.PecBlock | src/monitor.rs:778-781 | a device's block is its six bytes followed by their PEC |
| Monitor.Ltc681x.FirstWriteBlock | src/monitor.rs:770-772 | the first write is the command followed by the first device's bytes and PEC |
| Monitor.Ltc681x.WriteOperations | src/monitor.rs:774-782 | the operations built are the chain write's operations |
| Monitor.Ltc681x.WriteRegister | src/monitor.rs:756-788 | the link and result are those of `WriteRegister` |
| Monitor.Ltc681x.WriteConfiguration | src/monitor.rs:791-806 | the link and result are those of `WriteConfiguration` |
| Monitor.Ltc681x.LoadMissing | src/monitor.rs:836-838 | reading an uncached register advances the loads by one location, or ends them with the error |
| Monitor.Ltc681x.LoadLocation | src/monitor.rs:833-839 | the load step of a location reads its register only when its index is not cached |
| Monitor.Ltc681x.ReadLocation | src/monitor.rs:832-846 | the voltage at a location is appended to the device's row, loading the register first if needed |
| Monitor.Ltc681x.ReadRow | src/monitor.rs:830-847 | one pass over the locations gives the device's row of cached voltages |
| Monitor.Ltc681x.ReadVoltages | src/monitor.rs:810-851 | the link and result are those of `ReadVoltages` |
| Monitor.Ltc681x.CombineOverlap | src/monitor.rs:869-874 | each device gets slots 0 and 1 of the first register, then of the second |
| Monitor.Ltc681x.ReadOverlapResult | src/monitor.rs:854-877 | the link and result are those of `ReadOverlapResult` |
| Monitor.Ltc681x.ConvertParameters | src/monitor.rs:884-895 | each device gets the record of its own status readings, with the temperature converted as written |
| Monitor.Ltc681x.ReadInternalDeviceParameters | src/monitor.rs:880-898 | the link and result are those of `ReadInternalDeviceParameters` |
| Monitor.Ltc681x.AdcReady | src/monitor.rs:1023-1033 | the link and result are those of `AdcReady` |
| Ltc6813.ReadCommand | src/ltc6813.rs:153-170 | every register has a four-byte read command |
| Ltc6813.WriteCommand | src/ltc6813.rs:172-178 | only the two configuration registers have a write command |
| Ltc6813.CommandsFramed | src/ltc6813.rs:151-178 | every read and write command carries a valid PEC |
| Ltc6813.ReadCommandsDistinct | src/ltc6813.rs:153-170 | distinct registers have distinct read commands |
| Ltc6813.ToIndex | src/ltc6813.rs:231-250 | grouped indices are below 6, and below 4 outside the cell registers |
| Ltc6813.ToIndexInjective | src/ltc6813.rs:231-250 | within a register family, the grouped index tells registers apart |
| Ltc6813.ChannelClassification | src/ltc6813.rs:252-309 | a channel is a cell exactly when it has a cell index and a GPIO exactly when it has a GPIO index; indices are in range and tell channels apart |
| Ltc6813.CellLocationsPlacement | src/ltc6813.rs:321-340 | cell N is in cell register (N-1)/3 at slot (N-1)%3 |
| Ltc6813.CellLocationsComplete | src/ltc6813.rs:321-340 | every cell is in the table exactly once |
| Ltc6813.GpioLocationsPlacement | src/ltc6813.rs:356-367 | GPIO 1-5 are in auxiliary A-B, GPIO 6-9 in C-D, and the second reference last in B; each once |
| Ltc6813.CellBitmap | src/ltc6813.rs:139-143 | the bitmap is at most 6 and zero exactly for all cells |
| Ltc6813.GpioBitmap | src/ltc6813.rs:145-149 | the bitmap is at most 6 and zero exactly for all GPIOs |
| Ltc6813.CellBitmapInjective | src/ltc6813.rs:139-143 | distinct cell selections have distinct bitmaps |
| Ltc6813.GpioBitmapInjective | src/ltc6813.rs:145-149 | distinct GPIO selections have distinct bitmaps |
| Ltc6813.CellGroupsMembers | src/ltc6813.rs:342-354 | cell group K reads cells K, K+6 and K+12 |
| Ltc6813.CellGroupsPartition | src/ltc6813.rs:342-354 | the six cell groups together are the whole table, in order |
| Ltc6813.GpioGroupsMembers | src/ltc6813.rs:369-381 | GPIO group K reads GPIO K and K+5 for K up to 4, GPIO 5 for group 5 and the second reference for group 6 |
| Ltc6813.CellTiming | src/ltc6813.rs:181-203 | the cell conversion time of every selection and mode is positive in both settings, as the table gives it |
| Ltc6813.GpioTiming | src/ltc6813.rs:205-229 | the GPIO conversion time of every selection and mode is positive in both settings, as the table gives it |
| Ltc6813.GroupsConvertFaster | src/ltc6813.rs:181-229 | a group converts faster than all inputs, except the alternative time of GPIO groups 1-4 in the other mode |
| Ltc6813.CellSelectionOf | src/ltc6813.rs:139-143 | the generic selection carries the selection's bitmap |
| Ltc6813.GpioSelectionOf | src/ltc6813.rs:145-149 | the generic selection carries the selection's bitmap |
| Ltc6813.Descriptor | src/ltc6813.rs:110-127 | 18 cells, 9 GPIOs, overlap registers C and E, status A and B, configuration A and B |
| Ltc6813.DescriptorWellFormed | src/ltc6813.rs:110-250 | the LTC6813 tables meet what the generic client relies on |
| Ltc6813.AllCellsReadOrder | src/ltc6813.rs:321-340 | reading all cells reads the six cell registers once each, in the order A, C, E, B, D, F |
| Ltc6813.UpperRowsRead | src/ltc6813.rs:322-330 | the first three rows of the table read registers A, C and E |
| Ltc6813.LowerRowsRead | src/ltc6813.rs:331-339 | the last three rows add registers B, D and F |
| Ltc6813.FirstRowRead | src/ltc6813.rs:322-324 | the first row reads registers A, C and E |
| Ltc6813.KnownRowRead | src/ltc6813.rs:325-339 | a row whose registers were read before reads nothing |
| Ltc6813.FourthRowRead | src/ltc6813.rs:331-333 | the fourth row adds registers B, D and F |
| Ltc6813.TemperatureVectors | src/tests/monitor.rs:2444-2537 | 25256 converts to about 56.3 degrees and 20596 to -5, and 53744 saturates |
| Ltc6813.TemperatureWrapsAsWritten | src/monitor.rs:980-991 | as written, 40000 converts to -612 degrees where about 250.3 is meant, and a device record with that reading reports -612 |
| Ltc6811.ReadCommand | src/ltc6811.rs:137-150 | every register has a four-byte read command |
| Ltc6811.WriteCommand | src/ltc6811.rs:152-158 | only the two configuration registers have a write command |
| Ltc6811.CommandsFramed | src/ltc6811.rs:135-159 | every read and write command carries a valid PEC |
| Ltc6811.ReadCommandsDistinct | src/ltc6811.rs:137-150 | distinct registers have distinct read commands |
| Ltc6811.ToIndex | src/ltc6811.rs:161-176 | grouped indices are below 4 |
| Ltc6811.ToIndexInjective | src/ltc6811.rs:161-176 | within a register family, the grouped index tells registers apart |
| Ltc6811.ChannelClassification | src/ltc6811.rs:178-221 | cells and GPIOs are classified by their indices, which are in range and tell channels apart |
| Ltc6811.CellLocationsPlacement | src/ltc6811.rs:233-246 | cell N is in cell register (N-1)/3 at slot (N-1)%3 |
| Ltc6811.CellLocationsComplete | src/ltc6811.rs:233-246 | every cell is in the table exactly once |
| Ltc6811.GpioLocationsPlacement | src/ltc6811.rs:262-269 | GPIO N is in auxiliary register (N-1)/3 at slot (N-1)%3, and the second reference is last |
| Ltc6811.CellBitmap | src/ltc6811.rs:123-127 | the bitmap is at most 6 and zero exactly for all cells |
| Ltc6811.GpioBitmap | src/ltc6811.rs:129-133 | the bitmap is at most 6 and zero exactly for all GPIOs |
| Ltc6811.CellBitmapInjective | src/ltc6811.rs:123-127 | distinct cell selections have distinct bitmaps |
| Ltc6811.GpioBitmapInjective | src/ltc6811.rs:129-133 | distinct GPIO selections have distinct bitmaps |
| Ltc6811.CellPairMembers | src/ltc6811.rs:248-260 | cell pair K reads cells K and K+6 |
| Ltc6811.GpioSelectionMembers | src/ltc6811.rs:271-283 | a single-input selection reads exactly that input's location |
| Ltc6811.Descriptor | src/ltc6811.rs:93-110 | 12 cells, 5 GPIOs, overlap register C only, status A and B, configuration A and B |
| Ltc6811.DescriptorWellFormed | src/ltc6811.rs:93-176 | the LTC6811 tables meet what the generic client relies on |
| Ltc6811.AllCellsReadOrder | src/ltc6811.rs:233-246 | reading all cells reads the four cell registers once each, in the order A, C, B, D |
| Ltc6811.UpperRowsRead | src/ltc6811.rs:234-239 | the first three pairs read registers A and C |
| Ltc6811.KnownRowRead | src/ltc6811.rs:236-245 | a pair whose registers were read before reads nothing |
| Ltc6811.FirstRowRead | src/ltc6811.rs:234-235 | the first pair reads registers A and C |
| Ltc6811.LowerRowsRead | src/ltc6811.rs:240-245 | the last three pairs add registers B and D |
| Ltc6811.FourthRowRead | src/ltc6811.rs:240-241 | the fourth pair adds registers B and D |
| Ltc6810.ReadCommand | src/ltc6810.rs:122-132 | every register has a four-byte read command |
| Ltc6810.WriteCommand | src/ltc6810.rs:134-139 | only the configuration register has a write command |
| Ltc6810.CommandsFramed | src/ltc6810.rs:120-140 | every read and write command carries a valid PEC |
| Ltc6810.ReadCommandsDistinct | src/ltc6810.rs:122-132 | distinct registers have distinct read commands |
| Ltc6810.ToIndex | src/ltc6810.rs:166-178 | grouped indices are below 2 |
| Ltc6810.ToIndexInjective | src/ltc6810.rs:166-178 | within a register family, the grouped index tells registers apart |
| Ltc6810.ChannelClassification | src/ltc6810.rs:180-215 | cells and GPIOs are classified by their indices, which are in range and tell channels apart |
| Ltc6810.CellLocationsPlacement | src/ltc6810.rs:227-234 | cell N is in cell register (N-1)/3 at slot (N-1)%3, and each cell appears once |
| Ltc6810.GpioLocationsPlacement | src/ltc6810.rs:250-257 | S0 comes first, each GPIO one place later than its number, and the second reference last |
| Ltc6810.CellBitmap | src/ltc6810.rs:108-112 | the bitmap is at most 6 and zero exactly for all cells |
| Ltc6810.GpioBitmap | src/ltc6810.rs:114-118 | the bitmap is at most 6 and zero exactly for all inputs |
| Ltc6810.CellBitmapInjective | src/ltc6810.rs:108-112 | distinct cell selections have distinct bitmaps |
| Ltc6810.GpioBitmapInjective | src/ltc6810.rs:114-118 | distinct GPIO selections have distinct bitmaps |
| Ltc6810.CellSelectionMembers | src/ltc6810.rs:236-248 | a single-cell selection reads exactly that cell's location |
| Ltc6810.GpioSelectionMembers | src/ltc6810.rs:259-271 | a single-input selection reads exactly that input's location |
| Ltc6810.CellTiming | src/ltc6810.rs:142-164 | the cell conversion time of every selection and mode is positive in both settings, as the table gives it |
| Ltc6810.SingleCellConvertsFaster | src/ltc6810.rs:142-164 | one cell converts faster than all six in both timings, and every cell takes the same time |
| Ltc6810.CellSelectionOf | src/ltc6810.rs:108-112 | the generic selection carries the selection's bitmap |
| Ltc6810.Descriptor | src/ltc6810.rs:78-95 | 6 cells, 4 GPIOs, no overlap registers, status A and B, a single configuration register |
| Ltc6810.DescriptorWellFormed | src/ltc6810.rs:78-178 | the LTC6810 tables meet what the generic client relies on |
| Ltc6810.OverlapReadsNothing | src/ltc6810.rs:78-95 | with no overlap registers, the overlap read touches nothing and gives zeros |
| Ltc6810.AllCellsReadOrder | src/ltc6810.rs:227-234 | reading all cells reads cell register A, then B, once each |

## Left out

- The embedded-hal SPI device, SPI bus and output pin are oracles. An oracle answers each call by its position in a log. The link state of the client is a ghost value built from these logs.
- Heap buffers and aliasing: `read_trans_daisy_chain` shifts data through buffers, and `[[u8; 6]; L]` arrays are passed by value. Both become sequences, and so do the local arrays of `read_voltages`. `add_pec_checksum` and `copy_from_slice` keep working on arrays.
- The capacity of `heapless::Vec`: the client pushes at most `L` records, so the ignored push results never fail. The model uses unbounded sequences.
- Protocol.CalcTemperature: uses exact rationals instead of I16F16 fixed point, so the rounding of the 16-bit fraction is not modelled; the result is exact.
- Protocol.CalcTemperatureAsWritten: models a build without overflow checks, where `I16F16::from_num` wraps readings from 32768 to 53743; the panic of a build with debug assertions is not modelled. `Protocol.Parameters` and `Monitor.Ltc681x.ConvertParameters` use this conversion.
- Protocol.Parameters: products are unbounded `nat`s; `ParametersFit` proves they stay below 2^32 for factors the device types use.
- The calibration constants (`TOTAL_VOLTAGE_FACTOR`, `INTERNAL_TEMP_GAIN`, `INTERNAL_TEMP_OFFSET`) are not in the LTC6813, LTC6811 and LTC6810 files, so they are a `Calibration` parameter of each descriptor. `Ltc6813.ReferenceCalibration` (30, 7600, 276) holds the values the repository's test cases imply.
- The LTC6811 and LTC6810 constructors take an extra chip-select argument from an older interface. The model gives all three device types the same client.
- The LTC6811 file has no conversion timings, and the LTC6810 file names its timing method `to_adcv_command_time` and has no GPIO timing. Their descriptors carry no timing beyond what the files define.
- LTC6812 is not part of this model.
- The timing table of LTC6813 GPIO groups 1-4 in the other mode holds `2_4000`, which is 24000. It is kept as written.
- `commands.rs` defines no constants for the configuration read and write commands. Their frames are derived from the command codes 0x0002, 0x0026, 0x0001 and 0x0024, and the conf-B write frame matches src/tests/monitor.rs:1019-1024.
- `pec15.rs` is not part of this model. PEC15 is defined as the CRC-15 with polynomial 0x4599 and seed 16. `Pec15.BlockVectors` states the reference values of src/tests.rs:544-560 for it: three two-byte commands and three six-byte blocks.
- `Debug`, `Display`, the example device, the mocks and the library root are not modelled.
- NoPolling is modelled over the plain device and SDOLinePolling over the latching device. NoPolling over a `LatchingSpiDevice`, which the source permits, is not modelled.

## Findings

| source | as written | input that shows it | evidently intended | confidence | as-written member | corrected member |
|---|---|---|---|---|---|---|
| src/spi.rs:62-65 | after a bus fault the pin is raised but `cs_low` stays true | a transaction whose read faults, followed by any transaction: the second one skips `set_low` and talks to the bus with chip select high | clear `cs_low` once the pin has been raised, so that the flag always tracks the pin | not executed | Spi.KeepLatchOutlivesFault | Spi.ClearLatchTracksPin |
| src/monitor.rs:980-991 | `I16F16::from_num(value)` for readings from 32768 up to 53743, which do not fit I16F16. Without debug assertions the value wraps negative; with them the call panics | raw reading 40000 with gain 7600 and offset 276 gives -612 degrees | convert readings up to the 53744 saturation limit without overflow, about 250.3 degrees for 40000 | not executed | Protocol.CalcTemperatureAsWritten | Protocol.CalcTemperatureMonotone |
