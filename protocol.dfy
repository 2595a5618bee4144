/**
 * What the generic LTC681X client does, as functions of the state of its
 * link to the daisy chain: the frames it sends, the transactions that fan
 * a register read or write across the chain, the checksums it checks, the
 * decoding of the blocks it receives and the end-of-command step of the
 * polling strategy. The client class is proved against these functions.
 */
module Protocol {
  import opened Bytes
  import opened Wrappers
  import opened Hal
  import Spi
  import opened Pec15
  import opened Device
  import opened Commands
  import Config

  /**
   * The bus the client owns: a plain device that drives chip select around
   * every transaction (no polling), or the latching device that SDO-line
   * polling needs.
   */
  datatype Link =
    | Plain(respond: nat -> DeviceReply, log: seq<Exchange>)
    | Latched(oracle: Spi.Oracle, state: Spi.State)

  /** The error type of the bus (`B::Error`). */
  datatype LinkError = DeviceFault(kind: ErrorKind) | LatchFault(error: Spi.Error)

  /** The client's errors. */
  datatype Error = BusError(cause: LinkError) | ChecksumMismatch | ReadOnlyRegister

  /** One transaction on the link. */
  function LinkTransaction(l: Link, ops: seq<Operation>): (res: (Link, Result<seq<seq<byte>>, LinkError>))
    ensures res.0.Plain? == l.Plain?
    ensures l.Plain? ==> res.0.respond == l.respond && res.0.log == l.log + [Exchange(ops, l.respond(|l.log|))]
    ensures l.Latched? ==> res.0.oracle == l.oracle
    ensures res.1.Ok? ==> |res.1.value| == |ops|
  {
    match l
    case Plain(respond, log) =>
      var t := DeviceTransaction(respond, log, ops);
      (Plain(respond, t.0), if t.1.Ok? then Ok(t.1.value) else Err(DeviceFault(t.1.error)))
    case Latched(o, st) =>
      var t := Spi.TransactionSpec(o, st, ops, Spi.KeepLatch);
      (Latched(o, t.0), if t.1.Ok? then Ok(t.1.value) else Err(LatchFault(t.1.error)))
  }

  /** A transaction that succeeds fills every receive buffer to the length its operation asked for. */
  lemma LinkReceived(l: Link, ops: seq<Operation>)
    requires LinkTransaction(l, ops).1.Ok?
    ensures forall i :: 0 <= i < |ops| ==> |LinkTransaction(l, ops).1.value[i]| == ReceivedLength(ops[i])
  {
    if l.Latched? {
      var o, st := l.oracle, l.state;
      if st.csLow {
        Spi.RunOpsReceived(o, st, ops, Spi.KeepLatch);
      } else {
        var ok := o.pin(|st.events|);
        Spi.RunOpsReceived(o, Spi.State(ok, st.events + [Spi.SetLow(ok)]), ops, Spi.KeepLatch);
      }
    }
  }

  /**
   * `end_sync_command` of the poll method: nothing without polling; under
   * SDO-line polling, chip select is released.
   */
  function EndSync(l: Link): (res: (Link, Result<Unit, LinkError>))
    ensures l.Plain? ==> res == (l, Ok(Unit))
    ensures l.Latched? ==> res.0.Latched? && res.0.oracle == l.oracle
    ensures l.Latched? && res.1.Ok? ==> !res.0.state.csLow
    ensures l.Latched? && res.1.Err? ==> res.0.state.csLow == l.state.csLow
  {
    match l
    case Plain(_, _) => (l, Ok(Unit))
    case Latched(o, st) =>
      var r := Spi.ReleaseSpec(o, st);
      (Latched(o, r.0), if r.1.Ok? then Ok(Unit) else Err(LatchFault(r.1.error)))
  }

  // Conversion commands.

  /** `send_command`: one transaction writing the frame of the word. */
  function SendCommand(l: Link, w: u16): (res: (Link, Result<Unit, Error>))
    ensures res.0.Plain? == l.Plain?
    ensures l.Plain? ==> res.0.log == l.log + [Exchange([Write(Frame(w))], l.respond(|l.log|))]
  {
    var t := LinkTransaction(l, [Write(Frame(w))]);
    (t.0, if t.1.Ok? then Ok(Unit) else Err(BusError(t.1.error)))
  }

  /** A conversion command: the word is sent and, if that succeeds, the expected timing is returned. */
  function StartConversion(l: Link, w: u16, timing: CommandTime): (res: (Link, Result<CommandTime, Error>))
    ensures res.0 == SendCommand(l, w).0 && (res.1.Ok? <==> SendCommand(l, w).1.Ok?)
    ensures res.1.Ok? ==> res.1.value == timing
  {
    var s := SendCommand(l, w);
    (s.0, if s.1.Ok? then Ok(timing) else Err(s.1.error))
  }

  /** `start_conv_cells` (ADCV). */
  function StartConvCells(l: Link, mode: AdcMode, cells: Selection, dcp: bool): (res: (Link, Result<CommandTime, Error>))
    ensures res.1.Ok? ==> res.1.value == cells.timing(mode)
    ensures res.0.Plain? == l.Plain?
    ensures l.Plain? ==> res.0.log == l.log + [Exchange([Write(Frame(CellConversionWord(mode, cells.bitmap, dcp)))], l.respond(|l.log|))]
  {
    StartConversion(l, CellConversionWord(mode, cells.bitmap, dcp), cells.timing(mode))
  }

  /** `start_conv_gpio` (ADAX). */
  function StartConvGpio(l: Link, mode: AdcMode, pins: Selection): (res: (Link, Result<CommandTime, Error>))
    ensures res.1.Ok? ==> res.1.value == pins.timing(mode)
    ensures res.0.Plain? == l.Plain?
    ensures l.Plain? ==> res.0.log == l.log + [Exchange([Write(Frame(GpioConversionWord(mode, pins.bitmap)))], l.respond(|l.log|))]
  {
    StartConversion(l, GpioConversionWord(mode, pins.bitmap), pins.timing(mode))
  }

  /** `start_overlap_measurement` (ADOL). */
  function StartOverlapMeasurement(l: Link, mode: AdcMode, dcp: bool): (res: (Link, Result<Unit, Error>))
    ensures res.0.Plain? == l.Plain?
    ensures l.Plain? ==> res.0.log == l.log + [Exchange([Write(Frame(OverlapConversionWord(mode, dcp)))], l.respond(|l.log|))]
  {
    SendCommand(l, OverlapConversionWord(mode, dcp))
  }

  /** `measure_internal_parameters` (ADSTAT). */
  function MeasureInternalParameters(l: Link, mode: AdcMode, group: StatusGroup): (res: (Link, Result<CommandTime, Error>))
    ensures res.1.Ok? ==> res.1.value == StatusTiming(group, mode)
    ensures res.0.Plain? == l.Plain?
    ensures l.Plain? ==> res.0.log == l.log + [Exchange([Write(Frame(StatusConversionWord(mode, group)))], l.respond(|l.log|))]
  {
    StartConversion(l, StatusConversionWord(mode, group), StatusTiming(group, mode))
  }

  /**
   * A command puts exactly its frame on the link in one transaction and,
   * under SDO-line polling, leaves chip select asserted when it succeeds,
   * so that the conversion can be polled.
   */
  lemma SendCommandEffect(l: Link, w: u16)
    ensures var res := SendCommand(l, w);
      && (l.Plain? ==> (res.0.log == l.log + [Exchange([Write(Frame(w))], l.respond(|l.log|))]
                        && (res.1.Ok? <==> l.respond(|l.log|).Completed?)))
      && (l.Latched? && res.1.Ok? ==>
            (res.0.state.csLow
             && Spi.BusOps(res.0.state.events) == Spi.BusOps(l.state.events) + [Write(Frame(w))]))
  {
    if l.Latched? {
      var ops := [Write(Frame(w))];
      Spi.TransactionDrivesPinOnlyWhenReleased(l.oracle, l.state, ops, Spi.KeepLatch);
      if Spi.TransactionSpec(l.oracle, l.state, ops, Spi.KeepLatch).1.Ok? {
        Spi.SuccessfulTransactionOrder(l.oracle, l.state, ops, Spi.KeepLatch);
        assert ops[..0] == [];
        assert Spi.NonDelay(ops) == ops;
      }
    }
  }

  /**
   * A cell conversion sends the frame whose word carries the mode, the cell
   * selection and the discharge permission, and returns the selection's
   * timing for the mode.
   */
  lemma StartConvCellsEffect(l: Link, mode: AdcMode, cells: Selection, dcp: bool)
    requires cells.bitmap <= 7
    ensures var w := CellConversionWord(mode, cells.bitmap, dcp);
      && WordMode(w) == mode && WordSelection(w) == cells.bitmap && WordDischarge(w) == dcp
      && StartConvCells(l, mode, cells, dcp).0 == SendCommand(l, w).0
      && (StartConvCells(l, mode, cells, dcp).1.Ok? <==> SendCommand(l, w).1.Ok?)
      && (StartConvCells(l, mode, cells, dcp).1.Ok? ==> StartConvCells(l, mode, cells, dcp).1.value == cells.timing(mode))
  {
    CellConversionRoundTrip(mode, cells.bitmap, dcp);
  }

  // Reading a register of every device in the chain.

  /**
   * The operations of a chain read: the command followed by eight dummy
   * bytes in one transfer, whose last eight received bytes are the first
   * device's block, then one eight-byte read for every further device.
   */
  function ChainReadOps(cmd: seq<byte>, n: nat): (ops: seq<Operation>)
    requires n >= 1
    ensures |ops| == n && ops[0] == Transfer(12, cmd + Fill(8, 0xFF))
    ensures forall i :: 1 <= i < n ==> ops[i] == Read(8)
  {
    [Transfer(12, cmd + Fill(8, 0xFF))] + seq(n - 1, _ => Read(8))
  }

  /** The per-device blocks of a chain read's receive buffers. */
  function ChainBlocks(rx: seq<seq<byte>>): (blocks: seq<seq<byte>>)
    requires |rx| >= 1 && |rx[0]| == 12
    ensures |blocks| == |rx| && blocks[0] == rx[0][4..]
    ensures forall i :: 1 <= i < |rx| ==> blocks[i] == rx[i]
  {
    [rx[0][4..]] + rx[1..]
  }

  /** `read_trans_daisy_chain`: one eight-byte block per device. */
  function ReadTransDaisyChain(l: Link, cmd: seq<byte>, n: nat): (res: (Link, Result<seq<seq<byte>>, Error>))
    requires n >= 1
    ensures res.0 == LinkTransaction(l, ChainReadOps(cmd, n)).0
    ensures res.1.Ok? ==> |res.1.value| == n && forall i :: 0 <= i < n ==> |res.1.value[i]| == 8
  {
    var ops := ChainReadOps(cmd, n);
    var t := LinkTransaction(l, ops);
    if t.1.Err? then (t.0, Err(BusError(t.1.error)))
    else
      LinkReceived(l, ops);
      (t.0, Ok(ChainBlocks(t.1.value)))
  }

  /** Every block ends with the PEC of its six data bytes. */
  predicate AllValid(blocks: seq<seq<byte>>)
  {
    forall i :: 0 <= i < |blocks| ==> Valid(blocks[i])
  }

  /** The three little-endian words of a block. */
  function Decode(block: seq<byte>): (v: seq<u16>)
    requires |block| >= 6
    ensures |v| == 3
  {
    [LittleEndian(block[0], block[1]), LittleEndian(block[2], block[3]), LittleEndian(block[4], block[5])]
  }

  /** The bytes a device stores three words as. */
  function Encode(v: seq<u16>): (block: seq<byte>)
    requires |v| == 3
    ensures |block| == 6
  {
    [LowByte(v[0]), HighByte(v[0]), LowByte(v[1]), HighByte(v[1]), LowByte(v[2]), HighByte(v[2])]
  }

  /** Decoding what was encoded gives the words back. */
  lemma DecodeEncode(v: seq<u16>)
    requires |v| == 3
    ensures Decode(Encode(v)) == v
  {
    LittleEndianRoundTrip(v[0]);
    LittleEndianRoundTrip(v[1]);
    LittleEndianRoundTrip(v[2]);
  }

  /** Encoding what was decoded gives the six data bytes back. */
  lemma EncodeDecode(block: seq<byte>)
    requires |block| >= 6
    ensures Encode(Decode(block)) == block[..6]
  {
    LittleEndianBytes(block[0], block[1]);
    LittleEndianBytes(block[2], block[3]);
    LittleEndianBytes(block[4], block[5]);
  }

  function DecodeAll(blocks: seq<seq<byte>>): (v: seq<seq<u16>>)
    requires forall i :: 0 <= i < |blocks| ==> |blocks[i]| >= 6
    ensures |v| == |blocks| && forall i :: 0 <= i < |blocks| ==> v[i] == Decode(blocks[i])
  {
    seq(|blocks|, i requires 0 <= i < |blocks| => Decode(blocks[i]))
  }

  /** One triple of words per device. */
  predicate Shaped(v: seq<seq<u16>>, n: nat, width: nat)
  {
    |v| == n && forall i :: 0 <= i < n ==> |v[i]| == width
  }

  /**
   * `read_daisy_chain`: the blocks are checked in order; a bad checksum
   * ends the call before the poll method's end step, otherwise the
   * decoded triples are returned after it.
   */
  function ReadDaisyChain(l: Link, cmd: seq<byte>, n: nat): (res: (Link, Result<seq<seq<u16>>, Error>))
    requires n >= 1
    ensures res.1.Ok? ==> Shaped(res.1.value, n, 3)
  {
    var t := ReadTransDaisyChain(l, cmd, n);
    if t.1.Err? then (t.0, Err(t.1.error))
    else if !AllValid(t.1.value) then (t.0, Err(ChecksumMismatch))
    else
      var e := EndSync(t.0);
      (e.0, if e.1.Ok? then Ok(DecodeAll(t.1.value)) else Err(BusError(e.1.error)))
  }

  /**
   * A read succeeds exactly when the transaction does, every device's
   * block passes its checksum and the end step succeeds. A checksum
   * mismatch skips the end step, so under SDO-line polling chip select
   * stays asserted.
   */
  lemma ReadDaisyChainOutcome(l: Link, cmd: seq<byte>, n: nat)
    requires n >= 1
    ensures var t := ReadTransDaisyChain(l, cmd, n);
      var res := ReadDaisyChain(l, cmd, n);
      && (res.1.Ok? <==> t.1.Ok? && AllValid(t.1.value) && EndSync(t.0).1.Ok?)
      && (res.1 == Err(ChecksumMismatch) <==> t.1.Ok? && !AllValid(t.1.value))
      && (res.1 == Err(ChecksumMismatch) ==> res.0 == t.0 && (l.Latched? ==> res.0.state.csLow))
  {
    var t := ReadTransDaisyChain(l, cmd, n);
    if l.Latched? && t.1.Ok? {
      Spi.TransactionDrivesPinOnlyWhenReleased(l.oracle, l.state, ChainReadOps(cmd, n), Spi.KeepLatch);
    }
  }

  /** A successful read gives every device the decoding of its own block. */
  lemma ReadDaisyChainValues(l: Link, cmd: seq<byte>, n: nat)
    requires n >= 1 && ReadDaisyChain(l, cmd, n).1.Ok?
    ensures var t := ReadTransDaisyChain(l, cmd, n);
      t.1.Ok? && forall i :: 0 <= i < n ==> ReadDaisyChain(l, cmd, n).1.value[i] == Decode(t.1.value[i])
  {
  }

  /** Slot `k` of a decoded block is the little-endian word in bytes `2k` and `2k + 1`. */
  lemma DecodeSlots(block: seq<byte>, k: nat)
    requires |block| >= 6 && k < 3
    ensures Decode(block)[k] == LittleEndian(block[2 * k], block[2 * k + 1])
  {
  }

  /** The blocks a chain read returns: the first device's from the transfer, the others from the reads. */
  lemma ChainReadBlocks(l: Link, cmd: seq<byte>, n: nat)
    requires n >= 1
    ensures var t := LinkTransaction(l, ChainReadOps(cmd, n));
      var r := ReadTransDaisyChain(l, cmd, n);
      && (r.1.Ok? <==> t.1.Ok?)
      && (r.1.Ok? ==>
            (|t.1.value[0]| == 12 && r.1.value[0] == t.1.value[0][4..12]
             && forall i :: 1 <= i < n ==> r.1.value[i] == t.1.value[i]))
  {
    var t := LinkTransaction(l, ChainReadOps(cmd, n));
    if t.1.Ok? {
      LinkReceived(l, ChainReadOps(cmd, n));
      assert t.1.value[0][4..] == t.1.value[0][4..12];
    }
  }

  /** `read_register`. */
  function ReadRegister<R>(d: Descriptor<R>, l: Link, reg: R, n: nat): (res: (Link, Result<seq<seq<u16>>, Error>))
    requires n >= 1
    ensures res.1.Ok? ==> Shaped(res.1.value, n, 3)
  {
    ReadDaisyChain(l, d.readCommand(reg), n)
  }

  /** Without polling a register read is exactly one transaction: the register's chain read. */
  lemma PlainReadRegister<R>(d: Descriptor<R>, l: Link, reg: R, n: nat)
    requires n >= 1 && l.Plain?
    ensures var res := ReadRegister(d, l, reg, n);
      res.0 == Plain(l.respond, l.log + [Exchange(ChainReadOps(d.readCommand(reg), n), l.respond(|l.log|))])
  {
  }

  // Writing a register of every device in the chain.

  /**
   * The operations of a chain write: the command and the first device's
   * data and PEC in one write, then one eight-byte write for every further
   * device.
   */
  function ChainWriteOps(cmd: seq<byte>, data: seq<seq<byte>>): (ops: seq<Operation>)
    requires |data| >= 1
    ensures |ops| == |data| && ops[0] == Write(cmd + WithPec(data[0]))
    ensures forall i :: 1 <= i < |data| ==> ops[i] == Write(WithPec(data[i]))
  {
    [Write(cmd + WithPec(data[0]))] + seq(|data| - 1, i requires 0 <= i < |data| - 1 => Write(WithPec(data[i + 1])))
  }

  /** The eight-byte block a chain write carries for device `i`. */
  function WrittenBlock(ops: seq<Operation>, i: nat): seq<byte>
    requires i < |ops| && ops[i].Write? && (i == 0 ==> |ops[0].data| >= 4)
  {
    if i == 0 then ops[0].data[4..] else ops[i].data
  }

  /**
   * Every device's block of a chain write passes the checksum a device
   * applies and carries that device's six bytes; the first write starts
   * with the register's command.
   */
  lemma ChainWriteBlocks(cmd: seq<byte>, data: seq<seq<byte>>)
    requires |cmd| == 4 && |data| >= 1 && forall i :: 0 <= i < |data| ==> |data[i]| == 6
    ensures var ops := ChainWriteOps(cmd, data);
      && ops[0].data[..4] == cmd
      && forall i :: 0 <= i < |data| ==>
           |WrittenBlock(ops, i)| == 8 && Valid(WrittenBlock(ops, i)) && WrittenBlock(ops, i)[..6] == data[i]
  {
    var ops := ChainWriteOps(cmd, data);
    assert (cmd + WithPec(data[0]))[4..] == WithPec(data[0]);
    assert (cmd + WithPec(data[0]))[..4] == cmd;
  }

  /** `write_register`. */
  function WriteRegister<R>(d: Descriptor<R>, l: Link, reg: R, data: seq<seq<byte>>): (res: (Link, Result<Unit, Error>))
    requires |data| >= 1
    ensures d.writeCommand(reg).Err? ==> res == (l, Err(ReadOnlyRegister))
    ensures res.1 == Err(ReadOnlyRegister) ==> d.writeCommand(reg).Err?
  {
    match d.writeCommand(reg)
    case Err(_) => (l, Err(ReadOnlyRegister))
    case Ok(cmd) =>
      var t := LinkTransaction(l, ChainWriteOps(cmd, data));
      if t.1.Err? then (t.0, Err(BusError(t.1.error)))
      else
        var e := EndSync(t.0);
        (e.0, if e.1.Ok? then Ok(Unit) else Err(BusError(e.1.error)))
  }

  /**
   * Writing a writable register is one transaction of the chain write
   * followed by the poll method's end step.
   */
  lemma WriteRegisterEffect<R>(d: Descriptor<R>, l: Link, reg: R, data: seq<seq<byte>>)
    requires |data| >= 1 && d.writeCommand(reg).Ok?
    ensures var t := LinkTransaction(l, ChainWriteOps(d.writeCommand(reg).value, data));
      var res := WriteRegister(d, l, reg, data);
      && (t.1.Err? ==> res == (t.0, Err(BusError(t.1.error))))
      && (t.1.Ok? ==> res.0 == EndSync(t.0).0 && (res.1.Ok? <==> EndSync(t.0).1.Ok?))
      && (l.Plain? ==> res.0.log == l.log + [Exchange(ChainWriteOps(d.writeCommand(reg).value, data), l.respond(|l.log|))])
  {
  }

  /** Group A (bytes 0-5) of every device's configuration. */
  function GroupA(values: seq<Config.Registers>): (a: seq<seq<byte>>)
    ensures |a| == |values| && forall i :: 0 <= i < |values| ==> a[i] == values[i][..6] && |a[i]| == 6
  {
    seq(|values|, i requires 0 <= i < |values| => values[i][..6])
  }

  /** Group B (bytes 6-11) of every device's configuration. */
  function GroupB(values: seq<Config.Registers>): (b: seq<seq<byte>>)
    ensures |b| == |values| && forall i :: 0 <= i < |values| ==> b[i] == values[i][6..] && |b[i]| == 6
  {
    seq(|values|, i requires 0 <= i < |values| => values[i][6..])
  }

  /** `write_configuration`: group A to the first configuration register, then group B to the second if there is one. */
  function WriteConfiguration<R>(d: Descriptor<R>, l: Link, values: seq<Config.Registers>): (res: (Link, Result<Unit, Error>))
    requires |values| >= 1
    ensures res.1.Ok? ==> WriteRegister(d, l, d.configurationA, GroupA(values)).1.Ok?
    ensures d.configurationB.None? ==> res == WriteRegister(d, l, d.configurationA, GroupA(values))
  {
    var a := WriteRegister(d, l, d.configurationA, GroupA(values));
    if a.1.Err? || d.configurationB.None? then a
    else WriteRegister(d, a.0, d.configurationB.value, GroupB(values))
  }

  /**
   * Without polling, writing the configuration of a device type whose
   * configuration registers are writable is one chain write of group A and,
   * only when the type has a second configuration register and the first
   * write succeeded, one of group B; each device's bytes travel in its own
   * checksummed block.
   */
  lemma WriteConfigurationPlain<R>(d: Descriptor<R>, l: Link, values: seq<Config.Registers>)
    requires |values| >= 1 && l.Plain?
    requires d.writeCommand(d.configurationA).Ok?
    requires d.configurationB.Some? ==> d.writeCommand(d.configurationB.value).Ok?
    ensures var opsA := ChainWriteOps(d.writeCommand(d.configurationA).value, GroupA(values));
      var res := WriteConfiguration(d, l, values);
      var first := l.respond(|l.log|);
      && (first.Failed? || d.configurationB.None? ==> res.0.log == l.log + [Exchange(opsA, first)])
      && (first.Failed? ==> res.1 == Err(BusError(DeviceFault(first.kind))))
      && (first.Completed? && d.configurationB.Some? ==>
            var opsB := ChainWriteOps(d.writeCommand(d.configurationB.value).value, GroupB(values));
            res.0.log == l.log + [Exchange(opsA, first), Exchange(opsB, l.respond(|l.log| + 1))])
  {
    var opsA := ChainWriteOps(d.writeCommand(d.configurationA).value, GroupA(values));
    WriteRegisterEffect(d, l, d.configurationA, GroupA(values));
    var a := WriteRegister(d, l, d.configurationA, GroupA(values));
    if l.respond(|l.log|).Completed? && d.configurationB.Some? {
      WriteRegisterEffect(d, a.0, d.configurationB.value, GroupB(values));
    }
  }

  // Mapping voltages to channels.

  /** The grouped register indices of the first `locs`. */
  function IndexSet<R, C>(d: Descriptor<R>, locs: seq<RegisterAddress<R, C>>): set<nat>
  {
    if |locs| == 0 then {} else IndexSet(d, locs[..|locs| - 1]) + {d.toIndex(locs[|locs| - 1].register)}
  }

  /** The registers in the order their grouped index first appears. */
  function FirstReads<R, C>(d: Descriptor<R>, locs: seq<RegisterAddress<R, C>>): seq<R>
  {
    if |locs| == 0 then []
    else
      var prefix := locs[..|locs| - 1];
      var r := locs[|locs| - 1].register;
      if d.toIndex(r) in IndexSet(d, prefix) then FirstReads(d, prefix) else FirstReads(d, prefix) + [r]
  }

  /** One more location: its index joins the set, and its register is read when the index is new. */
  lemma FirstReadsStep<R, C>(d: Descriptor<R>, locs: seq<RegisterAddress<R, C>>, a: RegisterAddress<R, C>)
    ensures IndexSet(d, locs + [a]) == IndexSet(d, locs) + {d.toIndex(a.register)}
    ensures FirstReads(d, locs + [a]) == if d.toIndex(a.register) in IndexSet(d, locs)
      then FirstReads(d, locs) else FirstReads(d, locs) + [a.register]
  {
    assert (locs + [a])[..|locs|] == locs;
  }

  /** The registers of some locations, in order. */
  function Registers<R, C>(locs: seq<RegisterAddress<R, C>>): (regs: seq<R>)
    ensures |regs| == |locs| && forall i :: 0 <= i < |locs| ==> regs[i] == locs[i].register
  {
    seq(|locs|, i requires 0 <= i < |locs| => locs[i].register)
  }

  /** The index set is the image of the locations under the grouped index. */
  lemma {:induction false} IndexSetImage<R, C>(d: Descriptor<R>, locs: seq<RegisterAddress<R, C>>)
    ensures IndexSet(d, locs) == set i | 0 <= i < |locs| :: d.toIndex(locs[i].register)
    decreases |locs|
  {
    if |locs| > 0 {
      var prefix := locs[..|locs| - 1];
      IndexSetImage(d, prefix);
      var whole := set i | 0 <= i < |locs| :: d.toIndex(locs[i].register);
      var part := set i | 0 <= i < |prefix| :: d.toIndex(prefix[i].register);
      assert whole == part + {d.toIndex(locs[|locs| - 1].register)} by {
        forall x | x in whole ensures x in part + {d.toIndex(locs[|locs| - 1].register)} {
          var i :| 0 <= i < |locs| && x == d.toIndex(locs[i].register);
          if i < |prefix| {
            assert prefix[i] == locs[i];
          }
        }
        forall x | x in part ensures x in whole {
          var i :| 0 <= i < |prefix| && x == d.toIndex(prefix[i].register);
          assert prefix[i] == locs[i];
        }
      }
    }
  }

  /** Appending locations whose indices are already known reads nothing more. */
  lemma {:induction false} FirstReadsAppendKnown<R, C>(d: Descriptor<R>, p: seq<RegisterAddress<R, C>>, q: seq<RegisterAddress<R, C>>)
    requires forall i :: 0 <= i < |q| ==> d.toIndex(q[i].register) in IndexSet(d, p)
    ensures FirstReads(d, p + q) == FirstReads(d, p) && IndexSet(d, p + q) == IndexSet(d, p)
    decreases |q|
  {
    if |q| > 0 {
      var q0 := q[..|q| - 1];
      FirstReadsAppendKnown(d, p, q0);
      assert p + q == (p + q0) + [q[|q| - 1]];
      FirstReadsStep(d, p + q0, q[|q| - 1]);
    } else {
      assert p + q == p;
    }
  }

  /** The index set of a concatenation is the union of the index sets. */
  lemma {:induction false} IndexSetAppend<R, C>(d: Descriptor<R>, p: seq<RegisterAddress<R, C>>, q: seq<RegisterAddress<R, C>>)
    ensures IndexSet(d, p + q) == IndexSet(d, p) + IndexSet(d, q)
    decreases |q|
  {
    if |q| > 0 {
      var q0 := q[..|q| - 1];
      var x := q[|q| - 1];
      IndexSetAppend(d, p, q0);
      assert p + q == (p + q0) + [x];
      FirstReadsStep(d, p + q0, x);
      FirstReadsStep(d, q0, x);
      assert q0 + [x] == q;
    } else {
      assert p + q == p;
    }
  }

  /** An index none of the appended locations has stays outside the index set. */
  lemma IndexAbsent<R, C>(d: Descriptor<R>, p: seq<RegisterAddress<R, C>>, q: seq<RegisterAddress<R, C>>, k: nat)
    requires k !in IndexSet(d, p)
    requires forall i :: 0 <= i < |q| ==> d.toIndex(q[i].register) != k
    ensures k !in IndexSet(d, p + q)
  {
    IndexSetAppend(d, p, q);
    IndexSetImage(d, q);
  }

  /** Appending locations with fresh, pairwise distinct indices reads each of their registers, in order. */
  lemma {:induction false} FirstReadsAppendNew<R, C>(d: Descriptor<R>, p: seq<RegisterAddress<R, C>>, q: seq<RegisterAddress<R, C>>)
    requires forall i, j :: 0 <= i < j < |q| ==> d.toIndex(q[i].register) != d.toIndex(q[j].register)
    requires forall i :: 0 <= i < |q| ==> d.toIndex(q[i].register) !in IndexSet(d, p)
    ensures FirstReads(d, p + q) == FirstReads(d, p) + Registers(q)
    decreases |q|
  {
    if |q| > 0 {
      var q0 := q[..|q| - 1];
      var x := q[|q| - 1];
      assert q == q0 + [x];
      FirstReadsAppendNew(d, p, q0);
      forall i | 0 <= i < |q0|
        ensures d.toIndex(q0[i].register) != d.toIndex(x.register)
      {
        assert q0[i] == q[i];
      }
      IndexAbsent(d, p, q0, d.toIndex(x.register));
      FirstReadsAppendOne(d, p, q0, x);
    } else {
      assert p + q == p;
      assert Registers(q) == [];
    }
  }

  lemma FirstReadsAppendOne<R, C>(d: Descriptor<R>, p: seq<RegisterAddress<R, C>>, q: seq<RegisterAddress<R, C>>, x: RegisterAddress<R, C>)
    requires FirstReads(d, p + q) == FirstReads(d, p) + Registers(q)
    requires d.toIndex(x.register) !in IndexSet(d, p + q)
    ensures FirstReads(d, p + (q + [x])) == FirstReads(d, p) + Registers(q + [x])
  {
    var pq := p + q;
    var a := FirstReads(d, p);
    var rq := Registers(q);
    FirstReadsStep(d, pq, x);
    assert FirstReads(d, pq + [x]) == (a + rq) + [x.register];
    assert p + (q + [x]) == pq + [x];
    assert Registers(q + [x]) == rq + [x.register];
    assert (a + rq) + [x.register] == a + (rq + [x.register]);
  }

  /** A cache of register readings, keyed by grouped index. */
  type Cache = map<nat, seq<seq<u16>>>

  /**
   * The loads of `read_voltages`: walking the locations, a register is
   * read only when no reading of its grouped index is cached.
   */
  function Load<R, C>(d: Descriptor<R>, l: Link, locs: seq<RegisterAddress<R, C>>, n: nat): (res: (Link, Result<Cache, Error>))
    requires n >= 1
    ensures res.1.Ok? ==> res.1.value.Keys == IndexSet(d, locs)
    ensures res.1.Ok? ==> forall i | i in res.1.value :: Shaped(res.1.value[i], n, 3)
    decreases |locs|
  {
    if |locs| == 0 then (l, Ok(map[]))
    else
      var prior := Load(d, l, locs[..|locs| - 1], n);
      var reg := locs[|locs| - 1].register;
      if prior.1.Err? || d.toIndex(reg) in prior.1.value then prior
      else
        var r := ReadRegister(d, prior.0, reg, n);
        if r.1.Err? then (r.0, Err(r.1.error))
        else (r.0, Ok(prior.1.value[d.toIndex(reg) := r.1.value]))
  }

  /** Once a load fails, the locations after it change nothing: the failure is the outcome. */
  lemma {:induction false} LoadFailureStops<R, C>(d: Descriptor<R>, l: Link, locs: seq<RegisterAddress<R, C>>, j: nat, n: nat)
    requires n >= 1 && j <= |locs| && Load(d, l, locs[..j], n).1.Err?
    ensures Load(d, l, locs, n) == Load(d, l, locs[..j], n)
    decreases |locs| - j
  {
    if j < |locs| {
      assert locs[..j + 1][..j] == locs[..j];
      LoadFailureStops(d, l, locs, j + 1, n);
    } else {
      assert locs[..j] == locs;
    }
  }

  /** A location whose grouped index is already cached adds no read to the loads before it. */
  lemma LoadCached<R, C>(d: Descriptor<R>, l: Link, locs: seq<RegisterAddress<R, C>>, k: nat, n: nat)
    requires n >= 1 && k < |locs| && Load(d, l, locs[..k], n).1.Ok?
    requires d.toIndex(locs[k].register) in Load(d, l, locs[..k], n).1.value
    ensures Load(d, l, locs[..k + 1], n) == Load(d, l, locs[..k], n)
  {
    assert locs[..k + 1][..k] == locs[..k];
  }

  /** A location whose grouped index is not cached yet reads its register and caches the reading. */
  lemma LoadReads<R, C>(d: Descriptor<R>, l: Link, locs: seq<RegisterAddress<R, C>>, k: nat, n: nat)
    requires n >= 1 && k < |locs| && Load(d, l, locs[..k], n).1.Ok?
    requires d.toIndex(locs[k].register) !in Load(d, l, locs[..k], n).1.value
    ensures var prior := Load(d, l, locs[..k], n);
      var read := ReadRegister(d, prior.0, locs[k].register, n);
      Load(d, l, locs[..k + 1], n) ==
        if read.1.Err? then (read.0, Err(read.1.error))
        else (read.0, Ok(prior.1.value[d.toIndex(locs[k].register) := read.1.value]))
  {
    assert locs[..k + 1][..k] == locs[..k];
  }

  /** Every location's grouped index is cached and its slot is in range. */
  predicate Covers<R, C>(d: Descriptor<R>, locs: seq<RegisterAddress<R, C>>, cache: Cache, n: nat)
  {
    && (forall k :: 0 <= k < |locs| ==> d.toIndex(locs[k].register) in cache && locs[k].slot < 3)
    && (forall i | i in cache :: Shaped(cache[i], n, 3))
  }

  /** Device by device, the voltage at every location, in the locator's order. */
  function Assemble<R, C>(d: Descriptor<R>, locs: seq<RegisterAddress<R, C>>, cache: Cache, n: nat)
    : (v: seq<seq<Voltage<C>>>)
    requires Covers(d, locs, cache, n)
    ensures |v| == n
    ensures forall dev :: 0 <= dev < n ==> |v[dev]| == |locs|
    ensures forall dev, k :: 0 <= dev < n && 0 <= k < |locs| ==>
      v[dev][k] == Voltage(locs[k].channel, cache[d.toIndex(locs[k].register)][dev][locs[k].slot])
  {
    seq(n, dev requires 0 <= dev < n =>
      seq(|locs|, k requires 0 <= k < |locs| =>
        Voltage(locs[k].channel, cache[d.toIndex(locs[k].register)][dev][locs[k].slot])))
  }

  /** `row` holds, for device `dev`, the cached voltages at the first `|row|` locations. */
  ghost predicate RowPrefix<R, C>(d: Descriptor<R>, locs: seq<RegisterAddress<R, C>>, cache: Cache, dev: nat, row: seq<Voltage<C>>)
  {
    && |row| <= |locs|
    && forall k :: 0 <= k < |row| ==>
      && d.toIndex(locs[k].register) in cache
      && dev < |cache[d.toIndex(locs[k].register)]|
      && locs[k].slot < |cache[d.toIndex(locs[k].register)][dev]|
      && row[k] == Voltage(locs[k].channel, cache[d.toIndex(locs[k].register)][dev][locs[k].slot])
  }

  /** `row` holds, for device `dev`, the cached voltage at every location. */
  ghost predicate RowOf<R, C>(d: Descriptor<R>, locs: seq<RegisterAddress<R, C>>, cache: Cache, dev: nat, row: seq<Voltage<C>>)
  {
    |row| == |locs| && RowPrefix(d, locs, cache, dev, row)
  }

  /** The voltage at the next location extends a row. */
  lemma RowExtend<R, C>(d: Descriptor<R>, locs: seq<RegisterAddress<R, C>>, cache: Cache, dev: nat,
                        row: seq<Voltage<C>>, v: Voltage<C>)
    requires |row| < |locs| && RowPrefix(d, locs, cache, dev, row)
    requires var a := locs[|row|]; var i := d.toIndex(a.register);
      && i in cache && dev < |cache[i]| && a.slot < |cache[i][dev]|
      && v == Voltage(a.channel, cache[i][dev][a.slot])
    ensures RowPrefix(d, locs, cache, dev, row + [v])
  {
    var extended := row + [v];
    forall j | 0 <= j < |row|
      ensures extended[j] == row[j]
    {
    }
  }

  /** Caching a reading under a new grouped index keeps every row that was built before. */
  lemma RowGrowsCache<R, C>(d: Descriptor<R>, locs: seq<RegisterAddress<R, C>>, cache: Cache, dev: nat,
                            row: seq<Voltage<C>>, i: nat, reading: seq<seq<u16>>)
    requires RowPrefix(d, locs, cache, dev, row) && i !in cache
    ensures RowPrefix(d, locs, cache[i := reading], dev, row)
  {
  }

  /** Row `dev` of `rows` holds device `dev`'s cached voltages, for every row. */
  ghost predicate RowsOf<R, C>(d: Descriptor<R>, locs: seq<RegisterAddress<R, C>>, cache: Cache, rows: seq<seq<Voltage<C>>>)
  {
    forall dev :: 0 <= dev < |rows| ==> RowOf(d, locs, cache, dev, rows[dev])
  }

  lemma RowsAppend<R, C>(d: Descriptor<R>, locs: seq<RegisterAddress<R, C>>, cache: Cache,
                         rows: seq<seq<Voltage<C>>>, row: seq<Voltage<C>>)
    requires RowsOf(d, locs, cache, rows) && RowOf(d, locs, cache, |rows|, row)
    ensures RowsOf(d, locs, cache, rows + [row])
  {
    var all := rows + [row];
    forall dev | 0 <= dev < |all|
      ensures RowOf(d, locs, cache, dev, all[dev])
    {
      if dev < |rows| {
        assert all[dev] == rows[dev];
      }
    }
  }

  /** Rows that each hold one device's cached voltage at every location are what `Assemble` builds. */
  lemma RowsAssemble<R, C>(d: Descriptor<R>, locs: seq<RegisterAddress<R, C>>, cache: Cache, n: nat, rows: seq<seq<Voltage<C>>>)
    requires Covers(d, locs, cache, n) && |rows| == n && RowsOf(d, locs, cache, rows)
    ensures rows == Assemble(d, locs, cache, n)
  {
    var v := Assemble(d, locs, cache, n);
    forall dev | 0 <= dev < n
      ensures rows[dev] == v[dev]
    {
      assert RowOf(d, locs, cache, dev, rows[dev]);
    }
  }

  lemma IndexSetCovers<R, C>(d: Descriptor<R>, locs: seq<RegisterAddress<R, C>>)
    ensures forall k :: 0 <= k < |locs| ==> d.toIndex(locs[k].register) in IndexSet(d, locs)
    decreases |locs|
  {
    if |locs| > 0 {
      IndexSetCovers(d, locs[..|locs| - 1]);
    }
  }

  /** Every location names a slot of a three-word register. */
  predicate SlotsInRange<R, C>(locs: seq<RegisterAddress<R, C>>)
  {
    forall k :: 0 <= k < |locs| ==> locs[k].slot < 3
  }

  /** `read_voltages`: load what the locations need, then map every device's readings to the channels. */
  function ReadVoltages<R, C>(d: Descriptor<R>, l: Link, locs: seq<RegisterAddress<R, C>>, n: nat)
    : (res: (Link, Result<seq<seq<Voltage<C>>>, Error>))
    requires n >= 1 && SlotsInRange(locs)
    ensures res.1.Ok? ==> |res.1.value| == n
    ensures res.1.Ok? ==> forall dev, k :: 0 <= dev < n && 0 <= k < |locs| ==>
      |res.1.value[dev]| == |locs| && res.1.value[dev][k].channel == locs[k].channel
  {
    var ld := Load(d, l, locs, n);
    if ld.1.Err? then (ld.0, Err(ld.1.error))
    else
      IndexSetCovers(d, locs);
      (ld.0, Ok(Assemble(d, locs, ld.1.value, n)))
  }

  /** The grouped indices of a sequence of registers. */
  function RegisterIndices<R>(d: Descriptor<R>, regs: seq<R>): set<nat>
  {
    if |regs| == 0 then {} else RegisterIndices(d, regs[..|regs| - 1]) + {d.toIndex(regs[|regs| - 1])}
  }

  lemma {:induction false} RegisterIndicesMembers<R>(d: Descriptor<R>, regs: seq<R>)
    ensures forall i :: 0 <= i < |regs| ==> d.toIndex(regs[i]) in RegisterIndices(d, regs)
    decreases |regs|
  {
    if |regs| > 0 {
      RegisterIndicesMembers(d, regs[..|regs| - 1]);
    }
  }

  /**
   * The registers `read_voltages` reads have pairwise distinct grouped
   * indices, and their indices are exactly those of the locations.
   */
  lemma {:induction false} FirstReadsDistinct<R, C>(d: Descriptor<R>, locs: seq<RegisterAddress<R, C>>)
    ensures var f := FirstReads(d, locs);
      && (forall i, j :: 0 <= i < j < |f| ==> d.toIndex(f[i]) != d.toIndex(f[j]))
      && RegisterIndices(d, f) == IndexSet(d, locs)
    decreases |locs|
  {
    if |locs| > 0 {
      var prefix := locs[..|locs| - 1];
      var f0 := FirstReads(d, prefix);
      FirstReadsDistinct(d, prefix);
      var r := locs[|locs| - 1].register;
      if d.toIndex(r) !in IndexSet(d, prefix) {
        var f := f0 + [r];
        assert f[..|f0|] == f0;
        RegisterIndicesMembers(d, f0);
      }
    }
  }

  /**
   * Without polling, a successful `read_voltages` performs one chain read
   * per distinct grouped index of the locations, in the order the indices
   * first appear, and no other transaction: every register is read at most
   * once per call.
   */
  lemma {:induction false} LoadReadsEachIndexOnce<R, C>(d: Descriptor<R>, l: Link, locs: seq<RegisterAddress<R, C>>, n: nat)
    requires n >= 1 && l.Plain? && Load(d, l, locs, n).1.Ok?
    ensures var res := Load(d, l, locs, n); var f := FirstReads(d, locs);
      && res.0.Plain? && res.0.respond == l.respond
      && |res.0.log| == |l.log| + |f|
      && res.0.log[..|l.log|] == l.log
      && forall j :: 0 <= j < |f| ==> res.0.log[|l.log| + j].ops == ChainReadOps(d.readCommand(f[j]), n)
    decreases |locs|
  {
    if |locs| > 0 {
      var prefix := locs[..|locs| - 1];
      var prior := Load(d, l, prefix, n);
      LoadReadsEachIndexOnce(d, l, prefix, n);
      var reg := locs[|locs| - 1].register;
      if d.toIndex(reg) !in prior.1.value {
        PlainReadRegister(d, prior.0, reg, n);
        var after := Load(d, l, locs, n).0;
        assert after.log == prior.0.log + [Exchange(ChainReadOps(d.readCommand(reg), n), l.respond(|prior.0.log|))];
        assert after.log[..|l.log|] == prior.0.log[..|l.log|];
      }
    }
  }

  // Self-test results.

  /** Three zero words per device, for a register the device type does not have. */
  function Zeros(n: nat): (z: seq<seq<u16>>)
    ensures Shaped(z, n, 3) && forall i, k :: 0 <= i < n && 0 <= k < 3 ==> z[i][k] == 0
  {
    seq(n, _ => [0, 0, 0])
  }

  /** A register's readings, or zeros when the device type has no such register. */
  function ReadOptional<R>(d: Descriptor<R>, l: Link, reg: Option<R>, n: nat): (res: (Link, Result<seq<seq<u16>>, Error>))
    requires n >= 1
    ensures res.1.Ok? ==> Shaped(res.1.value, n, 3)
    ensures reg.None? ==> res == (l, Ok(Zeros(n)))
  {
    if reg.Some? then ReadRegister(d, l, reg.value, n) else (l, Ok(Zeros(n)))
  }

  /** `read_overlap_result`: per device, slots 0 and 1 of the first overlap register, then of the second. */
  function ReadOverlapResult<R>(d: Descriptor<R>, l: Link, n: nat): (res: (Link, Result<seq<seq<u16>>, Error>))
    requires n >= 1
    ensures res.1.Ok? ==> Shaped(res.1.value, n, 4)
  {
    var c := ReadOptional(d, l, d.overlapRegister1, n);
    if c.1.Err? then (c.0, Err(c.1.error))
    else
      var e := ReadOptional(d, c.0, d.overlapRegister2, n);
      if e.1.Err? then (e.0, Err(e.1.error))
      else (e.0, Ok(seq(n, i requires 0 <= i < n =>
        [c.1.value[i][0], c.1.value[i][1], e.1.value[i][0], e.1.value[i][1]])))
  }

  /**
   * An absent overlap register reads as zeros without touching the link;
   * with neither register the result is all zeros and the link is untouched.
   */
  lemma OverlapWithoutRegisters<R>(d: Descriptor<R>, l: Link, n: nat)
    requires n >= 1
    ensures d.overlapRegister2.None? && ReadOverlapResult(d, l, n).1.Ok? ==>
      forall i :: 0 <= i < n ==> ReadOverlapResult(d, l, n).1.value[i][2] == 0 == ReadOverlapResult(d, l, n).1.value[i][3]
    ensures d.overlapRegister1.None? && d.overlapRegister2.None? ==>
      ReadOverlapResult(d, l, n).0 == l
      && ReadOverlapResult(d, l, n).1.Ok?
      && forall i, k :: 0 <= i < n && 0 <= k < 4 ==> ReadOverlapResult(d, l, n).1.value[i][k] == 0
  {
  }

  /** The internal device parameters of one device, in microvolts and degrees Celsius. */
  datatype InternalParameters = InternalParameters(totalVoltage: nat, analogPower: nat, digitalPower: nat, temperature: real)

  /** I16F16::MAX, the largest 16.16 fixed-point value. */
  const FixedMax: real := 32768.0 - 1.0 / 65536.0

  /** Raw die-temperature readings from this value on are reported as `FixedMax`. */
  const TemperatureLimit: u16 := 53744

  /**
   * `calc_temperature`: the raw reading divided by the gain in hundredths,
   * minus the offset, with readings from `TemperatureLimit` on saturated.
   * The conversion is exact and overflow-free here: this is the corrected
   * conversion, while `Parameters` converts as the source writes it.
   */
  function CalcTemperature(cal: Calibration, value: u16): (t: real)
    requires cal.tempGain != 0
    ensures value >= TemperatureLimit ==> t == FixedMax
  {
    if value >= TemperatureLimit then FixedMax
    else value as int as real * 100.0 / cal.tempGain as real - cal.tempOffset as real
  }

  /**
   * The conversion as the source writes it, in a build without overflow
   * checks: `I16F16::from_num(value)` wraps readings from 32768 on to
   * negative numbers before the division.
   */
  function CalcTemperatureAsWritten(cal: Calibration, value: u16): (t: real)
    requires cal.tempGain != 0
    ensures value >= TemperatureLimit ==> t == FixedMax
    ensures value < 0x8000 ==> t == CalcTemperature(cal, value)
  {
    if value >= TemperatureLimit then FixedMax
    else
      var fixed := if value < 0x8000 then value as int else value as int - 0x1_0000;
      fixed as real * 100.0 / cal.tempGain as real - cal.tempOffset as real
  }

  /** Below the saturation limit, a higher raw reading never means a lower temperature when the gain is positive. */
  lemma CalcTemperatureMonotone(cal: Calibration, v1: u16, v2: u16)
    requires cal.tempGain > 0 && v1 as int <= v2 as int && v1 < TemperatureLimit && v2 < TemperatureLimit
    ensures CalcTemperature(cal, v1) <= CalcTemperature(cal, v2)
  {
    var n1 := v1 as int;
    var n2 := v2 as int;
    var x1 := n1 as real * 100.0;
    var x2 := n2 as real * 100.0;
    DivideMonotone(x1, x2, cal.tempGain as real);
    assert CalcTemperature(cal, v1) == x1 / cal.tempGain as real - cal.tempOffset as real;
    assert CalcTemperature(cal, v2) == x2 / cal.tempGain as real - cal.tempOffset as real;
  }

  lemma DivideMonotone(a: real, b: real, g: real)
    requires a <= b && g > 0.0
    ensures a / g <= b / g
  {
    var q1 := a / g;
    var q2 := b / g;
    assert q1 * g == a && q2 * g == b;
  }

  /**
   * `read_internal_device_parameters` for one device: status A holds SC,
   * ITMP, VA; status B holds VD first. The temperature is converted as the
   * source writes it.
   */
  function Parameters(cal: Calibration, a: seq<u16>, b: seq<u16>): (p: InternalParameters)
    requires |a| == 3 && |b| == 3 && cal.tempGain != 0
    ensures p.totalVoltage == a[0] as nat * cal.totalVoltageFactor * 100
    ensures p.analogPower == a[2] as nat * 100 && p.digitalPower == b[0] as nat * 100
    ensures p.temperature == CalcTemperatureAsWritten(cal, a[1])
    ensures a[1] < 0x8000 || a[1] >= TemperatureLimit ==> p.temperature == CalcTemperature(cal, a[1])
  {
    InternalParameters(a[0] as nat * cal.totalVoltageFactor * 100, a[2] as nat * 100, b[0] as nat * 100,
      CalcTemperatureAsWritten(cal, a[1]))
  }

  /** `read_internal_device_parameters`: status register A, then B, then one record per device. */
  function ReadInternalDeviceParameters<R>(d: Descriptor<R>, l: Link, n: nat)
    : (res: (Link, Result<seq<InternalParameters>, Error>))
    requires n >= 1 && d.calibration.tempGain != 0
    ensures res.1.Ok? ==> |res.1.value| == n
  {
    var a := ReadRegister(d, l, d.statusA, n);
    if a.1.Err? then (a.0, Err(a.1.error))
    else
      var b := ReadRegister(d, a.0, d.statusB, n);
      if b.1.Err? then (b.0, Err(b.1.error))
      else (b.0, Ok(seq(n, i requires 0 <= i < n => Parameters(d.calibration, a.1.value[i], b.1.value[i]))))
  }

  /** With a factor the descriptor admits, the 32-bit products of the source never wrap. */
  lemma ParametersFit(cal: Calibration, a: seq<u16>, b: seq<u16>)
    requires |a| == 3 && |b| == 3 && cal.tempGain != 0 && cal.totalVoltageFactor <= MaxTotalVoltageFactor
    ensures Parameters(cal, a, b).totalVoltage < 0x1_0000_0000
    ensures Parameters(cal, a, b).analogPower < 0x1_0000_0000 && Parameters(cal, a, b).digitalPower < 0x1_0000_0000
  {
    var x := a[0] as nat;
    assert x <= 0xFFFF;
    assert x * cal.totalVoltageFactor <= 0xFFFF * MaxTotalVoltageFactor by {
      MultiplyMonotone(x, 0xFFFF, cal.totalVoltageFactor, MaxTotalVoltageFactor);
    }
  }

  lemma MultiplyMonotone(x: nat, xMax: nat, y: nat, yMax: nat)
    requires x <= xMax && y <= yMax
    ensures x * y <= xMax * yMax
  {
    assert x * y <= xMax * y;
    assert xMax * y <= xMax * yMax;
  }

  // Polling.

  /**
   * `adc_ready` under SDO-line polling: one byte is read with chip select
   * held low; 0xFF means the conversion is done, and chip select is then
   * released.
   */
  function AdcReady(l: Link): (res: (Link, Result<bool, Spi.Error>))
    requires l.Latched?
    ensures res.0.Latched? && res.0.oracle == l.oracle
  {
    var t := Spi.TransactionSpec(l.oracle, l.state, [Read(1)], Spi.KeepLatch);
    if t.1.Err? then (Latched(l.oracle, t.0), Err(t.1.error))
    else if t.1.value[0] == [0xFF] then
      var r := Spi.ReleaseSpec(l.oracle, t.0);
      (Latched(l.oracle, r.0), if r.1.Ok? then Ok(true) else Err(r.1.error))
    else (Latched(l.oracle, t.0), Ok(false))
  }

  /**
   * `adc_ready` answers true only when the byte read is 0xFF and chip
   * select was released; while the conversion runs, chip select stays
   * asserted. Once chip select is latched, only a ready answer clears the
   * flag: as written, a poll whose read faults raises the pin but leaves
   * the flag set.
   */
  lemma AdcReadyReleasesOnlyWhenReady(l: Link)
    requires l.Latched?
    ensures var t := Spi.TransactionSpec(l.oracle, l.state, [Read(1)], Spi.KeepLatch);
      var res := AdcReady(l);
      && (res.1 == Ok(true) <==> t.1.Ok? && t.1.value[0] == [0xFF] && Spi.ReleaseSpec(l.oracle, t.0).1.Ok?)
      && (res.1 == Ok(true) ==> !res.0.state.csLow)
      && (res.1 == Ok(false) ==> res.0.state.csLow && res.0.state == t.0)
    ensures l.state.csLow && AdcReady(l).1 != Ok(true) ==> AdcReady(l).0.state.csLow
  {
    Spi.TransactionDrivesPinOnlyWhenReleased(l.oracle, l.state, [Read(1)], Spi.KeepLatch);
    Spi.RunOpsKeepsLatch(l.oracle, l.state, [Read(1)]);
  }
}
