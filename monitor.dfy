/**
 * The generic LTC681X client (`LTC681X`): it owns the bus and the poll
 * method, builds command words and frames, fans register reads and writes
 * across the daisy chain and decodes what comes back. Every method is
 * proved against its function in `Protocol`, where the properties of the
 * protocol are stated.
 */
module Monitor {
  import opened Bytes
  import opened Wrappers
  import opened Hal
  import Spi
  import opened Pec15
  import opened Device
  import opened Commands
  import Config
  import opened Protocol

  /**
   * The bus the client owns and, with it, its poll method: a plain device
   * without polling, or the latching device SDO-line polling needs.
   */
  datatype Bus = PlainBus(device: SpiDevice) | LatchingBus(latch: Spi.LatchingSpiDevice)
  {
    function Object(): object
    {
      match this
      case PlainBus(d) => d
      case LatchingBus(d) => d
    }
  }

  /** The client of a daisy chain of `chainLength` devices of one type. */
  class Ltc681x<R(!new)> {
    const descriptor: Descriptor<R>
    const chainLength: nat
    const bus: Bus

    ghost predicate Valid()
      reads bus.Object()
    {
      && chainLength >= 1 && WellFormed(descriptor)
      && match bus
         case PlainBus(d) => d.Valid()
         case LatchingBus(d) => d.Valid()
    }

    /** What the bus has seen so far, and the state of its chip select. */
    ghost function Link(): Link
      reads bus.Object()
    {
      match bus
      case PlainBus(d) => Plain(d.respond, d.log)
      case LatchingBus(d) => Latched(d.oracle, d.Snapshot())
    }

    /** `new`: a client without polling over a device that drives chip select itself. */
    constructor New(descriptor: Descriptor<R>, chainLength: nat, device: SpiDevice)
      requires chainLength >= 1 && WellFormed(descriptor) && device.Valid()
      ensures Valid() && this.descriptor == descriptor && this.chainLength == chainLength
      ensures bus == PlainBus(device) && Link() == Plain(device.respond, device.log)
    {
      this.descriptor := descriptor;
      this.chainLength := chainLength;
      bus := PlainBus(device);
    }

    /** `enable_sdo_polling`: a client with SDO-line polling over a fresh latching device, chip select released. */
    constructor EnableSdoPolling(descriptor: Descriptor<R>, chainLength: nat, oracle: Spi.Oracle)
      requires chainLength >= 1 && WellFormed(descriptor)
      ensures Valid() && this.descriptor == descriptor && this.chainLength == chainLength
      ensures bus.LatchingBus? && fresh(bus.latch) && Link() == Latched(oracle, Spi.State(false, []))
    {
      this.descriptor := descriptor;
      this.chainLength := chainLength;
      var latch := new Spi.LatchingSpiDevice(oracle);
      bus := LatchingBus(latch);
    }

    /** One transaction on the bus. */
    method Transaction(ops: seq<Operation>) returns (r: Result<seq<seq<byte>>, LinkError>)
      requires Valid()
      modifies bus.Object()
      ensures Valid() && (Link(), r) == LinkTransaction(old(Link()), ops)
    {
      match bus
      case PlainBus(d) =>
        var t := d.Transaction(ops);
        r := if t.Ok? then Ok(t.value) else Err(DeviceFault(t.error));
      case LatchingBus(d) =>
        var t := d.Transaction(ops);
        r := if t.Ok? then Ok(t.value) else Err(LatchFault(t.error));
    }

    /** `end_sync_command` of the poll method. */
    method EndSyncCommand() returns (r: Result<Unit, LinkError>)
      requires Valid()
      modifies bus.Object()
      ensures Valid() && (Link(), r) == EndSync(old(Link()))
    {
      match bus
      case PlainBus(_) =>
        r := Ok(Unit);
      case LatchingBus(d) =>
        var released := d.ReleaseCs();
        r := if released.Ok? then Ok(Unit) else Err(LatchFault(released.error));
    }

    /** `add_pec_checksum` on the slice `data[start..]`: its last two bytes become the PEC of the bytes before them. */
    static method AddPecChecksum(data: array<byte>, start: nat)
      requires start + 2 <= data.Length
      modifies data
      ensures data[..] == old(data[..data.Length - 2]) + Pec(old(data[start..data.Length - 2]))
      ensures Pec15.Valid(data[start..])
    {
      var pec := Pec(data[start..data.Length - 2]);
      data[data.Length - 2] := pec[0];
      data[data.Length - 1] := pec[1];
      assert data[start..][..|data[start..]| - 2] == old(data[start..data.Length - 2]);
    }

    /** `send_command`: the word high byte first, then its PEC, in one write. */
    method SendCommand(command: u16) returns (r: Result<Unit, Error>)
      requires Valid()
      modifies bus.Object()
      ensures Valid() && (Link(), r) == Protocol.SendCommand(old(Link()), command)
    {
      var data := new byte[4] [HighByte(command), LowByte(command), 0x0, 0x0];
      AddPecChecksum(data, 0);
      assert data[..] == Frame(command) by {
        assert data[..2] == WordBytes(command);
      }
      var t := Transaction([Write(data[..])]);
      r := if t.Ok? then Ok(Unit) else Err(BusError(t.error));
    }

    /** The command word of `start_conv_cells`, assembled from the skeleton, the mode bits, the selection and the discharge bit. */
    static method CellCommand(mode: AdcMode, bitmap: u16, dcp: bool) returns (command: u16)
      ensures command == CellConversionWord(mode, bitmap, dcp)
    {
      command := CellSkeleton;
      command := command | (ModeCode(mode) << 7);
      command := command | bitmap;
      if dcp {
        command := command | DischargePermitted;
      }
    }

    /** `start_conv_cells`: the cell conversion command is sent; on success the expected timing is returned. */
    method StartConvCells(mode: AdcMode, cells: Selection, dcp: bool) returns (r: Result<CommandTime, Error>)
      requires Valid()
      modifies bus.Object()
      ensures Valid() && (Link(), r) == Protocol.StartConvCells(old(Link()), mode, cells, dcp)
    {
      var command := CellCommand(mode, cells.bitmap, dcp);
      var sent := SendCommand(command);
      r := if sent.Ok? then Ok(cells.timing(mode)) else Err(sent.error);
    }

    method StartConvGpio(mode: AdcMode, channels: Selection) returns (r: Result<CommandTime, Error>)
      requires Valid()
      modifies bus.Object()
      ensures Valid() && (Link(), r) == Protocol.StartConvGpio(old(Link()), mode, channels)
    {
      var command: u16 := GpioSkeleton;
      command := command | (ModeCode(mode) << 7);
      command := command | channels.bitmap;
      assert command == GpioConversionWord(mode, channels.bitmap);
      var sent := SendCommand(command);
      r := if sent.Ok? then Ok(channels.timing(mode)) else Err(sent.error);
    }

    method StartOverlapMeasurement(mode: AdcMode, dcp: bool) returns (r: Result<Unit, Error>)
      requires Valid()
      modifies bus.Object()
      ensures Valid() && (Link(), r) == Protocol.StartOverlapMeasurement(old(Link()), mode, dcp)
    {
      var command: u16 := OverlapSkeleton;
      command := command | (ModeCode(mode) << 7);
      if dcp {
        command := command | DischargePermitted;
      }
      r := SendCommand(command);
    }

    method MeasureInternalParameters(mode: AdcMode, group: StatusGroup) returns (r: Result<CommandTime, Error>)
      requires Valid()
      modifies bus.Object()
      ensures Valid() && (Link(), r) == Protocol.MeasureInternalParameters(old(Link()), mode, group)
    {
      var command: u16 := StatusSkeleton;
      command := command | (ModeCode(mode) << 7);
      command := command | StatusBitmap(group);
      var sent := SendCommand(command);
      r := if sent.Ok? then Ok(StatusTiming(group, mode)) else Err(sent.error);
    }

    /**
     * `read_trans_daisy_chain`: the command and eight dummy bytes in one
     * transfer, then an eight-byte read for every further device; the
     * first device's block is the tail of the transfer.
     */
    method ReadTransDaisyChain(command: seq<byte>) returns (r: Result<seq<seq<byte>>, Error>)
      requires Valid() && |command| == 4
      modifies bus.Object()
      ensures Valid() && (Link(), r) == Protocol.ReadTransDaisyChain(old(Link()), command, chainLength)
    {
      var commandWrite := command + Fill(8, 0xFF);
      var operations := [Transfer(12, commandWrite)];
      var i := 1;
      while i < chainLength
        invariant 1 <= i <= chainLength && |operations| == i
        invariant operations[0] == Transfer(12, commandWrite)
        invariant forall j :: 1 <= j < i ==> operations[j] == Read(8)
      {
        operations := operations + [Read(8)];
        i := i + 1;
      }
      assert operations == ChainReadOps(command, chainLength);
      var t := Transaction(operations);
      if t.Err? {
        return Err(BusError(t.error));
      }
      LinkReceived(old(Link()), operations);
      var commandRead := t.value[0];
      r := Ok([commandRead[4..]] + t.value[1..]);
    }

    /**
     * The loop of `read_daisy_chain`: every device's block is checked and
     * decoded in turn, and the first bad checksum ends it.
     */
    static method CheckAndDecode(blocks: seq<seq<byte>>, n: nat) returns (r: Result<seq<seq<u16>>, Error>)
      requires |blocks| == n && forall i :: 0 <= i < n ==> |blocks[i]| == 8
      ensures r.Ok? <==> AllValid(blocks)
      ensures r.Ok? ==> r.value == DecodeAll(blocks)
      ensures r.Err? ==> r.error == ChecksumMismatch
    {
      var result: seq<seq<u16>> := [];
      var i := 0;
      while i < n
        invariant 0 <= i <= n && |result| == i
        invariant forall j :: 0 <= j < i ==> Pec15.Valid(blocks[j]) && result[j] == Decode(blocks[j])
      {
        var response := blocks[i];
        var pec := Pec(response[0..6]);
        if pec[0] != response[6] || pec[1] != response[7] {
          assert !Pec15.Valid(blocks[i]) by {
            assert response[6..] == [response[6], response[7]];
          }
          return Err(ChecksumMismatch);
        }
        assert Pec15.Valid(blocks[i]) by {
          assert response[6..] == [response[6], response[7]];
        }
        var item0: u16 := response[0] as u16;
        item0 := item0 | ((response[1] as u16) << 8);
        var item1: u16 := response[2] as u16;
        item1 := item1 | ((response[3] as u16) << 8);
        var item2: u16 := response[4] as u16;
        item2 := item2 | ((response[5] as u16) << 8);
        assert [item0, item1, item2] == Decode(blocks[i]) by {
          assert item0 == LittleEndian(response[0], response[1]);
          assert item1 == LittleEndian(response[2], response[3]);
          assert item2 == LittleEndian(response[4], response[5]);
        }
        result := result + [[item0, item1, item2]];
        i := i + 1;
      }
      r := Ok(result);
    }

    /**
     * `read_daisy_chain`: the blocks of the chain read are checked and
     * decoded; a bad checksum returns at once, otherwise the poll method's
     * end step follows.
     */
    method ReadDaisyChain(command: seq<byte>) returns (r: Result<seq<seq<u16>>, Error>)
      requires Valid() && |command| == 4
      modifies bus.Object()
      ensures Valid() && (Link(), r) == Protocol.ReadDaisyChain(old(Link()), command, chainLength)
    {
      var data := ReadTransDaisyChain(command);
      if data.Err? {
        return Err(data.error);
      }
      var result := CheckAndDecode(data.value, chainLength);
      if result.Err? {
        return result;
      }
      var e := EndSyncCommand();
      r := if e.Ok? then result else Err(BusError(e.error));
    }

    /** `read_register`: the chain read of the register's command. */
    method ReadRegister(register: R) returns (r: Result<seq<seq<u16>>, Error>)
      requires Valid()
      modifies bus.Object()
      ensures Valid() && (Link(), r) == Protocol.ReadRegister(descriptor, old(Link()), register, chainLength)
    {
      r := ReadDaisyChain(descriptor.readCommand(register));
    }

    /** `copy_from_slice` into `dst[at..at + |src|]`. */
    static method CopyFromSlice(dst: array<byte>, at: nat, src: seq<byte>)
      requires at + |src| <= dst.Length
      modifies dst
      ensures dst[..] == old(dst[..at]) + src + old(dst[at + |src|..])
    {
      forall j | 0 <= j < |src| {
        dst[at + j] := src[j];
      }
      assert dst[..] == old(dst[..at]) + src + old(dst[at + |src|..]);
    }

    /** One device's slot of a daisy-chained write: the six payload bytes followed by their PEC. */
    static method PecBlock(payload: seq<byte>) returns (block: seq<byte>)
      requires |payload| == 6
      ensures block == WithPec(payload)
    {
      var item := new byte[8](_ => 0x0);
      CopyFromSlice(item, 0, payload);
      AddPecChecksum(item, 0);
      assert item[..6] == payload;
      block := item[..];
    }

    /** The command followed by the first device's slot, as the first operation of a chained write. */
    static method FirstWriteBlock(command: seq<byte>, payload: seq<byte>) returns (block: seq<byte>)
      requires |command| == 4 && |payload| == 6
      ensures block == command + WithPec(payload)
    {
      var firstOperation := new byte[12](_ => 0xFF);
      CopyFromSlice(firstOperation, 0, command);
      CopyFromSlice(firstOperation, 4, payload);
      AddPecChecksum(firstOperation, 4);
      assert firstOperation[..] == command + payload + Pec(payload);
      block := firstOperation[..];
    }

    /**
     * The operations of `write_register`: the command and the first
     * device's data and PEC in one write, then every further device's data
     * and PEC in a write of its own.
     */
    static method WriteOperations(command: seq<byte>, data: seq<seq<byte>>) returns (operations: seq<Operation>)
      requires |command| == 4 && |data| >= 1 && forall i :: 0 <= i < |data| ==> |data[i]| == 6
      ensures operations == ChainWriteOps(command, data)
    {
      var first := FirstWriteBlock(command, data[0]);
      operations := [Write(first)];
      var i := 0;
      while i < |data| - 1
        invariant 0 <= i <= |data| - 1 && |operations| == i + 1
        invariant operations[0] == Write(command + WithPec(data[0]))
        invariant forall j :: 1 <= j <= i ==> operations[j] == Write(WithPec(data[j]))
      {
        var item := PecBlock(data[i + 1]);
        operations := operations + [Write(item)];
        i := i + 1;
      }
    }

    /**
     * `write_register`: a register without a write command is refused
     * before the bus is touched; otherwise the command and the first
     * device's data and PEC go in one write, every further device's data
     * and PEC in a write of its own, all in one transaction, followed by
     * the poll method's end step.
     */
    method WriteRegister(register: R, data: seq<seq<byte>>) returns (r: Result<Unit, Error>)
      requires Valid() && |data| == chainLength && forall i :: 0 <= i < |data| ==> |data[i]| == 6
      modifies bus.Object()
      ensures Valid() && (Link(), r) == Protocol.WriteRegister(descriptor, old(Link()), register, data)
    {
      var preCommand := descriptor.writeCommand(register);
      if preCommand.Err? {
        return Err(ReadOnlyRegister);
      }
      var operations := WriteOperations(preCommand.value, data);
      var t := Transaction(operations);
      if t.Err? {
        return Err(BusError(t.error));
      }
      var e := EndSyncCommand();
      r := if e.Ok? then Ok(Unit) else Err(BusError(e.error));
    }

    /**
     * `write_configuration`: every device's configuration is split into its
     * two groups; group A is written to the first configuration register
     * and, if the device type has a second one, group B to that.
     */
    method WriteConfiguration(config: seq<Config.Registers>) returns (r: Result<Unit, Error>)
      requires Valid() && |config| == chainLength
      modifies bus.Object()
      ensures Valid() && (Link(), r) == Protocol.WriteConfiguration(descriptor, old(Link()), config)
    {
      var registerA: seq<seq<byte>> := [];
      var registerB: seq<seq<byte>> := [];
      var i := 0;
      while i < |config|
        invariant 0 <= i <= |config| && |registerA| == i && |registerB| == i
        invariant forall j :: 0 <= j < i ==> registerA[j] == config[j][..6] && registerB[j] == config[j][6..]
      {
        registerA := registerA + [config[i][..6]];
        registerB := registerB + [config[i][6..]];
        i := i + 1;
      }
      assert registerA == GroupA(config) && registerB == GroupB(config);
      r := WriteRegister(descriptor.configurationA, registerA);
      if r.Err? {
        return;
      }
      if descriptor.configurationB.Some? {
        r := WriteRegister(descriptor.configurationB.value, registerB);
      }
    }

    /** The loop of `read_overlap_result`: per device, slots 0 and 1 of the first register, then of the second. */
    static method CombineOverlap(registerC: seq<seq<u16>>, registerE: seq<seq<u16>>, n: nat) returns (data: seq<seq<u16>>)
      requires Shaped(registerC, n, 3) && Shaped(registerE, n, 3)
      ensures data == seq(n, i requires 0 <= i < n => [registerC[i][0], registerC[i][1], registerE[i][0], registerE[i][1]])
    {
      data := [];
      var device := 0;
      while device < n
        invariant 0 <= device <= n && |data| == device
        invariant forall j :: 0 <= j < device ==>
          data[j] == [registerC[j][0], registerC[j][1], registerE[j][0], registerE[j][1]]
      {
        data := data + [[registerC[device][0], registerC[device][1], registerE[device][0], registerE[device][1]]];
        device := device + 1;
      }
    }

    /** Reads and caches the register of location `k`, whose grouped index is not cached yet. */
    method LoadMissing<C>(locs: seq<RegisterAddress<R, C>>, k: nat, loadedRegisters: seq<bool>,
                          registerData: seq<seq<seq<u16>>>, ghost start: Link, ghost cache: Cache)
      returns (r: Result<(), Error>, loaded: seq<bool>, data: seq<seq<seq<u16>>>, ghost updated: Cache)
      requires Valid() && k < |locs|
      requires Mirrors(loadedRegisters, registerData, cache, chainLength)
      requires Load(descriptor, start, locs[..k], chainLength) == (Link(), Ok(cache))
      requires descriptor.toIndex(locs[k].register) !in cache
      modifies bus.Object()
      ensures Valid()
      ensures r.Err? ==> (Link(), Err(r.error)) == Load(descriptor, start, locs, chainLength)
      ensures r.Ok? ==> && Mirrors(loaded, data, updated, chainLength)
                        && Load(descriptor, start, locs[..k + 1], chainLength) == (Link(), Ok(updated))
                        && updated == cache[descriptor.toIndex(locs[k].register) := updated[descriptor.toIndex(locs[k].register)]]
    {
      var registerIndex := descriptor.toIndex(locs[k].register);
      LoadReads(descriptor, start, locs, k, chainLength);
      var read := ReadRegister(locs[k].register);
      if read.Err? {
        LoadFailureStops(descriptor, start, locs, k + 1, chainLength);
        r, loaded, data, updated := Err(read.error), loadedRegisters, registerData, cache;
        return;
      }
      r := Ok(());
      data := registerData[registerIndex := read.value];
      loaded := loadedRegisters[registerIndex := true];
      updated := cache[registerIndex := read.value];
    }

    /**
     * The load step of `read_voltages` at location `k`: the location's
     * register is read and cached unless its grouped index is loaded
     * already. `upto` is how far the loads have got: `k` on the first
     * device's pass, all locations on later passes, where nothing is read.
     */
    method LoadLocation<C>(locs: seq<RegisterAddress<R, C>>, k: nat, ghost upto: nat, loadedRegisters: seq<bool>,
                           registerData: seq<seq<seq<u16>>>, ghost start: Link, ghost cache: Cache)
      returns (r: Result<(), Error>, loaded: seq<bool>, data: seq<seq<seq<u16>>>, ghost updated: Cache)
      requires Valid() && k < |locs| && (upto == k || upto == |locs|)
      requires Mirrors(loadedRegisters, registerData, cache, chainLength)
      requires Load(descriptor, start, locs[..upto], chainLength) == (Link(), Ok(cache))
      modifies bus.Object()
      ensures Valid()
      ensures r.Err? ==> (Link(), Err(r.error)) == Load(descriptor, start, locs, chainLength)
      ensures r.Ok? ==> && Mirrors(loaded, data, updated, chainLength)
                        && Load(descriptor, start, locs[..if upto == k then k + 1 else upto], chainLength) == (Link(), Ok(updated))
                        && descriptor.toIndex(locs[k].register) in updated
                        && (updated == cache || (descriptor.toIndex(locs[k].register) !in cache &&
                            updated == cache[descriptor.toIndex(locs[k].register) := updated[descriptor.toIndex(locs[k].register)]]))
    {
      if !loadedRegisters[descriptor.toIndex(locs[k].register)] {
        if upto != k {
          assert locs[..upto] == locs;
          IndexSetCovers(descriptor, locs);
          assert false;
        }
        r, loaded, data, updated := LoadMissing(locs, k, loadedRegisters, registerData, start, cache);
      } else {
        if upto == k {
          LoadCached(descriptor, start, locs, k, chainLength);
        }
        r, loaded, data, updated := Ok(()), loadedRegisters, registerData, cache;
      }
    }

    /**
     * The state of device `device`'s pass of `read_voltages` after `k`
     * locations: the cache mirrors the readings so far, the loads have got
     * through the first `k` locations (all of them after the first pass,
     * when the cache no longer changes), and `row` holds the device's
     * voltages at those locations.
     */
    ghost predicate Pass<C>(start: Link, locs: seq<RegisterAddress<R, C>>, device: nat, cache0: Cache, k: nat,
                            loaded: seq<bool>, data: seq<seq<seq<u16>>>, cache: Cache, row: seq<Voltage<C>>)
      reads bus.Object()
    {
      && chainLength >= 1 && k <= |locs| && |row| == k
      && Mirrors(loaded, data, cache, chainLength)
      && Load(descriptor, start, locs[..if device == 0 then k else |locs|], chainLength) == (Link(), Ok(cache))
      && (device != 0 ==> cache == cache0)
      && RowPrefix(descriptor, locs, cache, device, row)
    }

    /**
     * Location `k` of device `device`'s pass: its register is loaded if
     * need be and the device's voltage there is taken from the cache.
     */
    method ReadLocation<C>(locs: seq<RegisterAddress<R, C>>, k: nat, device: nat, ghost row: seq<Voltage<C>>,
                           loadedRegisters: seq<bool>, registerData: seq<seq<seq<u16>>>, ghost start: Link,
                           ghost cache0: Cache, ghost cache: Cache)
      returns (r: Result<Voltage<C>, Error>, loaded: seq<bool>, data: seq<seq<seq<u16>>>, ghost updated: Cache)
      requires Valid() && k < |locs| && device < chainLength && SlotsInRange(locs)
      requires Pass(start, locs, device, cache0, k, loadedRegisters, registerData, cache, row)
      modifies bus.Object()
      ensures Valid()
      ensures r.Err? ==> (Link(), Err(r.error)) == Load(descriptor, start, locs, chainLength)
      ensures r.Ok? ==> Pass(start, locs, device, cache0, k + 1, loaded, data, updated, row + [r.value])
    {
      var fetched;
      fetched, loaded, data, updated := LoadLocation(locs, k, if device == 0 then k else |locs|, loadedRegisters, registerData, start, cache);
      if fetched.Err? {
        r := Err(fetched.error);
        return;
      }
      var registerIndex := descriptor.toIndex(locs[k].register);
      if updated != cache {
        RowGrowsCache(descriptor, locs, cache, device, row, registerIndex, updated[registerIndex]);
      }
      var voltage := Voltage(locs[k].channel, data[registerIndex][device][locs[k].slot]);
      RowExtend(descriptor, locs, updated, device, row, voltage);
      r := Ok(voltage);
    }

    /** One pass of `read_voltages` over the locations for device `device`. */
    method ReadRow<C>(locs: seq<RegisterAddress<R, C>>, device: nat, loadedRegisters: seq<bool>,
                      registerData: seq<seq<seq<u16>>>, ghost start: Link, ghost cache0: Cache)
      returns (r: Result<seq<Voltage<C>>, Error>, loaded: seq<bool>, data: seq<seq<seq<u16>>>, ghost cache: Cache)
      requires Valid() && device < chainLength && SlotsInRange(locs)
      requires Mirrors(loadedRegisters, registerData, cache0, chainLength)
      requires device == 0 ==> Link() == start && cache0 == map[]
      requires device != 0 ==> Load(descriptor, start, locs, chainLength) == (Link(), Ok(cache0))
      modifies bus.Object()
      ensures Valid()
      ensures r.Err? ==> (Link(), Err(r.error)) == Load(descriptor, start, locs, chainLength)
      ensures r.Ok? ==> && Mirrors(loaded, data, cache, chainLength)
                        && Load(descriptor, start, locs, chainLength) == (Link(), Ok(cache))
                        && RowOf(descriptor, locs, cache, device, r.value)
                        && (device != 0 ==> cache == cache0)
    {
      loaded, data, cache := loadedRegisters, registerData, cache0;
      if device == 0 {
        assert locs[..0] == [];
      } else {
        assert locs[..|locs|] == locs;
      }
      var row: seq<Voltage<C>> := [];
      var k := 0;
      while k < |locs|
        invariant Valid() && Pass(start, locs, device, cache0, k, loaded, data, cache, row)
      {
        var voltage;
        voltage, loaded, data, cache := ReadLocation(locs, k, device, row, loaded, data, start, cache0, cache);
        if voltage.Err? {
          r := Err(voltage.error);
          return;
        }
        row := row + [voltage.value];
        k := k + 1;
      }
      assert locs[..k] == locs;
      r := Ok(row);
    }

    /**
     * `read_voltages`: device by device, the voltage at every location of
     * the locator; a register is read the first time one of its locations
     * is met and served from the cache afterwards.
     */
    method ReadVoltages<C>(locs: seq<RegisterAddress<R, C>>) returns (r: Result<seq<seq<Voltage<C>>>, Error>)
      requires Valid() && SlotsInRange(locs)
      modifies bus.Object()
      ensures Valid() && (Link(), r) == Protocol.ReadVoltages(descriptor, old(Link()), locs, chainLength)
    {
      ghost var start := Link();
      var result: seq<seq<Voltage<C>>> := [];
      var registerData: seq<seq<seq<u16>>> := seq(6, _ => Zeros(chainLength));
      var loadedRegisters: seq<bool> := seq(6, _ => false);
      ghost var cache: Cache := map[];
      var device := 0;
      while device < chainLength
        invariant Valid() && 0 <= device <= chainLength && |result| == device
        invariant Mirrors(loadedRegisters, registerData, cache, chainLength)
        invariant device == 0 ==> Link() == start && cache == map[]
        invariant device != 0 ==> Load(descriptor, start, locs, chainLength) == (Link(), Ok(cache))
        invariant RowsOf(descriptor, locs, cache, result)
      {
        var row;
        row, loadedRegisters, registerData, cache := ReadRow(locs, device, loadedRegisters, registerData, start, cache);
        if row.Err? {
          r := Err(row.error);
          return;
        }
        RowsAppend(descriptor, locs, cache, result, row.value);
        result := result + [row.value];
        device := device + 1;
      }
      IndexSetCovers(descriptor, locs);
      RowsAssemble(descriptor, locs, cache, chainLength, result);
      r := Ok(result);
    }

    /** `read_overlap_result`: slots 0 and 1 of each overlap register, zeros for one the device type lacks. */
    method ReadOverlapResult() returns (r: Result<seq<seq<u16>>, Error>)
      requires Valid()
      modifies bus.Object()
      ensures Valid() && (Link(), r) == Protocol.ReadOverlapResult(descriptor, old(Link()), chainLength)
    {
      var registerC: seq<seq<u16>>;
      if descriptor.overlapRegister1.Some? {
        var c := ReadRegister(descriptor.overlapRegister1.value);
        if c.Err? {
          return Err(c.error);
        }
        registerC := c.value;
      } else {
        registerC := Zeros(chainLength);
      }
      var registerE: seq<seq<u16>>;
      if descriptor.overlapRegister2.Some? {
        var e := ReadRegister(descriptor.overlapRegister2.value);
        if e.Err? {
          return Err(e.error);
        }
        registerE := e.value;
      } else {
        registerE := Zeros(chainLength);
      }
      var data := CombineOverlap(registerC, registerE, chainLength);
      r := Ok(data);
    }

    /** The loop of `read_internal_device_parameters`: one record per device from its status readings. */
    static method ConvertParameters(cal: Calibration, a: seq<seq<u16>>, b: seq<seq<u16>>, n: nat)
      returns (parameters: seq<InternalParameters>)
      requires Shaped(a, n, 3) && Shaped(b, n, 3) && cal.tempGain != 0
      ensures parameters == seq(n, i requires 0 <= i < n => Parameters(cal, a[i], b[i]))
    {
      parameters := [];
      var device := 0;
      while device < n
        invariant 0 <= device <= n && |parameters| == device
        invariant forall j :: 0 <= j < device ==> parameters[j] == Parameters(cal, a[j], b[j])
      {
        var temperature := CalcTemperatureAsWritten(cal, a[device][1]);
        parameters := parameters + [InternalParameters(
          a[device][0] as nat * cal.totalVoltageFactor * 100,
          a[device][2] as nat * 100,
          b[device][0] as nat * 100,
          temperature)];
        device := device + 1;
      }
    }

    /**
     * `read_internal_device_parameters`: status register A, then B, then
     * one record per device.
     */
    method ReadInternalDeviceParameters() returns (r: Result<seq<InternalParameters>, Error>)
      requires Valid()
      modifies bus.Object()
      ensures Valid() && (Link(), r) == Protocol.ReadInternalDeviceParameters(descriptor, old(Link()), chainLength)
    {
      var statusA := ReadRegister(descriptor.statusA);
      if statusA.Err? {
        return Err(statusA.error);
      }
      var statusB := ReadRegister(descriptor.statusB);
      if statusB.Err? {
        return Err(statusB.error);
      }
      var parameters := ConvertParameters(descriptor.calibration, statusA.value, statusB.value, chainLength);
      r := Ok(parameters);
    }

    /**
     * `adc_ready` (SDO-line polling only): one byte is read with chip
     * select held low; 0xFF means the conversion is done, and chip select
     * is released.
     */
    method AdcReady() returns (r: Result<bool, Spi.Error>)
      requires Valid() && bus.LatchingBus?
      modifies bus.Object()
      ensures Valid() && (Link(), r) == Protocol.AdcReady(old(Link()))
    {
      var buffer := bus.latch.Transaction([Read(1)]);
      if buffer.Err? {
        return Err(buffer.error);
      }
      LinkReceived(old(Link()), [Read(1)]);
      if buffer.value[0][0] == 0xFF {
        assert buffer.value[0] == [0xFF];
        var released := bus.latch.ReleaseCs();
        if released.Err? {
          return Err(released.error);
        }
        return Ok(true);
      }
      r := Ok(false);
    }
  }

  /** The cache of `read_voltages` holds exactly the readings of the cached grouped indices. */
  predicate Mirrors(loaded: seq<bool>, registerData: seq<seq<seq<u16>>>, cache: Cache, n: nat)
  {
    && |loaded| == 6 && |registerData| == 6
    && (forall i :: 0 <= i < 6 ==> (loaded[i] <==> i in cache))
    && (forall i | i in cache :: i < 6 && registerData[i] == cache[i] && Shaped(cache[i], n, 3))
  }
}
