/**
 * `LatchingSpiDevice`: an SPI device that keeps its chip select low after a
 * transaction, so that the monitor can keep polling the SDO line until the
 * ADC finishes, and releases it only on request. A flag remembers that the
 * pin is already low, so back-to-back transactions drive it only once.
 */
module Spi {
  import opened Bytes
  import opened Wrappers
  import opened Hal

  /**
   * The foreign bus and pin: `pin(k)` says whether the pin call made as
   * interaction number `k` succeeds, `bus(k)` what the bus call made as
   * interaction number `k` answers.
   */
  datatype Oracle = Oracle(pin: nat -> bool, bus: nat -> BusReply)

  /** One interaction with the pin or the bus, in the order they happen. */
  datatype Event = SetLow(ok: bool) | SetHigh(ok: bool) | BusCall(op: Operation, reply: BusReply)

  datatype State = State(csLow: bool, events: seq<Event>)

  datatype Error = BusError(kind: ErrorKind) | CSError

  /** What the latch does when a bus call fails and the pin is raised. */
  datatype FaultHandling =
    | KeepLatch   // the flag stays set although the pin was raised
    | ClearLatch  // the flag follows a successful release of the pin

  /** The embedded-hal error kind of a device error. */
  function Kind(e: Error): (k: ErrorKind)
    ensures e.CSError? ==> k == ChipSelectFault
    ensures e.BusError? ==> k == e.kind
  {
    match e
    case BusError(kind) => kind
    case CSError => ChipSelectFault
  }

  /** The pin level the event log leaves behind: the last pin call that succeeded. */
  function PinLow(events: seq<Event>): bool
  {
    if |events| == 0 then false
    else
      match events[|events| - 1]
      case SetLow(ok) => if ok then true else PinLow(events[..|events| - 1])
      case SetHigh(ok) => if ok then false else PinLow(events[..|events| - 1])
      case BusCall(_, _) => PinLow(events[..|events| - 1])
  }

  /** One operation of a transaction; a delay never reaches the bus. */
  function Step(o: Oracle, st: State, op: Operation, h: FaultHandling): (res: (State, Result<seq<byte>, Error>))
    ensures res.1.Ok? ==> |res.1.value| == ReceivedLength(op)
  {
    if op.DelayNs? then (st, Ok([]))
    else
      var reply := o.bus(|st.events|);
      match reply
      case Done(raw) =>
        (State(st.csLow, st.events + [BusCall(op, reply)]), Ok(Fit(raw, ReceivedLength(op))))
      case Fault(k) =>
        var released := o.pin(|st.events| + 1);
        var csLow := if h == ClearLatch && released then false else st.csLow;
        (State(csLow, st.events + [BusCall(op, reply), SetHigh(released)]), Err(BusError(k)))
  }

  /** The operations run in order until the first one that fails. */
  function RunOps(o: Oracle, st: State, ops: seq<Operation>, h: FaultHandling): (res: (State, Result<seq<seq<byte>>, Error>))
    ensures res.1.Ok? ==> |res.1.value| == |ops|
    decreases |ops|
  {
    if |ops| == 0 then (st, Ok([]))
    else
      var prefix := RunOps(o, st, ops[..|ops| - 1], h);
      if prefix.1.Err? then prefix
      else
        var last := Step(o, prefix.0, ops[|ops| - 1], h);
        if last.1.Err? then (last.0, Err(last.1.error))
        else (last.0, Ok(prefix.1.value + [last.1.value]))
  }

  /** Every receive buffer of a run that succeeds has the length its operation asked for. */
  lemma {:induction false} RunOpsReceived(o: Oracle, st: State, ops: seq<Operation>, h: FaultHandling)
    requires RunOps(o, st, ops, h).1.Ok?
    ensures forall i :: 0 <= i < |ops| ==> |RunOps(o, st, ops, h).1.value[i]| == ReceivedLength(ops[i])
    decreases |ops|
  {
    if |ops| > 0 {
      RunOpsReceived(o, st, ops[..|ops| - 1], h);
    }
  }

  /** Once an operation fails, the operations after it change nothing. */
  lemma {:induction false} FailureStops(o: Oracle, st: State, ops: seq<Operation>, j: nat, h: FaultHandling)
    requires j <= |ops| && RunOps(o, st, ops[..j], h).1.Err?
    ensures RunOps(o, st, ops, h) == RunOps(o, st, ops[..j], h)
    decreases |ops|
  {
    if j < |ops| {
      var p := ops[..|ops| - 1];
      assert p[..j] == ops[..j];
      FailureStops(o, st, p, j, h);
    } else {
      assert ops[..j] == ops;
    }
  }

  /** `transaction`: drive the pin low unless it already is, then run the operations. */
  function TransactionSpec(o: Oracle, st: State, ops: seq<Operation>, h: FaultHandling)
    : (res: (State, Result<seq<seq<byte>>, Error>))
    ensures res.1.Ok? ==> |res.1.value| == |ops|
    ensures !st.csLow && !o.pin(|st.events|) ==> res == (State(false, st.events + [SetLow(false)]), Err(CSError))
  {
    if st.csLow then RunOps(o, st, ops, h)
    else
      var ok := o.pin(|st.events|);
      var st1 := State(ok, st.events + [SetLow(ok)]);
      if !ok then (st1, Err(CSError)) else RunOps(o, st1, ops, h)
  }

  /** `release_cs`: raise the pin; only a successful raise clears the flag. */
  function ReleaseSpec(o: Oracle, st: State): (res: (State, Result<Unit, Error>))
    ensures |res.0.events| == |st.events| + 1
    ensures res.0.events[|st.events|].SetHigh?
    ensures res.1.Ok? <==> res.0.events[|st.events|].ok
    ensures res.1.Ok? ==> !res.0.csLow
    ensures res.1.Err? ==> res.0.csLow == st.csLow && res.1.error == CSError
  {
    var ok := o.pin(|st.events|);
    var events := st.events + [SetHigh(ok)];
    if ok then (State(false, events), Ok(Unit)) else (State(st.csLow, events), Err(CSError))
  }

  /** How many times the pin was driven low. */
  function SetLows(events: seq<Event>): nat
  {
    if |events| == 0 then 0
    else SetLows(events[..|events| - 1]) + (if events[|events| - 1].SetLow? then 1 else 0)
  }

  /** The operations that reached the bus, in order. */
  function BusOps(events: seq<Event>): seq<Operation>
  {
    if |events| == 0 then []
    else
      var rest := BusOps(events[..|events| - 1]);
      match events[|events| - 1]
      case BusCall(op, _) => rest + [op]
      case _ => rest
  }

  /** The operations of a transaction that need the bus. */
  function NonDelay(ops: seq<Operation>): seq<Operation>
  {
    if |ops| == 0 then []
    else NonDelay(ops[..|ops| - 1]) + (if ops[|ops| - 1].DelayNs? then [] else [ops[|ops| - 1]])
  }

  lemma AppendLast<T>(s: seq<T>, x: T)
    ensures (s + [x])[..|s|] == s && (s + [x])[|s|] == x
  {
  }

  /**
   * What one operation leaves behind: the log only grows, by the bus call
   * and, after a fault, the attempt to raise the pin; the pin is never
   * driven low; a delay touches nothing.
   */
  lemma StepEffect(o: Oracle, st: State, op: Operation, h: FaultHandling)
    ensures var res := Step(o, st, op, h);
      && res.0.events[..|st.events|] == st.events
      && SetLows(res.0.events) == SetLows(st.events)
      && (res.1.Ok? ==> res.0.csLow == st.csLow)
      && (op.DelayNs? ==> res == (st, Ok([])))
      && (res.1.Ok? && !op.DelayNs? ==> BusOps(res.0.events) == BusOps(st.events) + [op])
      && (res.1.Err? ==>
            (!op.DelayNs? && |res.0.events| == |st.events| + 2
             && BusOps(res.0.events) == BusOps(st.events) + [op]
             && res.0.events[|st.events|] == BusCall(op, Fault(res.1.error.kind))
             && res.0.events[|st.events| + 1].SetHigh?))
      && (res.1.Ok? ==> |res.1.value| == ReceivedLength(op))
  {
    var res := Step(o, st, op, h);
    if !op.DelayNs? {
      var e := st.events + [BusCall(op, o.bus(|st.events|))];
      AppendLast(st.events, BusCall(op, o.bus(|st.events|)));
      if res.1.Err? {
        AppendLast(e, SetHigh(o.pin(|st.events| + 1)));
        assert e + [SetHigh(o.pin(|st.events| + 1))] == res.0.events;
      }
    }
  }

  /**
   * A run of operations: the log only grows, the pin is never driven low,
   * a run that succeeds keeps the flag and puts exactly its non-delay
   * operations on the bus, in order.
   */
  lemma RunOpsEffect(o: Oracle, st: State, ops: seq<Operation>, h: FaultHandling)
    ensures var res := RunOps(o, st, ops, h);
      && |st.events| <= |res.0.events| && res.0.events[..|st.events|] == st.events
      && SetLows(res.0.events) == SetLows(st.events)
      && (res.1.Ok? ==> res.0.csLow == st.csLow && BusOps(res.0.events) == BusOps(st.events) + NonDelay(ops))
  {
    RunOpsGrows(o, st, ops, h);
    if RunOps(o, st, ops, h).1.Ok? {
      RunOpsSucceeds(o, st, ops, h);
    }
  }

  /** A run only appends to the log and never drives the pin low. */
  lemma {:induction false} RunOpsGrows(o: Oracle, st: State, ops: seq<Operation>, h: FaultHandling)
    ensures var res := RunOps(o, st, ops, h);
      && |st.events| <= |res.0.events| && res.0.events[..|st.events|] == st.events
      && SetLows(res.0.events) == SetLows(st.events)
    decreases |ops|
  {
    if |ops| > 0 {
      var p := ops[..|ops| - 1];
      var prefix := RunOps(o, st, p, h);
      RunOpsGrows(o, st, p, h);
      if prefix.1.Ok? {
        StepEffect(o, prefix.0, ops[|ops| - 1], h);
        var last := Step(o, prefix.0, ops[|ops| - 1], h);
        assert last.0.events[..|st.events|] == last.0.events[..|prefix.0.events|][..|st.events|];
      }
    }
  }

  /** A run that succeeds keeps the flag and puts its non-delay operations on the bus, in order. */
  lemma {:induction false} RunOpsSucceeds(o: Oracle, st: State, ops: seq<Operation>, h: FaultHandling)
    requires RunOps(o, st, ops, h).1.Ok?
    ensures var res := RunOps(o, st, ops, h);
      res.0.csLow == st.csLow && BusOps(res.0.events) == BusOps(st.events) + NonDelay(ops)
    decreases |ops|
  {
    if |ops| > 0 {
      var p := ops[..|ops| - 1];
      var prefix := RunOps(o, st, p, h);
      RunOpsSucceeds(o, st, p, h);
      StepEffect(o, prefix.0, ops[|ops| - 1], h);
    }
  }

  /**
   * `res` stopped at a bus fault in operation `j`: the operations before it
   * reached the bus in order, the faulting call is followed by an attempt to
   * raise the pin, and nothing after it ran.
   */
  predicate FailedAt(st: State, ops: seq<Operation>, res: (State, Result<seq<seq<byte>>, Error>), j: nat)
  {
    && j < |ops| && !ops[j].DelayNs? && res.1.Err? && res.1.error.BusError?
    && BusOps(res.0.events) == BusOps(st.events) + NonDelay(ops[..j + 1])
    && |res.0.events| >= 2
    && res.0.events[|res.0.events| - 2] == BusCall(ops[j], Fault(res.1.error.kind))
    && res.0.events[|res.0.events| - 1].SetHigh?
  }

  /** A run that fails stopped at a bus fault. */
  lemma {:induction false} RunOpsFailure(o: Oracle, st: State, ops: seq<Operation>, h: FaultHandling) returns (j: nat)
    requires RunOps(o, st, ops, h).1.Err?
    ensures FailedAt(st, ops, RunOps(o, st, ops, h), j)
    decreases |ops|
  {
    var p := ops[..|ops| - 1];
    var prefix := RunOps(o, st, p, h);
    if prefix.1.Err? {
      j := RunOpsFailure(o, st, p, h);
      FailedAtLonger(st, p, ops, prefix, j);
    } else {
      j := |ops| - 1;
      LastStepFailure(o, st, ops, h);
    }
  }

  lemma FailedAtLonger(st: State, p: seq<Operation>, ops: seq<Operation>, res: (State, Result<seq<seq<byte>>, Error>), j: nat)
    requires |ops| > 0 && p == ops[..|ops| - 1] && FailedAt(st, p, res, j)
    ensures FailedAt(st, ops, res, j)
  {
    assert p[..j + 1] == ops[..j + 1];
  }

  lemma LastStepFailure(o: Oracle, st: State, ops: seq<Operation>, h: FaultHandling)
    requires |ops| > 0 && RunOps(o, st, ops[..|ops| - 1], h).1.Ok? && RunOps(o, st, ops, h).1.Err?
    ensures FailedAt(st, ops, RunOps(o, st, ops, h), |ops| - 1)
  {
    var j := |ops| - 1;
    var p := ops[..j];
    var prefix := RunOps(o, st, p, h);
    RunOpsEffect(o, st, p, h);
    StepEffect(o, prefix.0, ops[j], h);
    assert ops[..j + 1] == ops;
  }

  /**
   * `transaction` drives the pin low exactly when the flag says it is not
   * low yet; when that fails the transaction reports a pin error, the flag
   * stays clear and the bus is not touched.
   */
  lemma TransactionDrivesPinOnlyWhenReleased(o: Oracle, st: State, ops: seq<Operation>, h: FaultHandling)
    ensures var res := TransactionSpec(o, st, ops, h);
      && |st.events| + (if st.csLow then 0 else 1) <= |res.0.events|
      && res.0.events[..|st.events|] == st.events
      && SetLows(res.0.events) == SetLows(st.events) + (if st.csLow then 0 else 1)
      && (!st.csLow ==> res.0.events[|st.events|] == SetLow(o.pin(|st.events|)))
      && (!st.csLow && !o.pin(|st.events|) ==>
            res == (State(false, st.events + [SetLow(false)]), Err(CSError)))
      && (res.1.Ok? ==> res.0.csLow)
  {
    if st.csLow {
      RunOpsEffect(o, st, ops, h);
    } else {
      var ok := o.pin(|st.events|);
      var st1 := State(ok, st.events + [SetLow(ok)]);
      AppendLast(st.events, SetLow(ok));
      if ok {
        RunOpsEffect(o, st1, ops, h);
        var res := RunOps(o, st1, ops, h);
        assert res.0.events[..|st.events|] == res.0.events[..|st1.events|][..|st.events|];
      }
    }
  }

  /** Back-to-back transactions drive the pin low only once. */
  lemma BackToBackDrivesOnce(o: Oracle, st: State, ops1: seq<Operation>, ops2: seq<Operation>, h: FaultHandling)
    requires !st.csLow && TransactionSpec(o, st, ops1, h).1.Ok?
    ensures SetLows(TransactionSpec(o, TransactionSpec(o, st, ops1, h).0, ops2, h).0.events) == SetLows(st.events) + 1
  {
    var first := TransactionSpec(o, st, ops1, h);
    TransactionDrivesPinOnlyWhenReleased(o, st, ops1, h);
    TransactionDrivesPinOnlyWhenReleased(o, first.0, ops2, h);
  }

  /** A successful transaction puts exactly its non-delay operations on the bus, in order. */
  lemma SuccessfulTransactionOrder(o: Oracle, st: State, ops: seq<Operation>, h: FaultHandling)
    requires TransactionSpec(o, st, ops, h).1.Ok?
    ensures var res := TransactionSpec(o, st, ops, h);
      BusOps(res.0.events) == BusOps(st.events) + NonDelay(ops) && |res.1.value| == |ops|
  {
    if st.csLow {
      RunOpsEffect(o, st, ops, h);
    } else {
      var ok := o.pin(|st.events|);
      AppendLast(st.events, SetLow(ok));
      RunOpsEffect(o, State(ok, st.events + [SetLow(ok)]), ops, h);
    }
  }

  /**
   * With the flag cleared after a successful release of the pin, the flag
   * always says what level the pin was last driven to.
   */
  lemma {:induction false} ClearLatchTracksPin(o: Oracle, st: State, ops: seq<Operation>)
    requires st.csLow == PinLow(st.events)
    ensures var res := TransactionSpec(o, st, ops, ClearLatch); res.0.csLow == PinLow(res.0.events)
    ensures var res := ReleaseSpec(o, st); res.0.csLow == PinLow(res.0.events)
  {
    AppendLast(st.events, SetHigh(o.pin(|st.events|)));
    if st.csLow {
      RunOpsTracksPin(o, st, ops);
    } else {
      var ok := o.pin(|st.events|);
      AppendLast(st.events, SetLow(ok));
      if ok {
        RunOpsTracksPin(o, State(ok, st.events + [SetLow(ok)]), ops);
      }
    }
  }

  lemma {:induction false} RunOpsTracksPin(o: Oracle, st: State, ops: seq<Operation>)
    requires st.csLow == PinLow(st.events)
    ensures var res := RunOps(o, st, ops, ClearLatch); res.0.csLow == PinLow(res.0.events)
    decreases |ops|
  {
    if |ops| > 0 {
      var p := ops[..|ops| - 1];
      RunOpsTracksPin(o, st, p);
      var prefix := RunOps(o, st, p, ClearLatch);
      if prefix.1.Ok? {
        StepTracksPin(o, prefix.0, ops[|ops| - 1]);
      }
    }
  }

  lemma StepTracksPin(o: Oracle, st: State, op: Operation)
    requires st.csLow == PinLow(st.events)
    ensures var res := Step(o, st, op, ClearLatch); res.0.csLow == PinLow(res.0.events)
  {
    if !op.DelayNs? {
      var e := st.events;
      var reply := o.bus(|e|);
      var call := BusCall(op, reply);
      PinLowAppend(e, call);
      match reply
      case Done(_) =>
      case Fault(_) =>
        var raise := SetHigh(o.pin(|e| + 1));
        PinLowAppend(e + [call], raise);
        assert e + [call, raise] == e + [call] + [raise];
    }
  }

  /** The pin level after one more event. */
  lemma PinLowAppend(e: seq<Event>, ev: Event)
    ensures PinLow(e + [ev]) == match ev
      case SetLow(ok) => ok || PinLow(e)
      case SetHigh(ok) => !ok && PinLow(e)
      case BusCall(_, _) => PinLow(e)
  {
    AppendLast(e, ev);
  }

  /** As written, running operations never changes the flag, whether they succeed or fault. */
  lemma {:induction false} RunOpsKeepsLatch(o: Oracle, st: State, ops: seq<Operation>)
    ensures RunOps(o, st, ops, KeepLatch).0.csLow == st.csLow
    decreases |ops|
  {
    if |ops| > 0 {
      RunOpsKeepsLatch(o, st, ops[..|ops| - 1]);
    }
  }

  /** A bus whose every call fails, behind a pin that always obeys. */
  const FaultyBus := Oracle(_ => true, _ => Fault(Other))

  /**
   * As written, a bus fault leaves the flag set although the pin was
   * raised: the next transaction skips driving the pin low and talks to the
   * bus with chip select high. Clearing the flag on release drives the pin
   * low again, as a second transaction expects.
   */
  lemma KeepLatchOutlivesFault()
    ensures var first := TransactionSpec(FaultyBus, State(false, []), [Read(1)], KeepLatch);
      var second := TransactionSpec(FaultyBus, first.0, [Read(1)], KeepLatch);
      && first.1 == Err(BusError(Other))
      && first.0.csLow && !PinLow(first.0.events)
      && |second.0.events| > |first.0.events|
      && second.0.events[|first.0.events|] == BusCall(Read(1), Fault(Other))
      && SetLows(second.0.events) == 1
    ensures var first := TransactionSpec(FaultyBus, State(false, []), [Read(1)], ClearLatch);
      var second := TransactionSpec(FaultyBus, first.0, [Read(1)], ClearLatch);
      && first.1 == Err(BusError(Other))
      && !first.0.csLow && !PinLow(first.0.events)
      && second.0.events[|first.0.events|] == SetLow(true)
      && SetLows(second.0.events) == 2
  {
    var o := FaultyBus;
    var op := Read(1);
    var start := State(false, []);
    var raised := [BusCall(op, Fault(Other)), SetHigh(true)];
    // Every transaction of a single failing read, once the pin is low.
    forall st: State, h: FaultHandling | st.csLow
      ensures TransactionSpec(o, st, [op], h)
        == (State(h == KeepLatch, st.events + raised), Err(BusError(Other)))
    {
      RunSingle(o, st, op, h);
    }
    var low := State(true, [SetLow(true)]);
    var e1 := low.events + raised;
    assert start.events + [SetLow(true)] == low.events;
    assert TransactionSpec(o, start, [op], KeepLatch) == TransactionSpec(o, low, [op], KeepLatch);
    assert TransactionSpec(o, start, [op], ClearLatch) == TransactionSpec(o, low, [op], ClearLatch);
    FaultAppend(low.events);
    assert !PinLow(e1);
    // As written: no second SetLow.
    FaultAppend(e1);
    // Corrected: the second transaction drives the pin low first.
    var e3 := e1 + [SetLow(true)];
    AppendLast(e1, SetLow(true));
    assert TransactionSpec(o, State(false, e1), [op], ClearLatch) == TransactionSpec(o, State(true, e3), [op], ClearLatch);
    FaultAppend(e3);
  }

  /** A transaction of one operation is that operation's step. */
  lemma RunSingle(o: Oracle, st: State, op: Operation, h: FaultHandling)
    ensures var step := Step(o, st, op, h);
      RunOps(o, st, [op], h) == (step.0, if step.1.Ok? then Ok([step.1.value]) else Err(step.1.error))
  {
    assert [op][..0] == [];
    var step := Step(o, st, op, h);
    if step.1.Ok? {
      assert [] + [step.1.value] == [step.1.value];
    }
  }

  /** The effect on the counters of a failed bus call followed by a raised pin. */
  lemma FaultAppend(e: seq<Event>)
    ensures var f := e + [BusCall(Read(1), Fault(Other)), SetHigh(true)];
      && SetLows(f) == SetLows(e) && !PinLow(f) && f[|e|] == BusCall(Read(1), Fault(Other))
  {
    var call := BusCall(Read(1), Fault(Other));
    var f := e + [call, SetHigh(true)];
    assert f[..|f| - 1] == e + [call];
    AppendLast(e, call);
  }

  class LatchingSpiDevice {
    const oracle: Oracle
    var csLow: bool
    var step: nat
    ghost var events: seq<Event>

    ghost predicate Valid()
      reads this
    {
      step == |events|
    }

    /** The flag and the interactions so far. */
    ghost function Snapshot(): State
      reads this
    {
      State(csLow, events)
    }

    /** `new`: the pin is assumed released. */
    constructor (oracle: Oracle)
      ensures Valid() && this.oracle == oracle && Snapshot() == State(false, [])
    {
      this.oracle := oracle;
      csLow := false;
      step := 0;
      events := [];
    }

    method SetPinLow() returns (ok: bool)
      requires Valid()
      modifies this
      ensures Valid() && csLow == old(csLow)
      ensures ok == oracle.pin(old(step)) && events == old(events) + [SetLow(ok)]
    {
      ok := oracle.pin(step);
      events := events + [SetLow(ok)];
      step := step + 1;
    }

    method SetPinHigh() returns (ok: bool)
      requires Valid()
      modifies this
      ensures Valid() && csLow == old(csLow)
      ensures ok == oracle.pin(old(step)) && events == old(events) + [SetHigh(ok)]
    {
      ok := oracle.pin(step);
      events := events + [SetHigh(ok)];
      step := step + 1;
    }

    method CallBus(op: Operation) returns (reply: BusReply)
      requires Valid()
      modifies this
      ensures Valid() && csLow == old(csLow)
      ensures reply == oracle.bus(old(step)) && events == old(events) + [BusCall(op, reply)]
    {
      reply := oracle.bus(step);
      events := events + [BusCall(op, reply)];
      step := step + 1;
    }

    method ReleaseCs() returns (r: Result<Unit, Error>)
      requires Valid()
      modifies this
      ensures Valid() && (Snapshot(), r) == ReleaseSpec(oracle, old(Snapshot()))
    {
      var ok := SetPinHigh();
      if !ok {
        return Err(CSError);
      }
      csLow := false;
      r := Ok(Unit);
    }

    /**
     * `transaction`, as written: after a bus fault the pin is raised but
     * the flag stays set (see `KeepLatchOutlivesFault`).
     */
    method Transaction(ops: seq<Operation>) returns (r: Result<seq<seq<byte>>, Error>)
      requires Valid()
      modifies this
      ensures Valid() && (Snapshot(), r) == TransactionSpec(oracle, old(Snapshot()), ops, KeepLatch)
    {
      if !csLow {
        var ok := SetPinLow();
        if !ok {
          return Err(CSError);
        }
        csLow := true;
      }
      ghost var start := Snapshot();
      var received: seq<seq<byte>> := [];
      var i := 0;
      while i < |ops|
        invariant 0 <= i <= |ops| && Valid()
        invariant (Snapshot(), Ok(received)) == RunOps(oracle, start, ops[..i], KeepLatch)
      {
        var op := ops[i];
        assert ops[..i + 1][..i] == ops[..i];
        ghost var before := Snapshot();
        if op.DelayNs? {
          received := received + [[]];
        } else {
          var reply := CallBus(op);
          match reply
          case Fault(k) =>
            var released := SetPinHigh();
            r := Err(BusError(k));
            assert events == before.events + [BusCall(op, reply), SetHigh(released)];
            assert Step(oracle, before, op, KeepLatch) == (Snapshot(), Err(BusError(k)));
            assert RunOps(oracle, start, ops[..i + 1], KeepLatch) == (Snapshot(), r);
            FailureStops(oracle, start, ops, i + 1, KeepLatch);
            return;
          case Done(raw) =>
            received := received + [Fit(raw, ReceivedLength(op))];
        }
        i := i + 1;
      }
      assert ops[..|ops|] == ops;
      r := Ok(received);
    }
  }
}
