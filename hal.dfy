/**
 * The slice of the embedded-hal SPI interface the driver relies on. The bus
 * and the pins are foreign code: their answers are given as oracles indexed
 * by how many interactions came before, and what was asked of them is kept
 * in a ghost log.
 */
module Hal {
  import opened Bytes
  import opened Wrappers

  /** The error kinds a bus reports. */
  datatype ErrorKind = Overrun | ModeFault | FrameFormat | ChipSelectFault | Other

  /** One step of an SPI transaction; buffers to be filled are given by their length. */
  datatype Operation =
    | Read(len: nat)
    | Write(data: seq<byte>)
    | Transfer(readLen: nat, tx: seq<byte>)
    | TransferInPlace(data: seq<byte>)
    | DelayNs(ns: nat)

  /** How many bytes the operation's receive buffer holds. */
  function ReceivedLength(op: Operation): nat
  {
    match op
    case Read(n) => n
    case Transfer(n, _) => n
    case TransferInPlace(data) => |data|
    case _ => 0
  }

  /** Whatever the hardware clocks in, the receive buffer keeps exactly its own length. */
  function Fit(raw: seq<byte>, n: nat): (r: seq<byte>)
    ensures |r| == n
    ensures forall i :: 0 <= i < n && i < |raw| ==> r[i] == raw[i]
    ensures forall i :: |raw| <= i < n ==> r[i] == 0
  {
    if n <= |raw| then raw[..n] else raw + Fill(n - |raw|, 0)
  }

  /** What a single bus call answers: the bytes clocked in, or a fault. */
  datatype BusReply = Done(rx: seq<byte>) | Fault(kind: ErrorKind)

  /** What a whole device transaction answers. */
  datatype DeviceReply = Completed(rx: seq<seq<byte>>) | Failed(kind: ErrorKind)

  /** A transaction a device was asked to carry out, with its answer. */
  datatype Exchange = Exchange(ops: seq<Operation>, reply: DeviceReply)

  /** The receive buffers of `ops` after the device answered `raw`, one per operation. */
  function Received(ops: seq<Operation>, raw: seq<seq<byte>>): (r: seq<seq<byte>>)
    ensures |r| == |ops|
    ensures forall i :: 0 <= i < |ops| ==> |r[i]| == ReceivedLength(ops[i])
  {
    seq(|ops|, i requires 0 <= i < |ops| => Fit(if i < |raw| then raw[i] else [], ReceivedLength(ops[i])))
  }

  /** The outcome of one device transaction answered by `respond(|log|)`. */
  function DeviceTransaction(respond: nat -> DeviceReply, log: seq<Exchange>, ops: seq<Operation>)
    : (res: (seq<Exchange>, Result<seq<seq<byte>>, ErrorKind>))
    ensures res.0 == log + [Exchange(ops, respond(|log|))]
    ensures res.1.Ok? <==> respond(|log|).Completed?
    ensures res.1.Ok? ==> |res.1.value| == |ops|
  {
    var reply := respond(|log|);
    (log + [Exchange(ops, reply)],
     match reply
     case Completed(raw) => Ok(Received(ops, raw))
     case Failed(k) => Err(k))
  }

  /**
   * A device that owns its chip select and drives it around every
   * transaction (the plain `SpiDevice` the client uses without polling).
   */
  class SpiDevice {
    const respond: nat -> DeviceReply
    var count: nat
    ghost var log: seq<Exchange>

    ghost predicate Valid()
      reads this
    {
      count == |log|
    }

    constructor (respond: nat -> DeviceReply)
      ensures Valid() && this.respond == respond && log == []
    {
      this.respond := respond;
      count := 0;
      log := [];
    }

    method Transaction(ops: seq<Operation>) returns (r: Result<seq<seq<byte>>, ErrorKind>)
      requires Valid()
      modifies this
      ensures Valid()
      ensures (log, r) == DeviceTransaction(respond, old(log), ops)
    {
      var reply := respond(count);
      log := log + [Exchange(ops, reply)];
      count := count + 1;
      match reply
      case Completed(raw) => r := Ok(Received(ops, raw));
      case Failed(k) => r := Err(k);
    }
  }
}
