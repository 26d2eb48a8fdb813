/**
 * The Modbus client the coordinator drives, as an abstract capability:
 * a connection flag, `connect()`, a block read and a single-register write.
 * What the device answers is given by a `Device`: three functions of the
 * exchange so far, so an answer may depend on everything sent before
 * (a read-back after a write, a link that starts failing, ...).
 * Every exchange is appended, with its answer, to the client's log.
 */
module Transport {
  import opened Codec

  /** The answer to `read_holding_registers`: the registers, an error response, or a raised ModbusException. */
  datatype ReadResponse = Registers(words: seq<Word>) | ErrorResponse | Fault

  /** The answer to `write_register`. */
  datatype WriteResponse = Written | WriteErrorResponse | WriteFault

  datatype Event =
    | ConnectAttempt(ok: bool)
    | Read(address: int, count: nat, answer: ReadResponse)
    | Write(address: int, value: int, outcome: WriteResponse)

  datatype Device = Device(
    connect: seq<Event> -> bool,
    read: (seq<Event>, int, nat) -> ReadResponse,
    write: (seq<Event>, int, int) -> WriteResponse)

  /** The client's state: whether it is connected and every exchange so far. */
  datatype Link = Link(connected: bool, log: seq<Event>)

  function ConnectStep(dev: Device, link: Link): (r: Link)
    ensures r.log == link.log + [ConnectAttempt(r.connected)]
  {
    var ok := dev.connect(link.log);
    Link(ok, link.log + [ConnectAttempt(ok)])
  }

  function ReadStep(dev: Device, link: Link, address: int, count: nat): (r: (ReadResponse, Link))
    ensures r.1 == Link(link.connected, link.log + [Read(address, count, r.0)])
  {
    var response := dev.read(link.log, address, count);
    (response, Link(link.connected, link.log + [Read(address, count, response)]))
  }

  function WriteStep(dev: Device, link: Link, address: int, value: int): (r: (WriteResponse, Link))
    ensures r.1 == Link(link.connected, link.log + [Write(address, value, r.0)])
  {
    var response := dev.write(link.log, address, value);
    (response, Link(link.connected, link.log + [Write(address, value, response)]))
  }

  /** The events a link gained between two of its states. */
  function NewEvents(before: Link, after: Link): seq<Event>
    requires before.log <= after.log
  {
    after.log[|before.log|..]
  }

  /** The read exchanges among `evs`, in order. */
  function ReadsOf(evs: seq<Event>): seq<Event>
  {
    if evs == [] then []
    else (if evs[0].Read? then [evs[0]] else []) + ReadsOf(evs[1..])
  }

  /** The write exchanges among `evs`, in order. */
  function WritesOf(evs: seq<Event>): seq<Event>
  {
    if evs == [] then []
    else (if evs[0].Write? then [evs[0]] else []) + WritesOf(evs[1..])
  }

  lemma {:induction false} ReadsOfAppend(a: seq<Event>, b: seq<Event>)
    ensures ReadsOf(a + b) == ReadsOf(a) + ReadsOf(b)
  {
    if a == [] {
      assert a + b == b;
    } else {
      assert (a + b)[0] == a[0] && (a + b)[1..] == a[1..] + b;
      ReadsOfAppend(a[1..], b);
    }
  }

  lemma {:induction false} WritesOfAppend(a: seq<Event>, b: seq<Event>)
    ensures WritesOf(a + b) == WritesOf(a) + WritesOf(b)
  {
    if a == [] {
      assert a + b == b;
    } else {
      assert (a + b)[0] == a[0] && (a + b)[1..] == a[1..] + b;
      WritesOfAppend(a[1..], b);
    }
  }

  class Client {
    const device: Device
    var connected: bool
    var log: seq<Event>

    constructor (device: Device)
      ensures this.device == device && !connected && log == []
    {
      this.device := device;
      connected := false;
      log := [];
    }

    function Snapshot(): Link
      reads this
    {
      Link(connected, log)
    }

    method Connect() returns (ok: bool)
      modifies this
      ensures Snapshot() == ConnectStep(device, old(Snapshot()))
      ensures ok == connected
    {
      ok := device.connect(log);
      connected := ok;
      log := log + [ConnectAttempt(ok)];
    }

    method ReadHoldingRegisters(address: int, count: nat) returns (r: ReadResponse)
      modifies this
      ensures (r, Snapshot()) == ReadStep(device, old(Snapshot()), address, count)
    {
      r := device.read(log, address, count);
      log := log + [Read(address, count, r)];
    }

    method WriteRegister(address: int, value: int) returns (r: WriteResponse)
      modifies this
      ensures (r, Snapshot()) == WriteStep(device, old(Snapshot()), address, value)
    {
      r := device.write(log, address, value);
      log := log + [Write(address, value, r)];
    }
  }
}
