/**
 * The switch platform (custom_components/clivet/switch.py): single bits
 * of holding registers shown as on/off switches, optionally inverted, and
 * switched through the coordinator's read-modify-write of one bit.
 */
module Switch {
  import opened Codec
  import opened Errors
  import opened Transport
  import opened Coordinator
  import opened Entity

  /** One row of the switch table. */
  datatype SwitchSpec = SwitchSpec(address: nat, bit: nat, name: string, device: ClivetDevice, invert: bool)

  /** The seventeen switches the platform sets up, in order. */
  const Switches: seq<SwitchSpec> := [
      SwitchSpec(2600, 0, "System status", HeatPump, false),
      SwitchSpec(2600, 2, "Heat/cool mode", HeatPump, false),
      SwitchSpec(2600, 2, "Cool/heat mode", HeatPump, true),
      SwitchSpec(2600, 4, "DHW only mode", HeatPump, false),
      SwitchSpec(2600, 9, "Room thermoregulation request", HeatPump, false),
      SwitchSpec(2601, 2, "Enable remote unit mode", HeatPump, false),
      SwitchSpec(2601, 4, "Enable remote DHW only", HeatPump, false),
      SwitchSpec(2601, 5, "Enable remote unit state", HeatPump, false),
      SwitchSpec(2601, 15, "Enable remote demand limit", HeatPump, false),
      SwitchSpec(2602, 1, "Enable thermoregulation request", HeatPump, false),
      SwitchSpec(2602, 3, "Enable remote DHW control", HeatPump, false),
      SwitchSpec(2709, 0, "Enable remote DHW control", Dhw, false),
      SwitchSpec(2709, 1, "Enable remote storage tank setpoint", Dhw, false),
      SwitchSpec(2709, 2, "Enable remote DHW range", Dhw, false),
      SwitchSpec(2709, 3, "Enable remote maintenance setpoint", Dhw, false),
      SwitchSpec(2709, 4, "Enable remote anti-legionella setpoint", Dhw, false),
      SwitchSpec(2709, 6, "Enable remote anti-legionionella interval", Dhw, false)
  ]

  /** `is_on` after a coordinator update: the decoded bit, unknown when the address is not in the map. */
  function SwitchState(data: map<int, Word>, address: nat, bit: Option<nat>, invert: bool): (r: Option<bool>)
    ensures r.Some? <==> address in data
    ensures address in data && bit.Some? ==> r.value == (Bit(data[address], bit.value) != invert)
  {
    if address in data then DecodeBool(Some(data[address]), bit, invert) else None
  }

  /**
   * `async_turn_on` (`on`) and `async_turn_off` (not `on`): a switch
   * without a bit fails its assertion; otherwise the bit is set to
   * `not invert` to turn on and to `invert` to turn off.
   */
  function SwitchCommand(dev: Device, s: CoordState, address: nat, bit: Option<nat>, invert: bool, on: bool): (Status, CoordState)
  {
    if bit.None? then (Raised(AssertionError), s) else BitWrite(dev, s, address, bit.value, on != invert)
  }

  /**
   * Switching a switch: when the word read already shows the requested
   * state, nothing is written, the call ends normally and the map is left
   * as it was; otherwise exactly one word is written, equal to the word
   * read except for the switch's bit, and that word shows the requested
   * state. A switch without a bit raises before any exchange.
   */
  lemma SwitchCommandEffect(dev: Device, s: CoordState, address: nat, bit: Option<nat>, invert: bool, on: bool)
    ensures s.link.log <= SwitchCommand(dev, s, address, bit, invert, on).1.link.log
    ensures bit.None? ==> SwitchCommand(dev, s, address, bit, invert, on) == (Raised(AssertionError), s)
    ensures var (st, s2) := SwitchCommand(dev, s, address, bit, invert, on);
            var evs := NewEvents(s.link, s2.link);
            var p := ConnectPrefix(s.link);
            var w := if |p| < |evs| then FirstWord(evs[|p|]) else None;
            && (bit.Some? && w.Some? && DecodeBool(Some(w.value), bit, invert) == Some(on) ==>
                  st == Ok && |evs| == |p| + 1 && s2.data == s.data && s2.notified == s.notified)
            && (bit.Some? && w.Some? && DecodeBool(Some(w.value), bit, invert) != Some(on) ==>
                  var v := SetBit(w.value, bit.value, on != invert);
                  && |p| + 1 < |evs| && IsWriteOf(evs[|p| + 1], address, v)
                  && DecodeBool(Some(v), bit, invert) == Some(on)
                  && forall c: nat :: c != bit.value ==> Bit(v, c) == Bit(w.value, c))
  {
    if bit.Some? {
      BitWriteReadsFirst(dev, s, address, bit.value, on != invert);
      BitWriteSkips(dev, s, address, bit.value, on != invert);
      BitWriteWritesOnce(dev, s, address, bit.value, on != invert);
    }
  }

  /**
   * Every switch reads a bit of a 16-bit word in a block the polling
   * cycle reads, so a completed poll can show it.
   */
  lemma SwitchTableReadsPolledBits()
    ensures |Switches| == 17
    ensures forall k :: 0 <= k < |Switches| ==>
              Switches[k].bit < 16 && PolledAddress(Switches[k].address)
  {
  }

  /** No two switches share address, bit and inversion. */
  lemma SwitchTableDistinct()
    ensures forall i, j :: 0 <= i < j < |Switches| ==>
              (Switches[i].address, Switches[i].bit, Switches[i].invert)
                != (Switches[j].address, Switches[j].bit, Switches[j].invert)
  {
  }

  /** The seventeen switches of one coordinator have pairwise distinct unique ids. */
  lemma SwitchUniqueIdsDistinct(coordinatorId: string)
    ensures forall i, j :: 0 <= i < j < |Switches| ==>
              BooleanUniqueId(coordinatorId, Switches[i].address, Some(Switches[i].bit), Switches[i].invert)
                != BooleanUniqueId(coordinatorId, Switches[j].address, Some(Switches[j].bit), Switches[j].invert)
  {
    SwitchTableDistinct();
    forall i, j | 0 <= i < j < |Switches|
      ensures BooleanUniqueId(coordinatorId, Switches[i].address, Some(Switches[i].bit), Switches[i].invert)
                != BooleanUniqueId(coordinatorId, Switches[j].address, Some(Switches[j].bit), Switches[j].invert)
    {
      var a, b := Switches[i], Switches[j];
      if BooleanUniqueId(coordinatorId, a.address, Some(a.bit), a.invert)
           == BooleanUniqueId(coordinatorId, b.address, Some(b.bit), b.invert) {
        BooleanUniqueIdInjective(coordinatorId, a.address, Some(a.bit), a.invert, b.address, Some(b.bit), b.invert);
      }
    }
  }

  /**
   * "Heat/cool mode" and "Cool/heat mode" read the same bit, one of them
   * inverted, so whenever register 2600 is known they show opposite states.
   */
  lemma HeatCoolSwitchesOpposite(data: map<int, Word>)
    requires 2600 in data
    ensures var a, b := Switches[1], Switches[2];
            && a.address == b.address == 2600 && a.bit == b.bit == 2 && !a.invert && b.invert
            && SwitchState(data, a.address, Some(a.bit), a.invert).value
                 == !SwitchState(data, b.address, Some(b.bit), b.invert).value
  {
  }

  /** A switch entity: its table row, the coordinator it reads, and the state it shows. */
  class SwitchEntity {
    const coordinator: ClivetCoordinator
    const address: nat
    const bit: Option<nat>
    const invert: bool
    const name: string
    const uniqueId: string
    var isOn: Option<bool>

    constructor (spec: SwitchSpec, coordinator: ClivetCoordinator)
      ensures this.coordinator == coordinator && address == spec.address && bit == Some(spec.bit)
      ensures invert == spec.invert && name == spec.name
      ensures uniqueId == BooleanUniqueId(coordinator.uniqueId, spec.address, Some(spec.bit), spec.invert)
      ensures isOn == None
    {
      this.coordinator := coordinator;
      address := spec.address;
      bit := Some(spec.bit);
      invert := spec.invert;
      name := spec.name;
      uniqueId := BooleanUniqueId(coordinator.uniqueId, spec.address, Some(spec.bit), spec.invert);
      isOn := None;
    }

    /** `_handle_coordinator_update`. */
    method HandleCoordinatorUpdate()
      modifies this
      ensures isOn == SwitchState(coordinator.data, address, bit, invert)
    {
      var data := coordinator.data;
      if address in data {
        isOn := DecodeBool(Some(data[address]), bit, invert);
      } else {
        isOn := None;
      }
    }

    method TurnOn() returns (status: Status)
      modifies coordinator, coordinator.client
      ensures (status, coordinator.State())
                == SwitchCommand(coordinator.client.device, old(coordinator.State()), address, bit, invert, true)
    {
      if bit.None? {
        return Raised(AssertionError);
      }
      status := coordinator.SetModbusBit(address, bit.value, !invert);
    }

    method TurnOff() returns (status: Status)
      modifies coordinator, coordinator.client
      ensures (status, coordinator.State())
                == SwitchCommand(coordinator.client.device, old(coordinator.State()), address, bit, invert, false)
    {
      if bit.None? {
        return Raised(AssertionError);
      }
      status := coordinator.SetModbusBit(address, bit.value, invert);
    }
  }
}
