/**
 * The number platform (custom_components/clivet/number.py): registers the
 * user can set, shown and written through the numeric codec. A number is
 * signed exactly when its minimum is negative, and steps by its scale.
 */
module NumberPlatform {
  import opened Codec
  import opened Errors
  import opened Transport
  import opened Coordinator
  import opened Entity

  /** One row of the number table; temperature numbers have scale 0.1. */
  datatype NumberSpec = NumberSpec(address: nat, name: string, device: ClivetDevice, scale: real, minValue: real, maxValue: real)
  {
    predicate Signed()
    {
      minValue < 0.0
    }

    function Step(): real
    {
      scale
    }
  }

  /** The four numbers the platform sets up, in order. */
  const Numbers: seq<NumberSpec> := [
    NumberSpec(2614, "Demand limit", HeatPump, 1.0, 0.0, 10.0),
    NumberSpec(2702, "Sanitary band", Dhw, 0.1, 0.0, 20.0),
    NumberSpec(2704, "Anti-legionella setpoint", Dhw, 0.1, 55.0, 70.0),
    NumberSpec(2706, "Anti-legionella interval", Dhw, 1.0, 0.0, 86400.0)
  ]

  /**
   * `async_set_native_value(value)`: one `set_modbus_register` of the
   * encoded value, a CommunicationException reported as a
   * HomeAssistantError. A zero scale fails in the division.
   */
  function NumberWrite(dev: Device, s: CoordState, address: nat, scale: real, signed: bool, value: real): (Status, CoordState)
  {
    if scale == 0.0 then (Raised(ZeroDivisionError), s)
    else
      var (st, s2) := RegisterWrite(dev, s, address, EncodeNumber(value, scale, signed));
      (ActionStatus(st), s2)
  }

  /**
   * Setting a number sends exactly one write, of the encoded value, to the
   * number's address (after a connection attempt if one was needed), and
   * at most one refresh read after it; the call ends normally, raises
   * OfflineException, or raises a HomeAssistantError for any
   * communication failure.
   */
  lemma NumberWriteEffect(dev: Device, s: CoordState, address: nat, scale: real, signed: bool, value: real)
    requires scale != 0.0
    ensures s.link.log <= NumberWrite(dev, s, address, scale, signed, value).1.link.log
    ensures var (st, s2) := NumberWrite(dev, s, address, scale, signed, value);
            var evs := NewEvents(s.link, s2.link);
            var p := ConnectPrefix(s.link);
            && st in {Ok, Raised(Offline), Raised(HomeAssistantError)}
            && (st == Raised(Offline) ==> evs == [ConnectAttempt(false)] && s2.data == s.data)
            && (st != Raised(Offline) ==>
                  && |p| < |evs| <= |p| + 2 && evs[..|p|] == p
                  && IsWriteOf(evs[|p|], address, EncodeNumber(value, scale, signed)))
  {
    RegisterWriteExchange(dev, s, address, EncodeNumber(value, scale, signed));
    var (st, s2) := RegisterWrite(dev, s, address, EncodeNumber(value, scale, signed));
    assert st in {Ok, Raised(Offline), Raised(CommunicationFailure)} by {
      RegisterWriteRaises(dev, s, address, EncodeNumber(value, scale, signed));
    }
  }

  /**
   * Which values of each number's range encode to a 16-bit register word.
   * Every value of the first three numbers does. "Anti-legionella
   * interval" (2706) allows up to 86400, but only values below 65536
   * encode to a word: 70000 lies in its range and is sent as the integer
   * 70000.
   */
  lemma NumberValuesFitWord()
    ensures forall k, v :: 0 <= k < 3 && Numbers[k].minValue <= v <= Numbers[k].maxValue ==>
              0 <= EncodeNumber(v, Numbers[k].scale, false) < 0x1_0000
    ensures Numbers[3].address == 2706 && Numbers[3].scale == 1.0
    ensures forall v :: Numbers[3].minValue <= v <= Numbers[3].maxValue ==>
              (0 <= EncodeNumber(v, Numbers[3].scale, false) < 0x1_0000 <==> v < 65536.0)
    ensures Numbers[3].minValue <= 70000.0 <= Numbers[3].maxValue && EncodeNumber(70000.0, 1.0, false) == 70000
  {
    forall k, v | 0 <= k < 3 && Numbers[k].minValue <= v <= Numbers[k].maxValue
      ensures 0 <= EncodeNumber(v, Numbers[k].scale, false) < 0x1_0000
    {
      var sc := Numbers[k].scale;
      var t := Trunc(v / sc);
      assert 0.0 <= v <= 70.0;
      assert sc == 1.0 || sc == 0.1;
      assert 0.0 <= v / sc <= 700.0;
      assert 0 <= t <= 700;
    }
    forall v | Numbers[3].minValue <= v <= Numbers[3].maxValue
      ensures 0 <= EncodeNumber(v, Numbers[3].scale, false) < 0x1_0000 <==> v < 65536.0
    {
      assert v / 1.0 == v;
    }
  }

  /** Every configured number has a non-negative minimum, so all are unsigned, and each steps by its scale. */
  lemma NumbersAreUnsigned()
    ensures forall k :: 0 <= k < |Numbers| ==> !Numbers[k].Signed() && Numbers[k].Step() == Numbers[k].scale
    ensures forall k :: 0 <= k < |Numbers| ==> Numbers[k].scale in {1.0, 0.1}
  {
  }

  /**
   * Setting a number to the value it shows writes back the very word the
   * device reported.
   */
  lemma DisplayedValueWritesBack(data: map<int, Word>, spec: NumberSpec)
    requires spec.address in data && data[spec.address] != NotAvailable && spec.scale != 0.0
    ensures CachedNumber(data, spec.address, spec.scale, spec.Signed()).Some?
    ensures EncodeNumber(CachedNumber(data, spec.address, spec.scale, spec.Signed()).value.AsReal(), spec.scale, spec.Signed())
              == data[spec.address]
  {
    EncodeDecodeRoundTrip(data[spec.address], spec.scale, spec.Signed());
  }

  /** A temperature number at 45.5 °C writes 455. */
  lemma TemperatureNumberExample()
    ensures Numbers[1].scale == 0.1 && EncodeNumber(45.5, Numbers[1].scale, Numbers[1].Signed()) == 455
  {
    assert 45.5 / 0.1 == 455.0;
  }

  /** `ClivetNumberEntity` and `ClivetTemperatureNumberEntity`. */
  class NumberEntity {
    const coordinator: ClivetCoordinator
    const address: nat
    const scale: real
    const signed: bool
    const step: real
    const minValue: real
    const maxValue: real
    const uniqueId: string
    var nativeValue: Option<Number>

    constructor (spec: NumberSpec, coordinator: ClivetCoordinator)
      ensures this.coordinator == coordinator && address == spec.address && scale == spec.scale
      ensures signed == spec.Signed() && step == spec.Step()
      ensures minValue == spec.minValue && maxValue == spec.maxValue
      ensures uniqueId == BaseUniqueId(coordinator.uniqueId, spec.address) && nativeValue == None
    {
      this.coordinator := coordinator;
      address := spec.address;
      scale := spec.scale;
      signed := spec.minValue < 0.0;
      step := spec.scale;
      minValue := spec.minValue;
      maxValue := spec.maxValue;
      uniqueId := BaseUniqueId(coordinator.uniqueId, spec.address);
      nativeValue := None;
    }

    /** `_handle_coordinator_update`. */
    method HandleCoordinatorUpdate()
      modifies this
      ensures nativeValue == CachedNumber(coordinator.data, address, scale, signed)
    {
      var data := coordinator.data;
      if address in data {
        nativeValue := DecodeNumber(Some(data[address]), scale, signed);
      } else {
        nativeValue := None;
      }
    }

    /** `async_set_native_value`. */
    method SetNativeValue(value: real) returns (status: Status)
      modifies coordinator, coordinator.client
      ensures (status, coordinator.State())
                == NumberWrite(coordinator.client.device, old(coordinator.State()), address, scale, signed, value)
    {
      if scale == 0.0 {
        return Raised(ZeroDivisionError);
      }
      status := coordinator.SetModbusRegister(address, EncodeNumber(value, scale, signed));
      status := ActionStatus(status);
    }
  }
}
