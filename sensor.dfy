/**
 * The sensor platform (custom_components/clivet/sensor.py): registers
 * shown as numbers (optionally scaled, temperatures signed at 0.1 °C) and
 * registers whose whole value is looked up in a status map.
 */
module Sensor {
  import opened Codec
  import opened Transport
  import opened Coordinator
  import opened Entity

  /**
   * How a sensor decodes its register: a plain number with its scale
   * (unsigned), a temperature (scale 0.1, signed), or a status-map lookup.
   */
  datatype SensorKind = Plain(scale: real) | Temperature | Status(statusMap: seq<(int, string)>)
  {
    function Scale(): real
    {
      match this
      case Plain(s) => s
      case Temperature => 0.1
      case Status(_) => 1.0
    }

    predicate Signed()
    {
      Temperature?
    }
  }

  datatype SensorSpec = SensorSpec(address: nat, name: string, device: ClivetDevice, kind: SensorKind)

  /** The labels of the two operating-mode registers. */
  const OperatingModes: seq<(int, string)> :=
    [(0, "Off"), (2, "Cooling"), (3, "Heating"), (4, "Forced Cooling"), (5, "Water Heating")]

  /** The sensors on the domestic-hot-water block (2800-2806), in order. */
  const SensorsAt2800: seq<SensorSpec> := [
    SensorSpec(2804, "Current setpoint", Dhw, Temperature),
    SensorSpec(2805, "Resistance operation", Dhw, Plain(1.0)),
    SensorSpec(2806, "Resistance starts", Dhw, Plain(1.0))
  ]

  /** The sensors on the heat-pump block (4200-4278), in order. */
  const SensorsAt4200: seq<SensorSpec> := [
    SensorSpec(4200, "Current setpoint", HeatPump, Temperature),
    SensorSpec(4201, "Actual temperature difference (including compensation)", HeatPump, Temperature),
    SensorSpec(4202, "Timer relative to resource insertion ", HeatPump, Plain(1.0)),
    SensorSpec(4203, "Dynamic TimeScan relative to resource insertion ", HeatPump, Plain(1.0)),
    SensorSpec(4204, "External T compensation", HeatPump, Temperature),
    SensorSpec(4205, "Ambient T Compensation", HeatPump, Temperature),
    SensorSpec(4207, "Charge compensation", HeatPump, Temperature),
    SensorSpec(4208, "Duty Cycle compensation", HeatPump, Temperature),
    SensorSpec(4209, "Compensation on duration", HeatPump, Temperature),
    SensorSpec(4210, "Exchanger water inlet temperature (Return)", HeatPump, Temperature),
    SensorSpec(4211, "Exchanger water outlet temperature (Supply)", HeatPump, Temperature),
    SensorSpec(4213, "Outdoor air temperature", HeatPump, Temperature),
    SensorSpec(4215, "DHW accumulation temperature (high probe)", HeatPump, Temperature),
    SensorSpec(4216, "Utility pump", HeatPump, Plain(0.1)),
    SensorSpec(4219, "Condensing pressure C1", HeatPump, Plain(0.01)),
    SensorSpec(4220, "Evaporating pressure C1", HeatPump, Plain(0.01)),
    SensorSpec(4221, "Auxiliary heater control signal (0-10V)", HeatPump, Plain(0.1)),
    SensorSpec(4223, "boiler modulating (set)/ Boiler valves control", HeatPump, Temperature),
    SensorSpec(4225, "Thermoregulator request", HeatPump, Plain(0.1)),
    SensorSpec(4226, "Variable speed compressor (0-10V)", HeatPump, Plain(0.1)),
    SensorSpec(4227, "Compressor operating hours", HeatPump, Plain(1.0)),
    SensorSpec(4228, "Compressor starts", HeatPump, Plain(1.0)),
    SensorSpec(4235, "Electrical power absorbed", Compressor, Plain(0.1)),
    SensorSpec(4236, "Current M-ODU", Compressor, Plain(0.1)),
    SensorSpec(4237, "Voltage M-ODU", Compressor, Plain(1.0)),
    SensorSpec(4238, "Frequency M-ODU", Compressor, Plain(0.1)),
    SensorSpec(4248, "Return temperature", HeatPump, Temperature),
    SensorSpec(4249, "Discharge temperature", HeatPump, Temperature),
    SensorSpec(4252, "Regolation valve opening percentage", HeatPump, Plain(0.1)),
    SensorSpec(4262, "Fan", HeatPump, Plain(0.1)),
    SensorSpec(4266, "DHW setpoint", HeatPump, Temperature),
    SensorSpec(4273, "Primary flow rate", HeatPump, Plain(0.1)),
    SensorSpec(4275, "DHW circuit flow rate", HeatPump, Plain(0.1)),
    SensorSpec(4276, "DHW total consumption", HeatPump, Plain(0.1))
  ]

  /** The sensors on the compressor block (4300-4318), in order. */
  const SensorsAt4300: seq<SensorSpec> := [
    SensorSpec(4300, "Set operating mode", Compressor, Status(OperatingModes)),
    SensorSpec(4301, "Requested work frequency", Compressor, Plain(1.0)),
    SensorSpec(4302, "Operating work frequency", Compressor, Plain(1.0)),
    SensorSpec(4303, "M-ODU operating mode", Compressor, Status(OperatingModes)),
    SensorSpec(4304, "Fan speed", Compressor, Plain(0.1)),
    SensorSpec(4305, "Condenser output temperature T3", Compressor, Temperature),
    SensorSpec(4306, "Outdoor Temperature T4", Compressor, Temperature),
    SensorSpec(4307, "Compressor discharge temperature Tp", Compressor, Temperature),
    SensorSpec(4308, "Inverter protection code", Compressor, Plain(1.0)),
    SensorSpec(4309, "M-ODU absorbed current", Compressor, Plain(1.0)),
    SensorSpec(4310, "M-ODU voltage", Compressor, Plain(1.0)),
    SensorSpec(4311, "Thermostatic opening degrees", Compressor, Temperature),
    SensorSpec(4313, "Error code", Compressor, Plain(1.0)),
    SensorSpec(4315, "Extraction temperature", Compressor, Temperature),
    SensorSpec(4316, "Pressure transducer 1", Compressor, Plain(0.01)),
    SensorSpec(4317, "Pressure transducer 2", Compressor, Plain(0.01))
  ]

  /** The sensors on the defrost block (7000-7005), in order. */
  const SensorsAt7000: seq<SensorSpec> := [
    SensorSpec(7000, "Lower frequency limit", HeatPump, Plain(1.0)),
    SensorSpec(7001, "Upper frequency limit", HeatPump, Plain(1.0)),
    SensorSpec(7002, "Thermoregulator requested frequency", HeatPump, Plain(1.0)),
    SensorSpec(7003, "Requested outdoor unit frequency", HeatPump, Plain(1.0)),
    SensorSpec(7004, "Current outdoor unit frequency", HeatPump, Plain(1.0)),
    SensorSpec(7005, "Defrost mode frequency", HeatPump, Plain(1.0))
  ]

  /** The sensors the platform sets up, in order: the table lists them block by block. */
  const Sensors: seq<SensorSpec> := SensorsAt2800 + SensorsAt4200 + SensorsAt4300 + SensorsAt7000

  /** `status_map.get(code)`. */
  function StatusLookup(statusMap: seq<(int, string)>, code: int): (r: Option<string>)
    ensures r.Some? <==> exists k :: 0 <= k < |statusMap| && statusMap[k].0 == code
    ensures r.Some? ==> exists k :: 0 <= k < |statusMap| && statusMap[k] == (code, r.value)
  {
    if statusMap == [] then None
    else if statusMap[0].0 == code then Some(statusMap[0].1)
    else
      var r := StatusLookup(statusMap[1..], code);
      assert r.Some? ==> statusMap[1..][0] == statusMap[1];
      r
  }

  predicate DistinctCodes(statusMap: seq<(int, string)>)
  {
    forall i, j :: 0 <= i < j < |statusMap| ==> statusMap[i].0 != statusMap[j].0
  }

  /** With distinct codes, every code of the map looks up its own label. */
  lemma {:induction false} StatusLookupFinds(statusMap: seq<(int, string)>, k: nat)
    requires DistinctCodes(statusMap) && k < |statusMap|
    ensures StatusLookup(statusMap, statusMap[k].0) == Some(statusMap[k].1)
  {
    if k > 0 {
      assert statusMap[0].0 != statusMap[k].0;
      assert statusMap[1..][k - 1] == statusMap[k];
      StatusLookupFinds(statusMap[1..], k - 1);
    }
  }

  /** A status sensor's value after a coordinator update: unknown codes and uncached registers show nothing. */
  function StatusSensorValue(data: map<int, Word>, address: nat, statusMap: seq<(int, string)>): (r: Option<string>)
    ensures r.Some? <==> address in data && exists k :: 0 <= k < |statusMap| && statusMap[k].0 == data[address]
    ensures r.Some? ==> (data[address], r.value) in statusMap
  {
    if address in data then StatusLookup(statusMap, data[address]) else None
  }

  /** The options of a status sensor: the map's labels in the map's order. */
  function Options(statusMap: seq<(int, string)>): (r: seq<string>)
    ensures |r| == |statusMap|
    ensures forall k :: 0 <= k < |r| ==> r[k] == statusMap[k].1
  {
    if statusMap == [] then [] else [statusMap[0].1] + Options(statusMap[1..])
  }

  /** Every label a status sensor can show is one of its options. */
  lemma StatusValueIsOption(data: map<int, Word>, address: nat, statusMap: seq<(int, string)>)
    ensures StatusSensorValue(data, address, statusMap).Some? ==>
              StatusSensorValue(data, address, statusMap).value in Options(statusMap)
  {
    var r := StatusSensorValue(data, address, statusMap);
    if r.Some? {
      var k :| 0 <= k < |statusMap| && statusMap[k] == (data[address], r.value);
      assert Options(statusMap)[k] == r.value;
    }
  }

  /**
   * A sensor with the default parameters shows the register as it is; a
   * temperature sensor reads two's complement at 0.1 °C.
   */
  lemma SensorDecodingExamples(raw: Word)
    requires raw != NotAvailable
    ensures CachedNumber(map[2805 := raw], 2805, Plain(1.0).Scale(), Plain(1.0).Signed()) == Some(Exact(raw))
    ensures CachedNumber(map[4200 := 0x8000], 4200, Temperature.Scale(), Temperature.Signed()) == Some(Scaled(-3276.8))
    ensures CachedNumber(map[4200 := 215], 4200, Temperature.Scale(), Temperature.Signed()) == Some(Scaled(21.5))
    ensures CachedNumber(map[4200 := NotAvailable], 4200, Temperature.Scale(), Temperature.Signed()) == None
    ensures CachedNumber(map[], 4200, Temperature.Scale(), Temperature.Signed()) == None
  {
  }

  /** The operating-mode map has distinct codes; code 1 is not in it and shows nothing. */
  lemma OperatingModesLookup(data: map<int, Word>)
    requires 4300 in data
    ensures DistinctCodes(OperatingModes)
    ensures data[4300] == 3 ==> StatusSensorValue(data, 4300, OperatingModes) == Some("Heating")
    ensures data[4300] == 1 || data[4300] > 5 ==> StatusSensorValue(data, 4300, OperatingModes) == None
  {
    if data[4300] == 3 {
      StatusLookupFinds(OperatingModes, 2);
    }
  }

  lemma HeatPumpSensorsInBlock()
    ensures forall k :: 0 <= k < |SensorsAt4200| ==> 4200 <= SensorsAt4200[k].address < 4279
  {
  }

  lemma OtherSensorsInBlocks()
    ensures forall k :: 0 <= k < |SensorsAt2800| ==> 2800 <= SensorsAt2800[k].address < 2807
    ensures forall k :: 0 <= k < |SensorsAt4300| ==> 4300 <= SensorsAt4300[k].address < 4319
    ensures forall k :: 0 <= k < |SensorsAt7000| ==> 7000 <= SensorsAt7000[k].address < 7006
  {
  }

  /** Every sensor reads a register inside a polled block. */
  lemma SensorsReadPolledRegisters()
    ensures forall k :: 0 <= k < |Sensors| ==> PolledAddress(Sensors[k].address)
  {
    HeatPumpSensorsInBlock();
    OtherSensorsInBlocks();
    var a, b, c, d := SensorsAt2800, SensorsAt4200, SensorsAt4300, SensorsAt7000;
    forall k | 0 <= k < |Sensors|
      ensures PolledAddress(Sensors[k].address)
    {
      if k < |a| {
        assert Sensors[k] == a[k];
      } else if k < |a| + |b| {
        assert Sensors[k] == b[k - |a|];
      } else if k < |a| + |b| + |c| {
        assert Sensors[k] == c[k - |a| - |b|];
      } else {
        assert Sensors[k] == d[k - |a| - |b| - |c|];
      }
    }
  }

  /** `ClivetSensorEntity` and `ClivetTemperatureSensorEntity`. */
  class NumericSensorEntity {
    const coordinator: ClivetCoordinator
    const address: nat
    const scale: real
    const signed: bool
    const uniqueId: string
    var nativeValue: Option<Number>

    constructor (address: nat, kind: SensorKind, coordinator: ClivetCoordinator)
      requires !kind.Status?
      ensures this.coordinator == coordinator && this.address == address
      ensures scale == kind.Scale() && signed == kind.Signed()
      ensures uniqueId == BaseUniqueId(coordinator.uniqueId, address) && nativeValue == None
    {
      this.coordinator := coordinator;
      this.address := address;
      scale := kind.Scale();
      signed := kind.Signed();
      uniqueId := BaseUniqueId(coordinator.uniqueId, address);
      nativeValue := None;
    }

    /** `_handle_coordinator_update`. */
    method HandleCoordinatorUpdate()
      modifies this
      ensures nativeValue == CachedNumber(coordinator.data, address, scale, signed)
    {
      var data := coordinator.data;
      if address in data {
        nativeValue := DecodeNumber(Some(data[address]), scale, signed);
      } else {
        nativeValue := None;
      }
    }
  }

  /** `ClivetStatusSensorEntity`. */
  class StatusSensorEntity {
    const coordinator: ClivetCoordinator
    const address: nat
    const statusMap: seq<(int, string)>
    const options: seq<string>
    const uniqueId: string
    var nativeValue: Option<string>

    constructor (address: nat, statusMap: seq<(int, string)>, coordinator: ClivetCoordinator)
      ensures this.coordinator == coordinator && this.address == address && this.statusMap == statusMap
      ensures options == Options(statusMap)
      ensures uniqueId == BaseUniqueId(coordinator.uniqueId, address) && nativeValue == None
    {
      this.coordinator := coordinator;
      this.address := address;
      this.statusMap := statusMap;
      options := Options(statusMap);
      uniqueId := BaseUniqueId(coordinator.uniqueId, address);
      nativeValue := None;
    }

    /** `_handle_coordinator_update`. */
    method HandleCoordinatorUpdate()
      modifies this
      ensures nativeValue == StatusSensorValue(coordinator.data, address, statusMap)
    {
      var data := coordinator.data;
      if address in data {
        nativeValue := StatusLookup(statusMap, data[address]);
      } else {
        nativeValue := None;
      }
    }
  }
}
