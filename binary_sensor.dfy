/**
 * The binary-sensor platform (custom_components/clivet/binary_sensor.py):
 * whole registers or single bits shown as on/off, the per-bit sensors a
 * status map expands into, and the "split" sensors that show one value of
 * a bit as "on".
 */
module BinarySensor {
  import opened Codec
  import opened Transport
  import opened Coordinator
  import opened Entity

  datatype DeviceClass = Cold | Heat | Running | Problem

  /** A value of a status map: a name, or a name with a device class. */
  datatype StatusEntry = Named(name: string) | Classified(name: string, deviceClass: DeviceClass)
  {
    function Class(): Option<DeviceClass>
    {
      if Classified? then Some(deviceClass) else None
    }
  }

  /**
   * The entity class a row instantiates: `ClivetBinarySensorEntity`
   * itself, or `ClivetStatusMapSensorEntity` (of which the split sensor
   * is a subclass).
   */
  datatype SensorKind = PlainSensor | StatusMapSensor

  /**
   * A binary sensor: the register, the bit it reads if any, the device
   * class the row passes, and for a split sensor the bit value it shows
   * as "on".
   */
  datatype BinarySensorSpec = BinarySensorSpec(
    kind: SensorKind, address: nat, bit: Option<nat>, name: string, device: ClivetDevice,
    deviceClass: Option<DeviceClass>, bitValue: Option<bool>)

  /**
   * The device class the entity ends up with. The status-map constructor
   * stores the class it is given and then calls the base constructor
   * without one, whose default `None` overwrites it; only a plain binary
   * sensor keeps the class it is given.
   */
  function ShownDeviceClass(spec: BinarySensorSpec): (r: Option<DeviceClass>)
    ensures spec.kind == StatusMapSensor ==> r == None
    ensures spec.kind == PlainSensor ==> r == spec.deviceClass
  {
    match spec.kind
    case PlainSensor => spec.deviceClass
    case StatusMapSensor => None
  }

  /**
   * `from_status_map`: one sensor per entry of the map, in the map's
   * order, reading the entry's key as its bit and named after the entry.
   */
  function FromStatusMap(address: nat, statusMap: seq<(nat, StatusEntry)>, device: ClivetDevice): (r: seq<BinarySensorSpec>)
    ensures |r| == |statusMap|
    ensures forall k :: 0 <= k < |r| ==>
              r[k] == BinarySensorSpec(StatusMapSensor, address, Some(statusMap[k].0), statusMap[k].1.name, device, statusMap[k].1.Class(), None)
  {
    if statusMap == [] then []
    else
      [BinarySensorSpec(StatusMapSensor, address, Some(statusMap[0].0), statusMap[0].1.name, device, statusMap[0].1.Class(), None)]
      + FromStatusMap(address, statusMap[1..], device)
  }

  /** The entity lists concatenated, each list in its own order. */
  function Flatten(lists: seq<seq<BinarySensorSpec>>): (r: seq<BinarySensorSpec>)
    ensures forall x :: x in r <==> exists i :: 0 <= i < |lists| && x in lists[i]
  {
    if lists == [] then [] else lists[0] + Flatten(lists[1..])
  }

  /** Flattening keeps the order of the lists. */
  lemma {:induction false} FlattenAppend(a: seq<seq<BinarySensorSpec>>, b: seq<seq<BinarySensorSpec>>)
    ensures Flatten(a + b) == Flatten(a) + Flatten(b)
  {
    if a == [] {
      assert a + b == b;
    } else {
      assert (a + b)[0] == a[0] && (a + b)[1..] == a[1..] + b;
      FlattenAppend(a[1..], b);
    }
  }

  /** The three sensors listed one by one: a whole register and the two facets of one bit. */
  const SingleSensors: seq<BinarySensorSpec> := [
    BinarySensorSpec(PlainSensor, 4222, None, "Boiler control / Auxiliary heater", HeatPump, None, None),
    BinarySensorSpec(StatusMapSensor, 4263, Some(1), "Cooling mode", HeatPump, Some(Cold), Some(false)),
    BinarySensorSpec(StatusMapSensor, 4263, Some(1), "Heating mode", HeatPump, Some(Heat), Some(true))
  ]

  const Status2801: seq<(nat, StatusEntry)> := [
    (3, Classified("Anti-legionella", Running))
  ]

  const Status2803: seq<(nat, StatusEntry)> := [
    (0, Named("Resistance")),
    (1, Classified("Pump", Running))
  ]

  const Status3000: seq<(nat, StatusEntry)> := [
    (0, Classified("Alarm: ALL_TIMEOUT_TAST_e00", Problem)),
    (1, Classified("Alarm: ERR_SONDA_IN_E01", Problem)),
    (2, Classified("Alarm: ERR_SONDA_OUT_E02", Problem)),
    (3, Classified("Alarm: ERR_SONDA_EXT_E03", Problem)),
    (4, Classified("Alarm: ERR_SONDA_BATTERIA_E04", Problem)),
    (8, Classified("Alarm: ERR_SONDA_PRESS1_E08", Problem)),
    (14, Classified("Alarm: ALL_HP1_CIRC1_F01", Problem)),
    (15, Classified("Alarm: ALL_LP1_CIRC1_F02", Problem))
  ]

  const Status3001: seq<(nat, StatusEntry)> := [
    (0, Classified("Alarm: ALL_TERMICA1_E26", Problem)),
    (4, Classified("Alarm: ALL_TERMICO_VENTIL_CIRC1_E23", Problem)),
    (15, Classified("Alarm: ALL_FLUSSO_POMPA_UT_I01", Problem))
  ]

  const Status3002: seq<(nat, StatusEntry)> := [
    (3, Classified("Alarm: ALL_GELO_UT_I03", Problem)),
    (6, Classified("Alarm: ALL_CARICO_I06", Problem)),
    (7, Classified("Alarm: ALL_DELTA_T_INC_I07", Problem)),
    (9, Classified("Alarm: PREALL_ANTIGELO_i09", Problem)),
    (11, Classified("Alarm: ALL_TIN_FUORI_NORM_i11", Problem)),
    (12, Classified("Alarm: SCAMB_INS_SEC/PRIM (LATO ACS)_i12", Problem)),
    (13, Classified("Alarm: ALL_GELO_AMBIENTE_I13", Problem)),
    (15, Classified("Alarm: ALL_TIMEOUT_POTENZA_e14", Problem))
  ]

  const Status3003: seq<(nat, StatusEntry)> := [
    (1, Classified("Alarm: ALL_MAX_TS_F10", Problem))
  ]

  const Status3004: seq<(nat, StatusEntry)> := [
    (0, Classified("Alarm: ERR_SONDA_SOLARE_E15", Problem)),
    (2, Classified("Alarm: ERR_SONDA_ACS_SUP_E16", Problem)),
    (6, Classified("Alarm: ERR_SONDA_SCARICO_E18", Problem)),
    (7, Classified("Alarm: ERR_SONDA_ASP_E19", Problem)),
    (14, Classified("Alarm: ALL_CARICO_ACS_I15", Problem))
  ]

  const Status3006: seq<(nat, StatusEntry)> := [
    (2, Classified("Alarm: ALLARME_INVERTER_E32", Problem)),
    (3, Classified("Alarm: ERR_SONDA_IN_SCA_ACS_IMP_Sol_E58", Problem)),
    (6, Classified("Alarm: ALL_CALDAIA_E46", Problem)),
    (7, Classified("Alarm: ALL_TIMEOUT_IO_E47", Problem)),
    (9, Classified("Alarm: ALL_HT_IMPIANTO (I22)", Problem)),
    (10, Classified("Alarm: ALL_OUT_ENVELOPE (F22)", Problem))
  ]

  const Status3007: seq<(nat, StatusEntry)> := [
    (0, Classified("Alarm: CONDENSER_OUTLET_HT_PROTECTION_E59", Problem)),
    (1, Classified("Alarm: ERR_ODU_POWER_SUPPLY_E60", Problem)),
    (2, Classified("Alarm: FAN_SPEED_IN_A_AREA_10MIN_F22", Problem)),
    (3, Classified("Alarm: ERR_ODU_EEPROM_E61", Problem)),
    (4, Classified("Alarm: ALL_FAN_E62", Problem)),
    (5, Classified("Alarm: LP_PROTECTION_F23", Problem)),
    (6, Classified("Alarm: DC_GEN_VOLT_TOO_LOW_E63", Problem))
  ]

  const Status4263: seq<(nat, StatusEntry)> := [
    (0, Named("Status")),
    (3, Named("Only boiler")),
    (4, Named("Only DHW")),
    (5, Named("Defrosting")),
    (6, Named("Cycle reverse")),
    (7, Classified("Any alarm", Problem)),
    (8, Named("DHW valve")),
    (10, Named("Boiler / additional heating element")),
    (11, Named("Oil return"))
  ]

  const Status4264: seq<(nat, StatusEntry)> := [
    (4, Named("Production (HP)")),
    (5, Named("Production (boiler)")),
    (7, Named("In anti-legionella")),
    (8, Named("Pump status"))
  ]

  const Status4314: seq<(nat, StatusEntry)> := [
    (0, Named("Status")),
    (1, Named("Defrosting")),
    (3, Named("Oil return")),
    (5, Named("Test mode"))
  ]

  /** The status maps the platform expands, in order, each with its register and device. */
  const StatusMapRows: seq<(nat, seq<(nat, StatusEntry)>, ClivetDevice)> := [
      (2801, Status2801, Dhw),
      (2803, Status2803, Dhw),
      (3000, Status3000, HeatPump),
      (3001, Status3001, HeatPump),
      (3002, Status3002, HeatPump),
      (3003, Status3003, HeatPump),
      (3004, Status3004, HeatPump),
      (3006, Status3006, HeatPump),
      (3007, Status3007, HeatPump),
      (4263, Status4263, HeatPump),
      (4264, Status4264, Dhw),
      (4314, Status4314, Compressor)
  ]

  /** One list of sensors per status-map row, in order. */
  function StatusLists(rows: seq<(nat, seq<(nat, StatusEntry)>, ClivetDevice)>): (r: seq<seq<BinarySensorSpec>>)
    ensures |r| == |rows|
    ensures forall i :: 0 <= i < |r| ==> r[i] == FromStatusMap(rows[i].0, rows[i].1, rows[i].2)
  {
    if rows == [] then [] else [FromStatusMap(rows[0].0, rows[0].1, rows[0].2)] + StatusLists(rows[1..])
  }

  /** The sensor lists the platform sets up, in order: the three single sensors, then the status maps. */
  const BinarySensorLists: seq<seq<BinarySensorSpec>> := [SingleSensors] + StatusLists(StatusMapRows)

  /** Every entity the platform adds, in order. */
  const BinarySensors: seq<BinarySensorSpec> := Flatten(BinarySensorLists)

  /** No sensor of the list shows a device class. */
  predicate NoneShown(sensors: seq<BinarySensorSpec>)
  {
    forall s :: s in sensors ==> ShownDeviceClass(s) == None
  }

  lemma FromStatusMapNoneShown(address: nat, statusMap: seq<(nat, StatusEntry)>, device: ClivetDevice)
    ensures NoneShown(FromStatusMap(address, statusMap, device))
  {
    var r := FromStatusMap(address, statusMap, device);
    forall s | s in r
      ensures ShownDeviceClass(s) == None
    {
      var k :| 0 <= k < |r| && r[k] == s;
    }
  }

  lemma {:induction false} FlattenNoneShown(lists: seq<seq<BinarySensorSpec>>)
    requires forall i :: 0 <= i < |lists| ==> NoneShown(lists[i])
    ensures NoneShown(Flatten(lists))
  {
    if lists != [] {
      FlattenNoneShown(lists[1..]);
    }
  }

  /**
   * No binary sensor the platform adds shows a device class: the
   * status-map and split sensors lose theirs in the constructor chain
   * (so "Cooling mode" is given `COLD` and shows none), and the one plain
   * sensor is given none.
   */
  lemma NoBinarySensorShowsDeviceClass()
    ensures SingleSensors[1].name == "Cooling mode" && SingleSensors[1].deviceClass == Some(Cold)
    ensures forall s :: s in BinarySensors ==> ShownDeviceClass(s) == None
  {
    assert NoneShown(SingleSensors);
    StatusListsNoneShown(SingleSensors, StatusMapRows);
  }

  /** A first list with no classes, followed by status-map lists, flattens to sensors with no classes. */
  lemma StatusListsNoneShown(first: seq<BinarySensorSpec>, rows: seq<(nat, seq<(nat, StatusEntry)>, ClivetDevice)>)
    requires NoneShown(first)
    ensures NoneShown(Flatten([first] + StatusLists(rows)))
  {
    var lists := [first] + StatusLists(rows);
    forall i | 0 <= i < |lists|
      ensures NoneShown(lists[i])
    {
      if i > 0 {
        FromStatusMapNoneShown(rows[i - 1].0, rows[i - 1].1, rows[i - 1].2);
      }
    }
    FlattenNoneShown(lists);
  }

  /** The decoded value: the bit, or the whole register being non-zero; a split sensor compares the bit with its value. */
  function DecodeValue(raw: Word, bit: Option<nat>, bitValue: Option<bool>): (on: bool)
    ensures bit.Some? && bitValue.None? ==> (on <==> Bit(raw, bit.value))
    ensures bit.None? && bitValue.None? ==> (on <==> raw != 0)
    ensures bit.Some? && bitValue.Some? ==> (on <==> Bit(raw, bit.value) == bitValue.value)
  {
    var decoded := DecodeBool(Some(raw), bit, false).value;
    if bitValue.Some? then decoded == bitValue.value else decoded
  }

  /** `is_on` after a coordinator update: unknown when the address is not in the map. */
  function BinarySensorState(data: map<int, Word>, address: nat, bit: Option<nat>, bitValue: Option<bool>): (r: Option<bool>)
    ensures r.Some? <==> address in data
    ensures address in data ==> r == Some(DecodeValue(data[address], bit, bitValue))
  {
    if address in data then Some(DecodeValue(data[address], bit, bitValue)) else None
  }

  /** The unique id: the boolean entity's id, and for a split sensor "_0" or "_1" after it. */
  function SensorUniqueId(coordinatorId: string, address: nat, bit: Option<nat>, bitValue: Option<bool>): string
  {
    BooleanUniqueId(coordinatorId, address, bit, false)
      + (if bitValue.None? then "" else if bitValue.value then "_1" else "_0")
  }

  /** The two facets of one split bit have different unique ids. */
  lemma SplitUniqueIdsDiffer(coordinatorId: string, address: nat, bit: nat)
    ensures SensorUniqueId(coordinatorId, address, Some(bit), Some(false))
              != SensorUniqueId(coordinatorId, address, Some(bit), Some(true))
  {
    var id0 := SensorUniqueId(coordinatorId, address, Some(bit), Some(false));
    var id1 := SensorUniqueId(coordinatorId, address, Some(bit), Some(true));
    assert id0[|id0| - 1] == '0' && id1[|id1| - 1] == '1';
  }

  predicate DistinctBits(statusMap: seq<(nat, StatusEntry)>)
  {
    forall i, j :: 0 <= i < j < |statusMap| ==> statusMap[i].0 != statusMap[j].0
  }

  lemma PlainSensorUniqueId(coordinatorId: string, address: nat, bit: Option<nat>)
    ensures SensorUniqueId(coordinatorId, address, bit, None) == BooleanUniqueId(coordinatorId, address, bit, false)
  {
    assert BooleanUniqueId(coordinatorId, address, bit, false) + "" == BooleanUniqueId(coordinatorId, address, bit, false);
  }

  /** The sensors a status map with distinct keys expands into have pairwise distinct unique ids. */
  lemma FromStatusMapIdsDistinct(coordinatorId: string, address: nat, statusMap: seq<(nat, StatusEntry)>, device: ClivetDevice)
    requires DistinctBits(statusMap)
    ensures var r := FromStatusMap(address, statusMap, device);
            forall i, j :: 0 <= i < j < |r| ==>
              SensorUniqueId(coordinatorId, r[i].address, r[i].bit, r[i].bitValue)
                != SensorUniqueId(coordinatorId, r[j].address, r[j].bit, r[j].bitValue)
  {
    var r := FromStatusMap(address, statusMap, device);
    forall i, j | 0 <= i < j < |r|
      ensures SensorUniqueId(coordinatorId, r[i].address, r[i].bit, r[i].bitValue)
                != SensorUniqueId(coordinatorId, r[j].address, r[j].bit, r[j].bitValue)
    {
      var bi, bj := Some(statusMap[i].0), Some(statusMap[j].0);
      assert r[i].address == address && r[i].bit == bi && r[i].bitValue == None;
      assert r[j].address == address && r[j].bit == bj && r[j].bitValue == None;
      PlainSensorUniqueId(coordinatorId, address, bi);
      PlainSensorUniqueId(coordinatorId, address, bj);
      if BooleanUniqueId(coordinatorId, address, bi, false) == BooleanUniqueId(coordinatorId, address, bj, false) {
        BooleanUniqueIdInjective(coordinatorId, address, bi, false, address, bj, false);
      }
    }
  }

  /** Keys listed in increasing order, as the status maps list their bits. */
  predicate IncreasingBits(statusMap: seq<(nat, StatusEntry)>)
  {
    forall i :: 0 <= i < |statusMap| - 1 ==> statusMap[i].0 < statusMap[i + 1].0
  }

  lemma {:induction false} IncreasingBitsOrdered(statusMap: seq<(nat, StatusEntry)>, i: int, j: int)
    requires IncreasingBits(statusMap) && 0 <= i < j < |statusMap|
    ensures statusMap[i].0 < statusMap[j].0
    decreases j - i
  {
    if j > i + 1 {
      IncreasingBitsOrdered(statusMap, i, j - 1);
    }
  }

  /** A map whose keys increase has no key twice. */
  lemma IncreasingBitsDistinct(statusMap: seq<(nat, StatusEntry)>)
    requires IncreasingBits(statusMap)
    ensures DistinctBits(statusMap)
  {
    forall i, j | 0 <= i < j < |statusMap|
      ensures statusMap[i].0 != statusMap[j].0
    {
      IncreasingBitsOrdered(statusMap, i, j);
    }
  }

  /** The DHW and unit status maps (2801, 2803, 3000, 3001) list no bit twice. */
  lemma DhwAndUnitStatusBitsDistinct()
    ensures DistinctBits(Status2801) && DistinctBits(Status2803)
    ensures DistinctBits(Status3000) && DistinctBits(Status3001)
  {
    IncreasingBitsDistinct(Status2801);
    IncreasingBitsDistinct(Status2803);
    IncreasingBitsDistinct(Status3000);
    IncreasingBitsDistinct(Status3001);
  }

  /** The alarm maps (3002, 3003, 3004, 3006) list no bit twice. */
  lemma AlarmStatusBitsDistinct()
    ensures DistinctBits(Status3002) && DistinctBits(Status3003)
    ensures DistinctBits(Status3004) && DistinctBits(Status3006)
  {
    IncreasingBitsDistinct(Status3002);
    IncreasingBitsDistinct(Status3003);
    IncreasingBitsDistinct(Status3004);
    IncreasingBitsDistinct(Status3006);
  }

  /** The remaining maps (3007, 4263, 4264, 4314) list no bit twice. */
  lemma SystemStatusBitsDistinct()
    ensures DistinctBits(Status3007) && DistinctBits(Status4263)
    ensures DistinctBits(Status4264) && DistinctBits(Status4314)
  {
    IncreasingBitsDistinct(Status3007);
    IncreasingBitsDistinct(Status4263);
    IncreasingBitsDistinct(Status4264);
    IncreasingBitsDistinct(Status4314);
  }

  /**
   * For any known value of register 4263, exactly one of "Cooling mode"
   * and "Heating mode" is on.
   */
  lemma CoolingHeatingExclusive(data: map<int, Word>)
    requires 4263 in data
    ensures var c, h := SingleSensors[1], SingleSensors[2];
            && c.name == "Cooling mode" && h.name == "Heating mode"
            && c.address == h.address == 4263 && c.bit == h.bit
            && BinarySensorState(data, c.address, c.bit, c.bitValue).value
                 == !BinarySensorState(data, h.address, h.bit, h.bitValue).value
  {
  }

  /**
   * After any completed polling cycle, the sensors a status map expands
   * into for a register outside every polled block show no state.
   */
  lemma UnpolledSensorsUnknown(dev: Device, link: Link, address: nat, statusMap: seq<(nat, StatusEntry)>, device: ClivetDevice)
    requires !PolledAddress(address)
    ensures var (res, _) := UpdateOutcome(dev, link);
            res.Polled? ==>
              forall b :: b in FromStatusMap(address, statusMap, device) ==>
                BinarySensorState(res.data, b.address, b.bit, b.bitValue) == None
  {
    UpdateDataContents(dev, link);
  }

  /**
   * The alarm maps of registers 3006 and 3007 hold thirteen sensors, and
   * neither register lies in a polled block.
   */
  lemma AlarmSensorsOutsidePolledBlocks()
    ensures |Status3006| + |Status3007| == 13
    ensures !PolledAddress(3006) && !PolledAddress(3007)
  {
  }

  class BinarySensorEntity {
    const coordinator: ClivetCoordinator
    const address: nat
    const bit: Option<nat>
    const bitValue: Option<bool>
    const name: string
    const deviceClass: Option<DeviceClass>
    const uniqueId: string
    var isOn: Option<bool>

    constructor (spec: BinarySensorSpec, coordinator: ClivetCoordinator)
      ensures this.coordinator == coordinator && address == spec.address && bit == spec.bit
      ensures bitValue == spec.bitValue && name == spec.name
      ensures deviceClass == ShownDeviceClass(spec)
      ensures uniqueId == SensorUniqueId(coordinator.uniqueId, spec.address, spec.bit, spec.bitValue)
      ensures isOn == None
    {
      this.coordinator := coordinator;
      address := spec.address;
      bit := spec.bit;
      bitValue := spec.bitValue;
      name := spec.name;
      deviceClass := ShownDeviceClass(spec);
      uniqueId := SensorUniqueId(coordinator.uniqueId, spec.address, spec.bit, spec.bitValue);
      isOn := None;
    }

    /** `_handle_coordinator_update`. */
    method HandleCoordinatorUpdate()
      modifies this
      ensures isOn == BinarySensorState(coordinator.data, address, bit, bitValue)
    {
      var data := coordinator.data;
      if address in data {
        isOn := Some(DecodeValue(data[address], bit, bitValue));
      } else {
        isOn := None;
      }
    }
  }
}
