/**
 * The domestic-hot-water heater (custom_components/clivet/water_heater.py).
 * Its state is read from six holding registers:
 *   2700  DHW status word: bit 0 heater on, bit 2 storage mode,
 *         bit 5 resistance only, bit 6 boost mode (bit 7 picks the
 *         setpoint a new target is written to);
 *   2701  storage setpoint, 2707 boost setpoint, 2702 sanitary band,
 *   2800  DHW temperature, all tenths of a degree, unsigned;
 *   4264  system status word: bit 0 unit on;
 * and an operation mode is set by rewriting 2700 and the remote-control
 * enable word 2709.
 */
module WaterHeater {
  import opened Codec
  import opened Errors
  import opened Transport
  import opened Coordinator
  import opened Entity

  /** The five operation states Home Assistant offers for a water heater. */
  datatype Operation = StateOff | StateHeatPump | StateElectric | StatePerformance | StateEco
  {
    /** The state's name as Home Assistant spells it. */
    function Name(): string
    {
      match this
      case StateOff => "off"
      case StateHeatPump => "heat_pump"
      case StateElectric => "electric"
      case StatePerformance => "performance"
      case StateEco => "eco"
    }
  }

  /** The operation list the entity offers, in order. */
  const OperationList: seq<Operation> := [StateOff, StateHeatPump, StateElectric, StatePerformance, StateEco]

  /** The operation a mode name selects, if any. */
  function ParseOperation(name: string): (r: Option<Operation>)
    ensures r.Some? ==> r.value.Name() == name
  {
    if name == "off" then Some(StateOff)
    else if name == "heat_pump" then Some(StateHeatPump)
    else if name == "electric" then Some(StateElectric)
    else if name == "performance" then Some(StatePerformance)
    else if name == "eco" then Some(StateEco)
    else None
  }

  /** Every offered operation is recognised by its own name, and by no other. */
  lemma ParseOperationNames(op: Operation, name: string)
    ensures ParseOperation(op.Name()) == Some(op)
    ensures ParseOperation(name) == Some(op) <==> name == op.Name()
  {
  }

  /** `coordinator.data.get(address)`. */
  function Get(data: map<int, Word>, address: int): (r: Option<nat>)
    ensures r.Some? <==> address in data
    ensures r.Some? ==> r.value == data[address]
  {
    if address in data then Some(data[address] as nat) else None
  }

  /** Python truth of a decoded bit: unknown counts as false. */
  predicate Truth(b: Option<bool>)
  {
    b == Some(true)
  }

  /** `decode_numeric_value(data.get(address))` at scale 0.1, unsigned, in degrees. */
  function Celsius(data: map<int, Word>, address: int): (r: Option<real>)
    ensures r.Some? <==> address in data && data[address] != NotAvailable
    ensures r.Some? ==> r.value == data[address] as real * 0.1 && r.value >= 0.0
  {
    match CachedNumber(data, address, 0.1, false)
    case None => None
    case Some(n) => Some(n.AsReal())
  }

  /** Python truth of a temperature: unknown and zero count as false. */
  predicate Truthy(t: Option<real>)
  {
    t.Some? && t.value != 0.0
  }

  /** The sanitary band, `or 0.0`: unknown counts as no band. */
  function SanitaryBand(data: map<int, Word>): (r: real)
    ensures r >= 0.0
    ensures r == 0.0 <==> !Truthy(Celsius(data, 2702))
  {
    var band := Celsius(data, 2702);
    if Truthy(band) then band.value else 0.0
  }

  /** The low end of the target range: the target less the band, shown only for a non-zero target. */
  function LowEnd(target: Option<real>, band: real): (r: Option<real>)
    ensures r.Some? <==> Truthy(target)
  {
    if Truthy(target) then Some(target.value - band) else None
  }

  /**
   * The combinations the display treats as impossible: boost without
   * storage mode, or a missing DHW temperature, system status or DHW
   * status.
   */
  predicate Anomalous(data: map<int, Word>)
  {
    || 2700 !in data || 4264 !in data || 2800 !in data || data[2800] == NotAvailable
    || (!Bit(data[2700], 2) && Bit(data[2700], 6))
  }

  /** The operation shown for a system status word and a DHW status word. */
  function OperationOf(system: nat, dhw: nat): Operation
  {
    if !Bit(system, 0) then StateOff
    else if Bit(dhw, 5) then StateElectric
    else if Bit(dhw, 6) then StatePerformance
    else if Bit(dhw, 2) then StateHeatPump
    else StateEco
  }

  /** What the entity shows after a coordinator update. */
  datatype HeaterView = HeaterView(
    operation: Option<Operation>,
    target: Option<real>,
    low: Option<real>,
    high: Option<real>,
    maxTemp: real,
    current: Option<real>)

  /** `_handle_coordinator_update`, as a function of the register map. */
  function View(data: map<int, Word>): (v: HeaterView)
    ensures v.current == Celsius(data, 2800)
    ensures v.operation.None? <==> Anomalous(data)
    ensures v.operation.None? ==> v.target.None? && v.low.None? && v.high.None? && v.maxTemp == 55.0
  {
    var current := Celsius(data, 2800);
    if Anomalous(data) then HeaterView(None, None, None, None, 55.0, current)
    else
      var boost := Bit(data[2700], 6);
      var target := if boost then Celsius(data, 2707) else Celsius(data, 2701);
      HeaterView(Some(OperationOf(data[4264], data[2700])), target, LowEnd(target, SanitaryBand(data)), target,
                 if boost then 65.0 else 55.0, current)
  }

  /**
   * The heater is available exactly when the DHW temperature, the system
   * status and the DHW status are known and boost mode is not shown
   * without storage mode.
   */
  lemma AvailableIff(data: map<int, Word>)
    ensures View(data).operation.Some? <==>
              && 2700 in data && 4264 in data
              && 2800 in data && data[2800] != NotAvailable
              && (Bit(data[2700], 6) ==> Bit(data[2700], 2))
  {
  }

  /**
   * The target range: the high end is the target, the low end is the
   * target less the sanitary band and so never above it, and it is shown
   * only for a non-zero target.
   */
  lemma TargetRange(data: map<int, Word>)
    ensures var v := View(data);
            && v.high == v.target
            && (v.low.Some? <==> Truthy(v.target))
            && (v.low.Some? ==> v.low.value == v.target.value - SanitaryBand(data) && v.low.value <= v.target.value)
  {
  }

  /**
   * The shown setpoint follows the mode: in performance (boost) mode it is
   * the boost setpoint 2707 with a maximum of 65 °C, in heat-pump and eco
   * mode the storage setpoint 2701 with a maximum of 55 °C.
   */
  lemma SetpointFollowsMode(data: map<int, Word>)
    ensures var v := View(data);
            && (v.operation == Some(StatePerformance) ==> v.target == Celsius(data, 2707) && v.maxTemp == 65.0)
            && (v.operation in {Some(StateHeatPump), Some(StateEco)} ==> v.target == Celsius(data, 2701) && v.maxTemp == 55.0)
            && (v.operation.Some? ==> (v.maxTemp == 65.0 <==> Bit(data[2700], 6)))
  {
  }

  /** The heater shows "off" exactly when bit 0 of the system status is clear. */
  lemma OffIffSystemOff(data: map<int, Word>)
    requires !Anomalous(data)
    ensures View(data).operation == Some(StateOff) <==> !Bit(data[4264], 0)
  {
  }

  // ---------------------------------------------------------------------
  // Turning on and off
  // ---------------------------------------------------------------------

  /** `async_turn_on` (`on`) and `async_turn_off`: bit 0 of 2700, a CommunicationException reported as a HomeAssistantError. */
  function PowerWrite(dev: Device, s: CoordState, on: bool): (Status, CoordState)
  {
    var (st, s2) := BitWrite(dev, s, 2700, 0, on);
    (ActionStatus(st), s2)
  }

  /**
   * Turning the heater on or off: when bit 0 of the word read already has
   * the requested value nothing is written and the call ends normally;
   * otherwise exactly one word is written to 2700, equal to the word read
   * except that bit 0 is the requested value.
   */
  lemma PowerWriteEffect(dev: Device, s: CoordState, on: bool)
    ensures s.link.log <= PowerWrite(dev, s, on).1.link.log
    ensures var (st, s2) := PowerWrite(dev, s, on);
            var evs := NewEvents(s.link, s2.link);
            var p := ConnectPrefix(s.link);
            var w := if |p| < |evs| then FirstWord(evs[|p|]) else None;
            && st != Raised(CommunicationFailure)
            && (w.Some? && Bit(w.value, 0) == on ==>
                  st == Ok && |evs| == |p| + 1 && s2.data == s.data)
            && (w.Some? && Bit(w.value, 0) != on ==>
                  var v := SetBit(w.value, 0, on);
                  && |p| + 1 < |evs| && IsWriteOf(evs[|p| + 1], 2700, v)
                  && Bit(v, 0) == on
                  && forall c: nat :: c != 0 ==> Bit(v, c) == Bit(w.value, c))
  {
    BitWriteReadsFirst(dev, s, 2700, 0, on);
    BitWriteSkips(dev, s, 2700, 0, on);
    BitWriteWritesOnce(dev, s, 2700, 0, on);
  }

  // ---------------------------------------------------------------------
  // Setting the target temperature
  // ---------------------------------------------------------------------

  /** The setpoint a new target goes to: 2707 when bit 7 of the cached 2700 is set, else 2701. */
  function SetpointAddress(data: map<int, Word>): (r: int)
    ensures r in {2701, 2707}
    ensures r == 2707 <==> 2700 in data && Bit(data[2700], 7)
  {
    if Truth(DecodeBool(Get(data, 2700), Some(7), false)) then 2707 else 2701
  }

  /** `async_set_temperature`: no temperature, no action; otherwise one register write of the encoded value. */
  function TemperatureWrite(dev: Device, s: CoordState, temperature: Option<real>): (Status, CoordState)
  {
    if temperature.None? then (Ok, s)
    else
      var (st, s2) := RegisterWrite(dev, s, SetpointAddress(s.data), EncodeNumber(temperature.value, 0.1, false));
      (ActionStatus(st), s2)
  }

  /**
   * Setting a target temperature: without one nothing happens; otherwise
   * exactly one write is sent, to the setpoint `SetpointAddress` picks, of
   * the temperature in tenths truncated toward zero; a non-negative
   * temperature is encoded as the largest number of tenths not above it.
   */
  lemma TemperatureWriteEffect(dev: Device, s: CoordState, temperature: Option<real>)
    ensures temperature.None? ==> TemperatureWrite(dev, s, temperature) == (Ok, s)
    ensures s.link.log <= TemperatureWrite(dev, s, temperature).1.link.log
    ensures temperature.Some? ==>
              var (st, s2) := TemperatureWrite(dev, s, temperature);
              var ws := WritesOf(NewEvents(s.link, s2.link));
              var e := EncodeNumber(temperature.value, 0.1, false);
              && e == Trunc(temperature.value / 0.1)
              && (temperature.value >= 0.0 ==> e as real * 0.1 <= temperature.value < (e + 1) as real * 0.1)
              && st in {Ok, Raised(Offline), Raised(HomeAssistantError)}
              && (st == Raised(Offline) <==> ws == [])
              && (st != Raised(Offline) ==> |ws| == 1 && IsWriteOf(ws[0], SetpointAddress(s.data), e))
  {
    if temperature.Some? {
      var t := temperature.value;
      EncodeRange(t, 0.1, false);
      if t >= 0.0 {
        EncodeTruncates(t, 0.1, false);
      }
      RegisterWriteWritesOf(dev, s, SetpointAddress(s.data), EncodeNumber(t, 0.1, false));
      RegisterWriteRaises(dev, s, SetpointAddress(s.data), EncodeNumber(t, 0.1, false));
    }
  }

  /**
   * A target temperature encodes to a 16-bit register word exactly when it
   * lies strictly between -0.1 and 6553.6 (truncation toward zero maps a
   * value just below 0 to 0); a target such as -5.0 is sent as the
   * negative integer -50.
   */
  lemma SetpointEncodingFitsWord(t: real)
    ensures 0 <= EncodeNumber(t, 0.1, false) < 0x1_0000 <==> -0.1 < t < 6553.6
    ensures EncodeNumber(-5.0, 0.1, false) == -50
  {
    assert t / 0.1 == 10.0 * t;
    assert -5.0 / 0.1 == -50.0;
  }

  /**
   * When bits 6 and 7 of 2700 agree, a new target goes to the setpoint the
   * display shows it from.
   */
  lemma SetpointAddressAgrees(data: map<int, Word>)
    requires !Anomalous(data) && Bit(data[2700], 7) == Bit(data[2700], 6)
    ensures View(data).target == Celsius(data, SetpointAddress(data))
  {
  }

  /**
   * The write and the display use different bits: with 2700 = 0x45 (on,
   * storage and boost set, bit 7 clear) the heater shows the boost
   * setpoint 2707 as its target, but a new target is written to the
   * storage setpoint 2701.
   */
  lemma SetpointAddressMismatch()
    ensures var data := map[2700 := 0x45, 4264 := 1, 2800 := 450, 2701 := 500, 2707 := 600];
            && View(data).operation == Some(StatePerformance)
            && View(data).target == Celsius(data, 2707) == Some(60.0)
            && SetpointAddress(data) == 2701
  {
    var data := map[2700 := 0x45, 4264 := 1, 2800 := 450, 2701 := 500, 2707 := 600];
    assert Bit(0x45, 0) && Bit(0x45, 2) && !Bit(0x45, 5) && Bit(0x45, 6) && !Bit(0x45, 7);
    assert Bit(1, 0);
  }

  // ---------------------------------------------------------------------
  // Setting the operation mode
  // ---------------------------------------------------------------------

  /** The bits of 2700 each operation mode writes, in the order the source lists them. */
  function ModeBits(op: Operation): seq<(nat, bool)>
    requires op != StateOff
  {
    match op
    case StateElectric => [(0, true), (2, true), (5, true), (6, false)]
    case StateHeatPump => [(0, true), (2, true), (5, false), (6, false)]
    case StatePerformance => [(0, true), (2, true), (5, false), (6, true)]
    case StateEco => [(0, true), (2, false), (5, false), (6, false)]
  }

  /** The bits of 2709 every mode change writes: remote control of bits 0 to 2 on, bit 3 off. */
  const RemoteControlBits: seq<(nat, bool)> := [(0, true), (1, true), (2, true), (3, false)]

  /** `async_set_operation_mode(mode)`. */
  function ModeWrite(dev: Device, s: CoordState, mode: string): (Status, CoordState)
  {
    if mode == "off" then PowerWrite(dev, s, false)
    else if 2700 !in s.data || 2709 !in s.data then (Raised(HomeAssistantError), s)
    else match ParseOperation(mode)
      case None => (Raised(HomeAssistantError), s)
      case Some(op) =>
        var (st1, s1) := RegisterWrite(dev, s, 2700, ApplyBits(s.data[2700], ModeBits(op)));
        if st1 != Ok then (ActionStatus(st1), s1)
        else
          var (st2, s2) := RegisterWrite(dev, s1, 2709, ApplyBits(s.data[2709], RemoteControlBits));
          (ActionStatus(st2), s2)
  }

  /**
   * The new DHW status word of a mode: bit 0 set, bit 2 set except in eco
   * mode, bit 5 set exactly in electric mode, bit 6 exactly in
   * performance mode, every other bit as before, still a 16-bit word.
   */
  lemma ModeWord(x: Word, op: Operation)
    requires op != StateOff
    ensures var w := ApplyBits(x, ModeBits(op));
            && w < 0x1_0000
            && Bit(w, 0)
            && Bit(w, 2) == (op != StateEco)
            && Bit(w, 5) == (op == StateElectric)
            && Bit(w, 6) == (op == StatePerformance)
            && forall c: nat :: c != 0 && c != 2 && c != 5 && c != 6 ==> Bit(w, c) == Bit(x, c)
  {
    var bits := ModeBits(op);
    ApplyBitsEffect(x, bits);
    ApplyBitsKeepsWord(x, bits);
    assert bits[0].0 == 0 && bits[1].0 == 2 && bits[2].0 == 5 && bits[3].0 == 6;
    forall c: nat | c != 0 && c != 2 && c != 5 && c != 6
      ensures !Listed(bits, c)
    {
    }
  }

  /** The new remote-control word: bits 0 to 2 set, bit 3 clear, every other bit as before. */
  lemma RemoteControlWord(x: Word)
    ensures var w := ApplyBits(x, RemoteControlBits);
            && w < 0x1_0000
            && Bit(w, 0) && Bit(w, 1) && Bit(w, 2) && !Bit(w, 3)
            && forall c: nat :: c > 3 ==> Bit(w, c) == Bit(x, c)
  {
    var bits := RemoteControlBits;
    ApplyBitsEffect(x, bits);
    ApplyBitsKeepsWord(x, bits);
    assert bits[0].0 == 0 && bits[1].0 == 1 && bits[2].0 == 2 && bits[3].0 == 3;
    forall c: nat | c > 3
      ensures !Listed(bits, c)
    {
    }
  }

  /**
   * The mode round trip: once the unit is on, the word written for a mode
   * is shown as that very mode, and never as the impossible boost-without-
   * storage combination.
   */
  lemma ModeShownAfterWrite(data: map<int, Word>, op: Operation)
    requires op != StateOff && 2700 in data && 4264 in data && Bit(data[4264], 0)
    requires 2800 in data && data[2800] != NotAvailable
    ensures ApplyBits(data[2700], ModeBits(op)) < 0x1_0000
    ensures var w := ApplyBits(data[2700], ModeBits(op));
            var after := data[2700 := w];
            !Anomalous(after) && View(after).operation == Some(op)
  {
    ModeWord(data[2700], op);
  }

  /**
   * Setting a mode: "off" is turning off. Otherwise, without a cached 2700
   * and 2709, or for a mode the heater does not offer, a HomeAssistantError
   * is raised before any exchange. Otherwise the new 2700 word is written
   * first, and the new 2709 word second, only when the first write ended
   * normally; an offline client writes nothing, and a call that ends
   * normally has sent both.
   */
  lemma ModeWriteOrder(dev: Device, s: CoordState, mode: string)
    ensures mode == "off" ==> ModeWrite(dev, s, mode) == PowerWrite(dev, s, false)
    ensures mode != "off" && (2700 !in s.data || 2709 !in s.data || ParseOperation(mode).None?) ==>
              ModeWrite(dev, s, mode) == (Raised(HomeAssistantError), s)
    ensures s.link.log <= ModeWrite(dev, s, mode).1.link.log
    ensures mode != "off" && 2700 in s.data && 2709 in s.data && ParseOperation(mode).Some? ==>
              var op := ParseOperation(mode).value;
              var (st, s2) := ModeWrite(dev, s, mode);
              var ws := WritesOf(NewEvents(s.link, s2.link));
              && op != StateOff
              && |ws| <= 2
              && st in {Ok, Raised(Offline), Raised(HomeAssistantError)}
              && (st == Raised(Offline) <==> ws == [])
              && (ws != [] ==> IsWriteOf(ws[0], 2700, ApplyBits(s.data[2700], ModeBits(op))))
              && (|ws| == 2 ==> IsWriteOf(ws[1], 2709, ApplyBits(s.data[2709], RemoteControlBits)))
              && (st == Ok ==> |ws| == 2)
  {
    if mode != "off" && 2700 in s.data && 2709 in s.data && ParseOperation(mode).Some? {
      var op := ParseOperation(mode).value;
      var v1 := ApplyBits(s.data[2700], ModeBits(op));
      var v2 := ApplyBits(s.data[2709], RemoteControlBits);
      var (st1, s1) := RegisterWrite(dev, s, 2700, v1);
      RegisterWriteWritesOf(dev, s, 2700, v1);
      RegisterWriteRaises(dev, s, 2700, v1);
      var ws1 := WritesOf(NewEvents(s.link, s1.link));
      if st1 == Ok {
        var (st2, s2) := RegisterWrite(dev, s1, 2709, v2);
        RegisterWriteWritesOf(dev, s1, 2709, v2);
        RegisterWriteRaises(dev, s1, 2709, v2);
        NewEventsChain(s.link, s1.link, s2.link);
        WritesOfAppend(NewEvents(s.link, s1.link), NewEvents(s1.link, s2.link));
        var ws := WritesOf(NewEvents(s.link, s2.link));
        assert ws == ws1 + WritesOf(NewEvents(s1.link, s2.link));
      }
    }
  }

  /** The water heater entity: the coordinator it reads and the attributes it shows. */
  class WaterHeaterEntity {
    const coordinator: ClivetCoordinator
    const name: string
    const uniqueId: string
    const minTemp: real
    const targetTemperatureStep: real
    const operationList: seq<Operation>
    var currentOperation: Option<Operation>
    var targetTemperature: Option<real>
    var targetTemperatureLow: Option<real>
    var targetTemperatureHigh: Option<real>
    var maxTemp: real
    var currentTemperature: Option<real>

    constructor (coordinator: ClivetCoordinator)
      ensures this.coordinator == coordinator && name == "Water Heater"
      ensures uniqueId == BaseUniqueId(coordinator.uniqueId, 0)
      ensures minTemp == 40.0 && targetTemperatureStep == 0.1 && operationList == OperationList
      ensures currentOperation.None? && !Available()
    {
      this.coordinator := coordinator;
      name := "Water Heater";
      uniqueId := BaseUniqueId(coordinator.uniqueId, 0);
      minTemp := 40.0;
      targetTemperatureStep := 0.1;
      operationList := OperationList;
      currentOperation := None;
      targetTemperature := None;
      targetTemperatureLow := None;
      targetTemperatureHigh := None;
      maxTemp := 55.0;
      currentTemperature := None;
    }

    /** `available`: an operation is shown. */
    predicate Available()
      reads this
    {
      currentOperation.Some?
    }

    /** `_handle_coordinator_update`: reset everything, then fill in what the registers support. */
    method HandleCoordinatorUpdate()
      modifies this
      ensures var v := View(coordinator.data);
              && currentOperation == v.operation && currentTemperature == v.current && maxTemp == v.maxTemp
              && targetTemperature == v.target && targetTemperatureLow == v.low && targetTemperatureHigh == v.high
      ensures Available() <==> !Anomalous(coordinator.data)
    {
      var data := coordinator.data;
      currentOperation := None;
      targetTemperature := None;
      targetTemperatureLow := None;
      targetTemperatureHigh := None;
      maxTemp := 55.0;

      var storageTemperature := Celsius(data, 2701);
      var boostTemperature := Celsius(data, 2707);
      var current := Celsius(data, 2800);
      var band := Celsius(data, 2702);
      var sanitaryBand := if Truthy(band) then band.value else 0.0;

      var systemStatus := Get(data, 4264);
      var dhwStatus := Get(data, 2700);
      var onOff := DecodeBool(systemStatus, Some(0), false);
      var storageMode := DecodeBool(dhwStatus, Some(2), false);
      var resistanceOnly := DecodeBool(dhwStatus, Some(5), false);
      var boostMode := DecodeBool(dhwStatus, Some(6), false);

      currentTemperature := current;

      ghost var v := View(data);
      assert dhwStatus.Some? ==> storageMode == Some(Bit(data[2700], 2)) && boostMode == Some(Bit(data[2700], 6));
      if (!Truth(storageMode) && Truth(boostMode)) || current.None? || systemStatus.None? || dhwStatus.None? {
        assert Anomalous(data);
        return;
      }

      assert v.operation == Some(OperationOf(data[4264], data[2700])) && v.current == current;
      assert Truth(boostMode) == Bit(data[2700], 6) && sanitaryBand == SanitaryBand(data);
      ShowTargets(Truth(boostMode), storageTemperature, boostTemperature, sanitaryBand);
      assert Truth(onOff) == Bit(data[4264], 0) && Truth(resistanceOnly) == Bit(data[2700], 5);
      assert Truth(storageMode) == Bit(data[2700], 2);
      if !Truth(onOff) {
        currentOperation := Some(StateOff);
      } else if Truth(resistanceOnly) {
        currentOperation := Some(StateElectric);
      } else if Truth(boostMode) {
        currentOperation := Some(StatePerformance);
      } else if Truth(storageMode) {
        currentOperation := Some(StateHeatPump);
      } else {
        currentOperation := Some(StateEco);
      }
    }

    /** The target range of a coordinator update: from the boost setpoint in boost mode, else from the storage setpoint. */
    method ShowTargets(boostMode: bool, storageTemperature: Option<real>, boostTemperature: Option<real>, sanitaryBand: real)
      modifies this
      ensures var target := if boostMode then boostTemperature else storageTemperature;
              && targetTemperature == target && targetTemperatureHigh == target
              && targetTemperatureLow == (if Truthy(target) then Some(target.value - sanitaryBand) else old(targetTemperatureLow))
              && maxTemp == (if boostMode then 65.0 else old(maxTemp))
      ensures currentOperation == old(currentOperation) && currentTemperature == old(currentTemperature)
    {
      if boostMode {
        targetTemperature := boostTemperature;
        targetTemperatureHigh := boostTemperature;
        maxTemp := 65.0;
        if Truthy(boostTemperature) {
          targetTemperatureLow := Some(boostTemperature.value - sanitaryBand);
        }
      } else {
        targetTemperature := storageTemperature;
        targetTemperatureHigh := storageTemperature;
        if Truthy(storageTemperature) {
          targetTemperatureLow := Some(storageTemperature.value - sanitaryBand);
        }
      }
    }

    /** `async_set_temperature`. */
    method SetTemperature(temperature: Option<real>) returns (status: Status)
      modifies coordinator, coordinator.client
      ensures (status, coordinator.State()) == TemperatureWrite(coordinator.client.device, old(coordinator.State()), temperature)
    {
      if temperature.None? {
        return Ok;
      }
      var dhwStatus := Get(coordinator.data, 2700);
      var boostMode := DecodeBool(dhwStatus, Some(7), false);
      var address := if Truth(boostMode) then 2707 else 2701;
      status := coordinator.SetModbusRegister(address, EncodeNumber(temperature.value, 0.1, false));
      status := ActionStatus(status);
    }

    /** `async_turn_on`. */
    method TurnOn() returns (status: Status)
      modifies coordinator, coordinator.client
      ensures (status, coordinator.State()) == PowerWrite(coordinator.client.device, old(coordinator.State()), true)
    {
      status := coordinator.SetModbusBit(2700, 0, true);
      status := ActionStatus(status);
    }

    /** `async_turn_off`. */
    method TurnOff() returns (status: Status)
      modifies coordinator, coordinator.client
      ensures (status, coordinator.State()) == PowerWrite(coordinator.client.device, old(coordinator.State()), false)
    {
      status := coordinator.SetModbusBit(2700, 0, false);
      status := ActionStatus(status);
    }

    /** `async_set_operation_mode`: compute both words, then write 2700 and, if that succeeded, 2709. */
    method SetOperationMode(mode: string) returns (status: Status)
      modifies coordinator, coordinator.client
      ensures (status, coordinator.State()) == ModeWrite(coordinator.client.device, old(coordinator.State()), mode)
    {
      if mode == "off" {
        status := TurnOff();
        return;
      }
      var data := coordinator.data;
      if 2700 !in data || 2709 !in data {
        return Raised(HomeAssistantError);
      }
      var new2709 := SetBitValues(data[2709], RemoteControlBits);
      var op := ParseOperation(mode);
      if op.None? {
        return Raised(HomeAssistantError);
      }
      var new2700 := SetBitValues(data[2700], ModeBits(op.value));
      status := coordinator.SetModbusRegister(2700, new2700);
      if status != Ok {
        status := ActionStatus(status);
        return;
      }
      status := coordinator.SetModbusRegister(2709, new2709);
      status := ActionStatus(status);
    }
  }
}
