# Clivet heat-pump register engine, in Dafny

This project models the core of the Clivet Home Assistant integration
(`custom_components/clivet`): the Modbus register engine of a Clivet
Sphera-T heat pump and the entities built on it.

- **Codec** (`codec.dfy`, `text.dfy`). The pure rules of `entity.py`:
  - `decode_number`: the `0x7FFE` "not available" sentinel, 16-bit two's
    complement and scaling;
  - `encode_number`: `int(value / scale)` truncates toward zero, and
    negative signed values wrap to 16 bits;
  - `decode_bool`: a bit test XOR `invert`;
  - `set_bit_value` / `set_bit_values`;
  - `str()` and `"_".join(...)`, which build the unique ids.
- **Transport** (`transport.dfy`). The pymodbus client as an abstract capability:
  - a `connected` flag, `connect()`, `read_holding_registers` and `write_register`;
  - the device's answers are functions of everything sent before;
  - every exchange is appended to a log, so the lemmas can count the reads
    and writes an operation sends.
- **Coordinator** (`coordinator.dfy`). `ClivetCoordinator` is a class whose
  `data` map and listener counter change in place:
  - `_get_modbus_register`;
  - the seven-block polling cycle `_async_update_data`;
  - `refresh_single_address`, `set_modbus_register` and `set_modbus_bit`;
  - `build_unique_id`, `build_client` and `model_name`.

  Each method is proved equal to a function of the device and the old
  state. The lemmas about those functions state what the source promises:
  - which reads and writes are sent, and in what order;
  - which addresses change;
  - which exception is raised.
- **Entities** (`entity.py`, `switch.py`, `binary_sensor.py`, `sensor.py`,
  `number.py`, `water_heater.py`):
  - unique ids and the `available` rule;
  - the switch, binary-sensor, status-map and sensor tables;
  - the number entities and their writes;
  - the water heater, whose coordinator update has its decision table lifted
    into the pure `View`, and whose mode, power and setpoint writes are
    functions over the coordinator state.

Python exceptions are values of `Errors.Failure`. An operation that returns
nothing ends in `Ok` or `Raised(e)`.

## Model

| member | source | states |
|---|---|---|
| Codec.SetBit | custom_components/clivet/entity.py:56-61 | setting bit `b` to `v` makes bit `b` equal `v` and leaves every other bit as it was |
| Codec.SetBitIsOrAndNot | custom_components/clivet/entity.py:56-61 | the result is x OR `1<<b` when setting and x AND NOT `1<<b` when clearing: `x` if the bit already has the value, otherwise `x` plus or minus `2^b` |
| Codec.SetBitSame | custom_components/clivet/coordinator.py:191-198 | writing a bit's own value back gives the same word |
| Codec.SetBitUnchangedIff | custom_components/clivet/coordinator.py:191-198 | the new word equals the current word exactly when the bit already has the requested value (both directions) |
| Codec.SetBitTwice | custom_components/clivet/entity.py:56-61 | of two settings of the same bit, the last one wins |
| Codec.SetThenClearRestores | custom_components/clivet/entity.py:56-61 | setting and then clearing a bit that was clear gives back the original word |
| Codec.SetBitBounded | custom_components/clivet/entity.py:56-61 | a word below `2^n` stays below `2^n` when a bit below `n` is set or cleared |
| Codec.SetBitKeepsWord | custom_components/clivet/entity.py:56-61 | a 16-bit word stays a 16-bit word for bits 0 to 15 |
| Codec.ApplyBitsEffect | custom_components/clivet/entity.py:63-68 | after `set_bit_values` with distinct bits, each listed bit has its requested value and every unlisted bit is unchanged |
| Codec.ApplyBitsKeepsWord | custom_components/clivet/entity.py:63-68 | `set_bit_values` over bits below 16 keeps a 16-bit word |
| Codec.SetBitValues | custom_components/clivet/entity.py:63-68 | the loop over the assignments returns the in-order application of `set_bit_value` |
| Codec.ApplyBits | custom_components/clivet/entity.py:63-68 | `set_bit_values` as the in-order application of `set_bit_value`; its effect is stated by `Codec.ApplyBitsEffect` and `Codec.ApplyBitsKeepsWord` |
| Codec.DecodeBool | custom_components/clivet/entity.py:92-102 | the result is None exactly when the register is None |
| Codec.DecodeBoolAfterSetBit | custom_components/clivet/entity.py:92-102 | decoding bit `b` of a word whose bit `b` was set to `v` gives `v` XOR `invert` |
| Codec.DecodeBoolInvert | custom_components/clivet/entity.py:92-102 | `invert` negates the decoded value whenever the register is present |
| Codec.Signed16 | custom_components/clivet/entity.py:142-143 | the two's-complement reading of a word when signed; its range and sign are stated by `Codec.Signed16Range` |
| Codec.Signed16Range | custom_components/clivet/entity.py:142-143 | signed decoding lies in [-32768, 32767] and is negative exactly when the raw word is at least `0x8000`; unsigned decoding is the raw word |
| Codec.DecodeNumber | custom_components/clivet/entity.py:136-146 | None exactly when the register is None or `0x7FFE`; otherwise the signed or unsigned integer times `scale`, and an exact integer exactly when the scale is 1 |
| Codec.Trunc | custom_components/clivet/entity.py:127 | `int()` truncates toward zero, for both signs |
| Codec.EncodeNumber | custom_components/clivet/entity.py:125-131 | `encode_number`: the truncated quotient, wrapped to 16 bits when signed and negative; stated by `Codec.EncodeRange`, `Codec.EncodeTruncates` and the round-trip lemmas |
| Codec.EncodeDecodeRoundTrip | custom_components/clivet/entity.py:125-146 | encoding the decoded value of any 16-bit word other than `0x7FFE` gives the word back, for every nonzero scale and either signedness |
| Codec.DecodeEncodeDecode | custom_components/clivet/entity.py:125-146 | decoding, encoding and decoding again gives the first decoding |
| Codec.EncodeRange | custom_components/clivet/entity.py:125-131 | unsigned encoding is the truncated quotient; a signed quotient in 16-bit range wraps to a word that decodes back to it, and is at least `0x8000` exactly when negative |
| Codec.EncodeTruncates | custom_components/clivet/entity.py:127 | for a non-negative value and a positive scale, the encoded integer is the largest multiple of the scale not above the value |
| Codec.CodecExamples | custom_components/clivet/entity.py:92-146 | raw `0x8000` at scale 0.1 decodes to -3276.8 signed and 3276.8 unsigned; the sentinel decodes to None; bit 2 of 4 is on and reads off when inverted |
| Text.NatToString | custom_components/clivet/entity.py:41 | `str()` of a natural number is a non-empty run of digits |
| Text.NatToStringInjective | custom_components/clivet/entity.py:41 | distinct numbers have distinct decimal notations |
| Text.DigitsPrefixUnique | custom_components/clivet/entity.py:87-90 | a run of digits followed by a text that starts with a non-digit splits in one way only |
| Transport.Client.Connect | custom_components/clivet/coordinator.py:133-134 | `connect()` records the attempt and its result and sets `connected` to it |
| Transport.Client.ReadHoldingRegisters | custom_components/clivet/coordinator.py:137-139 | a read returns the device's answer and records it in the log |
| Transport.Client.WriteRegister | custom_components/clivet/coordinator.py:160-162 | a write returns the device's answer and records it in the log |
| Coordinator.Fetch | custom_components/clivet/coordinator.py:128-151 | `_get_modbus_register` as a function of the device and the link; its exchanges and results are stated by `Coordinator.FetchExchange` |
| Coordinator.FetchExchange | custom_components/clivet/coordinator.py:128-151 | `_get_modbus_register` sends no write. Offline is raised exactly when the connection attempt fails, which is then the only exchange. Otherwise one read of `count` registers at `address` is sent last: registers give the list, an error response gives None, a fault gives a CommunicationException |
| Coordinator.StoreRange | custom_components/clivet/coordinator.py:112-113 | after the loop, the map holds `start + i ↦ words[i]` for `i < n` and keeps every other entry |
| Coordinator.RetrieveRange | custom_components/clivet/coordinator.py:108-113 | `_retrieve_multiple_values` for one block; stated by `Coordinator.RetrieveRangeExchange` |
| Coordinator.PollCycle | custom_components/clivet/coordinator.py:115-124 | the blocks read in order, stopping at the first exception; stated by `Coordinator.PollCycleExtends`, `Coordinator.PollCycleCompletes`, `Coordinator.PollCycleStops` and `Coordinator.PollCycleContents` |
| Coordinator.UpdateOutcome | custom_components/clivet/coordinator.py:105-126 | `_async_update_data`: the seven blocks from a fresh map, a CommunicationException re-raised as UpdateFailed; stated by `Coordinator.UpdateDataContents` |
| Coordinator.RetrieveRangeExchange | custom_components/clivet/coordinator.py:108-113 | one block sends no write. If the cycle goes on, exactly one read of the block was sent and accepted, and its registers are stored. Otherwise the last exchange is the one that failed (a failed connection, a fault, or a list too short for `values[i]`) |
| Coordinator.PollCycleExtends | custom_components/clivet/coordinator.py:105-126 | a polling cycle only appends to the log and never writes |
| Coordinator.PollCycleCompletes | custom_components/clivet/coordinator.py:115-122 | a cycle that returns has read every block exactly once, in the fixed order, with an accepted answer |
| Coordinator.PollCycleStops | custom_components/clivet/coordinator.py:115-124 | a failing cycle raises Offline, IndexError or UpdateFailed (the re-raised CommunicationException). The blocks before the failing one were read once each and accepted, the failing exchange is the last one, and no later block is read |
| Coordinator.PollCycleContents | custom_components/clivet/coordinator.py:105-126 | over disjoint blocks, each address of block `k` in the returned map holds the word read `k` returned for it, or is absent after an error response; nothing outside the blocks is added |
| Coordinator.PollRangesDisjoint | custom_components/clivet/coordinator.py:116-122 | the seven blocks do not overlap |
| Coordinator.CoversPolled | custom_components/clivet/coordinator.py:116-122 | every address inside one of the seven blocks is a polled address |
| Coordinator.UpdateDataContents | custom_components/clivet/coordinator.py:105-126 | a successful `_async_update_data` read the seven blocks, and the fresh map holds exactly what each read returned. Every key is a polled address, so 3006 and 3007 never appear |
| Coordinator.RefreshExchange | custom_components/clivet/coordinator.py:99-103 | a refresh sends one read of `address` and no write. It reports Offline exactly when it could not connect. If no exception is raised, the listeners are notified once and the map changes at most at `address`, which then holds the first returned word; an empty or error answer leaves the map unchanged. An exception (Offline or CommunicationException) changes neither the map nor the listeners |
| Coordinator.RefreshWhenConnected | custom_components/clivet/coordinator.py:99-103 | on a connected client a refresh is exactly one read of `address`; its answer decides the outcome |
| Coordinator.RefreshOutcome | custom_components/clivet/coordinator.py:99-103 | `refresh_single_address` over the coordinator state; stated by `Coordinator.RefreshExchange` and `Coordinator.RefreshWhenConnected` |
| Coordinator.WriteAndRefreshExchange | custom_components/clivet/coordinator.py:160-173 | one write of `value` to `address`. A rejected write raises a CommunicationException and nothing else is sent or changed. An accepted write is followed by exactly one refresh read of `address`, after which the map holds the read-back, not `value` |
| Coordinator.WriteAndRefreshWritesOf | custom_components/clivet/coordinator.py:160-173 | on a connected client exactly one write is sent, the client is never reported offline and stays connected |
| Coordinator.WriteAndRefresh | custom_components/clivet/coordinator.py:160-173 | the write followed, when accepted, by a refresh; stated by `Coordinator.WriteAndRefreshExchange` and `Coordinator.WriteAndRefreshWritesOf` |
| Coordinator.RegisterWrite | custom_components/clivet/coordinator.py:153-176 | `set_modbus_register`: connect if needed, then write and refresh; stated by `Coordinator.RegisterWriteExchange`, `Coordinator.RegisterWriteRaises` and `Coordinator.RegisterWriteWritesOf` |
| Coordinator.RegisterWriteExchange | custom_components/clivet/coordinator.py:153-176 | `set_modbus_register`: if it cannot connect, the failed attempt is the only exchange and nothing changes. Otherwise the connection attempt comes first, if one was needed, and then the write-and-refresh above follows |
| Coordinator.RegisterWriteRaises | custom_components/clivet/coordinator.py:153-176 | `set_modbus_register` raises only OfflineException or CommunicationException |
| Coordinator.RegisterWriteWritesOf | custom_components/clivet/coordinator.py:153-176 | no write when offline, otherwise exactly one write, of `value` to `address`; a connected client is never reported offline |
| Coordinator.BitWriteAsRegisterWrite | custom_components/clivet/coordinator.py:178-216 | `set_modbus_bit`: when it cannot connect, Offline is raised. A read with no first word raises. A read whose word already has the bit value ends normally with no write. Otherwise it behaves exactly as writing `SetBit(word, bit, value)` |
| Coordinator.BitWriteReadPhase | custom_components/clivet/coordinator.py:180-185 | once connected, the read of the current word is one read of `address` right after the connection prefix |
| Coordinator.BitWriteReadsFirst | custom_components/clivet/coordinator.py:178-189 | when it cannot connect, the failed attempt is the only exchange. Otherwise the first exchange after the connection is the read of `address` |
| Coordinator.BitWriteSkips | custom_components/clivet/coordinator.py:185-198 | a read with no word raises with no write; a word whose bit already has the value ends normally. In both cases the read is the last exchange, and the map and listeners are unchanged |
| Coordinator.BitWriteWritesOnce | custom_components/clivet/coordinator.py:197-213 | a word whose bit differs gets exactly one write of the word with that bit changed. One refresh of `address` follows only if the write was accepted, and nothing more is sent |
| Coordinator.BitWrite | custom_components/clivet/coordinator.py:178-216 | `set_modbus_bit`: read, change the bit, write only a changed word; stated by `Coordinator.BitWriteAsRegisterWrite` and the `BitWrite*` lemmas above |
| Coordinator.BuildUniqueId | custom_components/clivet/coordinator.py:64-78 | `build_unique_id`; its two forms are stated by `Coordinator.UniqueIdForms` |
| Coordinator.BuildClient | custom_components/clivet/coordinator.py:38-62 | `build_client` as the choice of client kind and parameters; stated by `Coordinator.BuildClientChoice` |
| Coordinator.ModelName | custom_components/clivet/coordinator.py:80-93 | `model_name`; its shape is stated by `Coordinator.ModelNameShape` |
| Coordinator.UniqueIdForms | custom_components/clivet/coordinator.py:64-78 | the unique id is `host_port_slave`, or `port_slave` when there is no host |
| Coordinator.BuildClientChoice | custom_components/clivet/coordinator.py:38-62 | TCP or UDP by protocol with host, port and a 10 s timeout; any other configuration (no protocol, or a protocol other than TCP and UDP) with a baudrate, port and parity gets a serial client with exactly that port, baudrate and parity; ValueError exactly when neither applies and there is no baudrate; a missing key raises KeyError |
| Coordinator.ModelNameShape | custom_components/clivet/coordinator.py:80-93 | the model name starts with "Sphera-T". When 4312 is known it goes on with " (N kW)", N the decimal size; when 4312 is unknown " (" does not follow. It ends with " bdr", " M-thermal" or " Monobloc" for 4318 = 1, 2 or 3, and its length is the base, the size part and that suffix (nothing else follows); it is bare exactly when 4312 is unknown and 4318 is not 1, 2 or 3 |
| Coordinator.ClivetCoordinator.constructor | custom_components/clivet/coordinator.py:24-29 | the coordinator starts with the unique id of its configuration, an empty map and no notifications |
| Coordinator.ClivetCoordinator.GetModbusRegister | custom_components/clivet/coordinator.py:128-151 | the method behaves as `Fetch` on the client's state |
| Coordinator.ClivetCoordinator.RetrieveMultipleValues | custom_components/clivet/coordinator.py:108-113 | the nested helper's loop fills the map as `RetrieveRange` says, or reports the exception |
| Coordinator.ClivetCoordinator.UpdateData | custom_components/clivet/coordinator.py:105-126 | the seven calls in order behave as `UpdateOutcome` |
| Coordinator.ClivetCoordinator.RefreshSingleAddress | custom_components/clivet/coordinator.py:99-103 | the method updates the map, the listeners and the link as `RefreshOutcome` says |
| Coordinator.ClivetCoordinator.SetModbusRegister | custom_components/clivet/coordinator.py:153-176 | the method behaves as `RegisterWrite` |
| Coordinator.ClivetCoordinator.SetModbusBit | custom_components/clivet/coordinator.py:178-216 | the method behaves as `BitWrite` |
| Entity.DeviceIdentifiersDistinct | custom_components/clivet/entity.py:10-47 | the three devices have distinct names and distinct device identifiers |
| Entity.BooleanUniqueId | custom_components/clivet/entity.py:87-90 | a boolean entity's id starts with the coordinator id and `_`, and ends in `d` ("inverted") or in `_` |
| Entity.BaseUniqueIdInjective | custom_components/clivet/entity.py:41 | distinct addresses give distinct base unique ids |
| Entity.BooleanUniqueIdSplits | custom_components/clivet/entity.py:87-90 | a boolean id is the base id followed by a tail that starts with `_` |
| Entity.BooleanUniqueIdInjective | custom_components/clivet/entity.py:87-90 | equal boolean ids have equal address, bit and invert flag |
| Entity.CachedNumber | custom_components/clivet/entity.py:136-151 | decoding the cached register gives None exactly when the address is missing or holds the sentinel, and the scaled value otherwise |
| Entity.ActionStatus | custom_components/clivet/number.py:99-105 | a CommunicationException becomes HomeAssistantError; success and other exceptions pass unchanged |
| Entity.Available | custom_components/clivet/entity.py:51-54 | an available entity's address is in the map |
| Switch.SwitchState | custom_components/clivet/switch.py:142-147 | `is_on` is known exactly when the address is cached, and is the bit XOR `invert` |
| Switch.SwitchCommand | custom_components/clivet/switch.py:149-155 | `async_turn_on` / `async_turn_off` as `set_modbus_bit` of the switch's bit; stated by `Switch.SwitchCommandEffect` |
| Switch.SwitchCommandEffect | custom_components/clivet/switch.py:149-155 | a switch without a bit fails its assertion before any exchange. When the read word already shows the requested state, nothing is written and the call ends normally. Otherwise one word is written, equal to the read word except for the switch's bit, and it decodes to the requested state |
| Switch.SwitchTableReadsPolledBits | custom_components/clivet/switch.py:17-138 | the 17 switches use bits below 16 of polled addresses |
| Switch.SwitchTableDistinct | custom_components/clivet/switch.py:17-138 | no two switches share address, bit and invert flag |
| Switch.SwitchUniqueIdsDistinct | custom_components/clivet/switch.py:17-138 | no two switches share a unique id |
| Switch.HeatCoolSwitchesOpposite | custom_components/clivet/switch.py:25-39 | the two bit-2 switches of 2600 always show opposite states |
| Switch.SwitchEntity.constructor | custom_components/clivet/entity.py:71-90 | a switch takes its table row and the boolean unique id |
| Switch.SwitchEntity.HandleCoordinatorUpdate | custom_components/clivet/switch.py:143-147 | `is_on` becomes `SwitchState` of the coordinator's map |
| Switch.SwitchEntity.TurnOn | custom_components/clivet/switch.py:149-151 | behaves as `SwitchCommand` with `on` |
| Switch.SwitchEntity.TurnOff | custom_components/clivet/switch.py:153-155 | behaves as `SwitchCommand` with off |
| BinarySensor.FromStatusMap | custom_components/clivet/binary_sensor.py:245-263 | one status-map sensor per map entry, in map order, with bit = key, its name, and the device class the comprehension passes |
| BinarySensor.ShownDeviceClass | custom_components/clivet/binary_sensor.py:207-243 | a status-map or split sensor ends with no device class, because the base constructor's default `None` overwrites the one it was given; a plain binary sensor keeps the class it is given |
| BinarySensor.NoBinarySensorShowsDeviceClass | custom_components/clivet/binary_sensor.py:19-263 | "Cooling mode" is given `COLD`, yet no binary sensor the platform adds shows a device class |
| BinarySensor.Flatten | custom_components/clivet/binary_sensor.py:202-204 | the flattened list holds exactly the sensors of the lists |
| BinarySensor.FlattenAppend | custom_components/clivet/binary_sensor.py:202-204 | flattening keeps the order of the lists |
| BinarySensor.DecodeValue | custom_components/clivet/binary_sensor.py:288-289 | a split sensor is on exactly when its bit equals `bit_value`; a plain one shows the bit, or whether the word is nonzero |
| BinarySensor.BinarySensorState | custom_components/clivet/binary_sensor.py:223-227 | the state is known exactly when the address is cached, and is then the decoded value (`DecodeValue`) of the cached word |
| BinarySensor.SplitUniqueIdsDiffer | custom_components/clivet/binary_sensor.py:286 | the two facets of a bit have distinct ids |
| BinarySensor.SensorUniqueId | custom_components/clivet/binary_sensor.py:277-286 | the boolean id, with `_0` or `_1` after it for a split sensor; stated by `BinarySensor.SplitUniqueIdsDiffer`, `BinarySensor.PlainSensorUniqueId` and `BinarySensor.FromStatusMapIdsDistinct` |
| BinarySensor.PlainSensorUniqueId | custom_components/clivet/binary_sensor.py:207-221 | a plain binary sensor's id is the boolean id without inversion |
| BinarySensor.FromStatusMapIdsDistinct | custom_components/clivet/binary_sensor.py:245-263 | a status map with distinct bits gives sensors with distinct ids |
| BinarySensor.DhwAndUnitStatusBitsDistinct | custom_components/clivet/binary_sensor.py:46-90 | the maps of 2801, 2803, 3000 and 3001 list distinct bits |
| BinarySensor.AlarmStatusBitsDistinct | custom_components/clivet/binary_sensor.py:91-142 | the maps of 3002, 3003, 3004 and 3006 list distinct bits |
| BinarySensor.SystemStatusBitsDistinct | custom_components/clivet/binary_sensor.py:143-200 | the maps of 3007, 4263, 4264 and 4314 list distinct bits |
| BinarySensor.CoolingHeatingExclusive | custom_components/clivet/binary_sensor.py:27-44 | exactly one of "Cooling mode" and "Heating mode" is on |
| BinarySensor.UnpolledSensorsUnknown | custom_components/clivet/binary_sensor.py:223-227 | after a successful poll, a sensor on an address outside the polled blocks is unknown |
| BinarySensor.AlarmSensorsOutsidePolledBlocks | custom_components/clivet/binary_sensor.py:127-162 | the 13 sensors of 3006 and 3007 sit on addresses that are never polled |
| BinarySensor.BinarySensorEntity.constructor | custom_components/clivet/binary_sensor.py:207-286 | a binary sensor takes its row and its unique id, and starts unknown |
| BinarySensor.BinarySensorEntity.HandleCoordinatorUpdate | custom_components/clivet/binary_sensor.py:223-227 | `is_on` becomes `BinarySensorState` of the coordinator's map |
| Sensor.StatusLookup | custom_components/clivet/sensor.py:568 | a code is found exactly when the map has it, and the label found is paired with it |
| Sensor.StatusLookupFinds | custom_components/clivet/sensor.py:564-570 | with distinct codes, each code finds its own label |
| Sensor.StatusSensorValue | custom_components/clivet/sensor.py:564-570 | a label is shown exactly when the address is cached and its word is a code of the map, and it is the label paired with that code; an unlisted code or an uncached address shows None |
| Sensor.Options | custom_components/clivet/sensor.py:552 | the options are the labels in map order |
| Sensor.StatusValueIsOption | custom_components/clivet/sensor.py:552-570 | a shown status is one of the options |
| Sensor.SensorDecodingExamples | custom_components/clivet/sensor.py:511-538 | a default sensor shows the raw integer; a temperature shows -3276.8 for `0x8000` and 21.5 for 215; the sentinel and an uncached address show None |
| Sensor.OperatingModesLookup | custom_components/clivet/sensor.py:303-315 | the operating modes have distinct codes; 3 shows "Heating", while 1 and codes above 5 show None |
| Sensor.HeatPumpSensorsInBlock | custom_components/clivet/sensor.py:28-481 | every heat-pump sensor of the 4200 table lies in the 4200 block |
| Sensor.OtherSensorsInBlocks | custom_components/clivet/sensor.py:28-481 | the 2800, 4300 and 7000 sensors lie in their blocks |
| Sensor.SensorsReadPolledRegisters | custom_components/clivet/sensor.py:28-481 | every sensor reads a polled address |
| Sensor.NumericSensorEntity.constructor | custom_components/clivet/sensor.py:483-509 | a numeric sensor takes the scale and signedness of its kind, and its base unique id |
| Sensor.NumericSensorEntity.HandleCoordinatorUpdate | custom_components/clivet/sensor.py:511-517 | the value becomes the decoded cached register |
| Sensor.StatusSensorEntity.constructor | custom_components/clivet/sensor.py:542-562 | a status sensor's options are its map's labels |
| Sensor.StatusSensorEntity.HandleCoordinatorUpdate | custom_components/clivet/sensor.py:564-570 | the value becomes the label of the cached word |
| NumberPlatform.NumberWriteEffect | custom_components/clivet/number.py:99-105 | the outcome is Ok, Offline or HomeAssistantError. Offline means the failed attempt was the only exchange. Otherwise the first exchange after the connection is one write of the encoded value to the number's address |
| NumberPlatform.NumberWrite | custom_components/clivet/number.py:99-105 | `async_set_native_value`: encode and `set_modbus_register`, a CommunicationException becoming HomeAssistantError; stated by `NumberPlatform.NumberWriteEffect` |
| NumberPlatform.NumbersAreUnsigned | custom_components/clivet/number.py:19-57 | all four numbers are unsigned, step by their scale, and have scale 1 or 0.1 |
| NumberPlatform.NumberValuesFitWord | custom_components/clivet/number.py:19-57 | every in-range value of 2614, 2702 and 2704 encodes to a 16-bit word; a value of 2706 does exactly when it is below 65536, and 70000 is in range but encodes to 70000 |
| NumberPlatform.DisplayedValueWritesBack | custom_components/clivet/number.py:91-105 | writing back the displayed value of a cached word encodes that word |
| NumberPlatform.TemperatureNumberExample | custom_components/clivet/number.py:108-129 | a temperature number at 45.5 writes 455 |
| NumberPlatform.NumberEntity.constructor | custom_components/clivet/number.py:61-89 | a number is signed exactly when its minimum is negative, and steps by its scale |
| NumberPlatform.NumberEntity.HandleCoordinatorUpdate | custom_components/clivet/number.py:91-97 | the value becomes the decoded cached register |
| NumberPlatform.NumberEntity.SetNativeValue | custom_components/clivet/number.py:99-105 | behaves as `NumberWrite` |
| WaterHeater.ParseOperation | custom_components/clivet/water_heater.py:183-201 | a recognised mode's name is the requested string |
| WaterHeater.ParseOperationNames | custom_components/clivet/water_heater.py:63-69 | each of the five operations parses from its name and from nothing else |
| WaterHeater.Celsius | custom_components/clivet/water_heater.py:84-86 | a setpoint is known exactly when it is cached and not the sentinel, and is then the raw word times 0.1 (unsigned) |
| WaterHeater.SanitaryBand | custom_components/clivet/water_heater.py:87-89 | the band is non-negative, and 0 exactly when 2702 decodes to nothing or to 0 |
| WaterHeater.LowEnd | custom_components/clivet/water_heater.py:115-121 | target-low is set exactly when the target is truthy |
| WaterHeater.View | custom_components/clivet/water_heater.py:77-134 | the current temperature is always shown. The operation is unknown exactly in the anomalous case, and then every target is unknown and the maximum is 55 |
| WaterHeater.AvailableIff | custom_components/clivet/water_heater.py:71-109 | the heater is available exactly when 2700, 4264 and a real 2800 are cached and boost mode implies storage mode |
| WaterHeater.TargetRange | custom_components/clivet/water_heater.py:111-121 | target-high equals target; target-low is target minus the band, set only for a truthy target, and never above it |
| WaterHeater.SetpointFollowsMode | custom_components/clivet/water_heater.py:111-132 | PERFORMANCE shows 2707 with maximum 65; HEAT_PUMP and ECO show 2701 with maximum 55; the maximum is 65 exactly when boost bit 6 is set |
| WaterHeater.OffIffSystemOff | custom_components/clivet/water_heater.py:123-124 | outside the anomalous case, the operation is OFF exactly when bit 0 of 4264 is clear |
| WaterHeater.PowerWriteEffect | custom_components/clivet/water_heater.py:154-166 | turning on or off never lets a CommunicationException through. If bit 0 of 2700 already has the value, nothing is written. Otherwise one write of the word with only bit 0 changed is sent |
| WaterHeater.PowerWrite | custom_components/clivet/water_heater.py:154-166 | `async_turn_on` / `async_turn_off` as `set_modbus_bit` of bit 0 of 2700; stated by `WaterHeater.PowerWriteEffect` |
| WaterHeater.SetpointAddress | custom_components/clivet/water_heater.py:140-146 | the setpoint is written to 2707 exactly when bit 7 of cached 2700 is set, and to 2701 otherwise |
| WaterHeater.TemperatureWriteEffect | custom_components/clivet/water_heater.py:136-152 | no temperature: nothing happens. Otherwise the outcome is Ok, Offline or HomeAssistantError, with no write exactly when offline and otherwise one write of the truncated tenths to the setpoint address |
| WaterHeater.SetpointEncodingFitsWord | custom_components/clivet/water_heater.py:147-150 | a target encodes to a 16-bit word exactly when it lies strictly between -0.1 and 6553.6; -5.0 is sent as -50 |
| WaterHeater.TemperatureWrite | custom_components/clivet/water_heater.py:136-152 | `async_set_temperature`; stated by `WaterHeater.TemperatureWriteEffect`, `WaterHeater.SetpointAddressAgrees` and `WaterHeater.SetpointAddressMismatch` |
| WaterHeater.SetpointAddressAgrees | custom_components/clivet/water_heater.py:136-146 | when bits 6 and 7 of 2700 agree, the address written is the one whose setpoint is displayed |
| WaterHeater.SetpointAddressMismatch | custom_components/clivet/water_heater.py:136-146 | a cached 2700 with bit 6 set and bit 7 clear displays 2707 but writes to 2701 |
| WaterHeater.ModeWord | custom_components/clivet/water_heater.py:183-199 | the new 2700 word has bit 0 set, bit 2 set except for ECO, bit 5 only for ELECTRIC and bit 6 only for PERFORMANCE, and every other bit unchanged |
| WaterHeater.RemoteControlWord | custom_components/clivet/water_heater.py:179-181 | the new 2709 word has bits 0 to 2 set, bit 3 clear, and higher bits unchanged |
| WaterHeater.ModeShownAfterWrite | custom_components/clivet/water_heater.py:183-199 | with the system on, the word written for a mode decodes to that mode and never to the anomalous case |
| WaterHeater.ModeWriteOrder | custom_components/clivet/water_heater.py:168-207 | "off" only turns the heater off. A missing 2700 or 2709, or an unknown mode, raises HomeAssistantError before any exchange. Otherwise at most two writes are sent: 2700 first, then 2709 only after it succeeds. Ok means both were written; no write means Offline |
| WaterHeater.ModeWrite | custom_components/clivet/water_heater.py:168-207 | `async_set_operation_mode`; stated by `WaterHeater.ModeWriteOrder`, `WaterHeater.ModeWord` and `WaterHeater.ModeShownAfterWrite` |
| WaterHeater.WaterHeaterEntity.constructor | custom_components/clivet/water_heater.py:45-69 | the heater starts with minimum 40, step 0.1, the five operations and no operation (unavailable) |
| WaterHeater.WaterHeaterEntity.HandleCoordinatorUpdate | custom_components/clivet/water_heater.py:77-134 | after the step-by-step reassignment every field equals `View` of the map, and the heater is available exactly outside the anomalous case |
| WaterHeater.WaterHeaterEntity.ShowTargets | custom_components/clivet/water_heater.py:111-121 | target and target-high come from 2707 in boost mode and from 2701 otherwise. Target-low is set only for a truthy target, and the maximum becomes 65 in boost mode |
| WaterHeater.WaterHeaterEntity.SetTemperature | custom_components/clivet/water_heater.py:136-152 | behaves as `TemperatureWrite` |
| WaterHeater.WaterHeaterEntity.TurnOn | custom_components/clivet/water_heater.py:154-159 | behaves as `PowerWrite` with on |
| WaterHeater.WaterHeaterEntity.TurnOff | custom_components/clivet/water_heater.py:161-166 | behaves as `PowerWrite` with off |
| WaterHeater.WaterHeaterEntity.SetOperationMode | custom_components/clivet/water_heater.py:168-207 | behaves as `ModeWrite` |

## Where the code departs from the integration's intended behaviour

The integration is meant to write the nearest register value, to keep what a
poll read before a failure, to use one mode bit for both showing and writing
the setpoint, and to send only values a 16-bit register can hold. The code
differs in the points below, and the model follows the code.

- `encode_number` uses `int(value / scale)`, which truncates toward zero
  rather than rounding to the nearest step. `Codec.EncodeNumber` truncates.
- Each polling cycle starts from a fresh map, so the blocks read before a
  failure are not kept: the partial map is discarded when UpdateFailed is
  raised. `Coordinator.UpdateOutcome` returns
  only the exception.
- `async_set_temperature` chooses the setpoint register by bit 7 of 2700,
  while the display uses bit 6. Both are modelled as written.
  `WaterHeater.SetpointAddressMismatch` gives a word for which the two
  disagree, and `WaterHeater.SetpointAddressAgrees` shows that they agree
  whenever the two bits are equal.
- Setting and then clearing a bit gives back the original word only when the
  bit was clear to begin with (`Codec.SetThenClearRestores` requires it).
- Registers 3006 and 3007 have binary sensors but lie outside the seven
  polled blocks, so those sensors stay unknown after every successful poll
  (`BinarySensor.UnpolledSensorsUnknown`).
- The binary-sensor table gives device classes (`COLD` and `HEAT` for the
  two 4263 facets, `RUNNING` and `PROBLEM` for many status bits), but
  `ClivetStatusMapSensorEntity.__init__` calls the base constructor
  without `device_class`, and its default `None` overwrites the class just
  stored. Every status-map and split sensor therefore ends with no device
  class (`BinarySensor.ShownDeviceClass`,
  `BinarySensor.NoBinarySensorShowsDeviceClass`).
- "Anti-legionella interval" (2706) accepts values up to 86400, but a
  register holds at most 65535 and nothing rejects larger values before
  they are encoded: 70000 is sent as the integer 70000
  (`NumberPlatform.NumberValuesFitWord`). Likewise a water-heater target of
  -0.1 or below is sent as a negative integer
  (`WaterHeater.SetpointEncodingFitsWord`).
- The water heater decodes its temperatures unsigned (the entity keeps the
  default `signed=False`). `WaterHeater.Celsius` does the same.

## Left out

- Home Assistant machinery is not modelled:
  - the `DataUpdateCoordinator` schedule and retry;
  - storing the poll result in `coordinator.data`, and what is kept after UpdateFailed;
  - `async_write_ha_state`;
  - `async_setup_entry`;
  - `DeviceInfo` with the model name;
  - units, sensor device classes, state classes and number modes.

  Listener notification is a counter.
- Construction of the pymodbus clients, sockets, framing and timeouts are not
  modelled. `build_client` is modelled only as the choice of client kind and
  its parameters.
- The Modbus `slave` / `device_id` passed with each request is not modelled;
  the transport serves one device.
- The link never drops: `connected` changes only through `connect()`.
- Asynchronous interleaving is not modelled. Every operation is one atomic
  sequential call, so a poll cannot run between the read and the write of
  `set_modbus_bit`.
- Transport.WriteStep: a value outside 0..0xFFFF is passed to the device
  unchanged, and the device's answer to it is as free as for any other
  value. What pymodbus does with such a value (an encoding error or a
  truncated word) is not modelled.
- Floating point is not modelled. Scaled values are Dafny `real`, so float
  artefacts such as `0.3 / 0.1` truncating to 2 are not captured.
- Codec.EncodeDecodeRoundTrip: holds over exact reals only. Over IEEE
  doubles at scale 0.1, some words do not come back; word 43 shows 4.3,
  and `int(4.3 / 0.1)` is 42.
- NumberPlatform.DisplayedValueWritesBack: holds over exact reals only, for
  the same reason as `Codec.EncodeDecodeRoundTrip`.
- Logging, log messages and exception texts are not modelled.
- The `NotImplementedError` branch of `device_name` cannot be reached with
  the three devices, so it is not modelled.
- `super().available` is a parameter of `Entity.Available` rather than the
  framework's `last_update_success`.
- Entity.Available: states only that an available entity's address is cached, not the converse, because the framework flag is a free parameter.
- `config_flow.py`, `const.py`, `__init__.py` and `exceptions.py` are not
  part of this model. The exceptions become the `Errors.Failure` values.
- Addresses are natural numbers in the entity modules and integers in the
  coordinator. Negative addresses cannot occur in the source's tables.
