/**
 * What every entity of the integration shares (custom_components/clivet/entity.py):
 * the device it belongs to, its unique id, and when it is available.
 * The register codec these classes also carry is in module `Codec`.
 */
module Entity {
  import opened Codec
  import opened Errors
  import Text

  /** The three devices entities are grouped under. */
  datatype ClivetDevice = HeatPump | Dhw | Compressor
  {
    /** The enum value, used in the device identifier. */
    function Value(): string
    {
      match this
      case HeatPump => "heat_pump"
      case Dhw => "dhw"
      case Compressor => "compressor"
    }

    function DeviceName(): string
    {
      match this
      case HeatPump => "Heat Pump"
      case Dhw => "Domestic Hot Water"
      case Compressor => "Compressor"
    }
  }

  /** The identifier of a device in the device registry: the coordinator's id and the device. */
  function DeviceIdentifier(coordinatorId: string, device: ClivetDevice): string
  {
    coordinatorId + "_" + device.Value()
  }

  /** Distinct devices of one coordinator get distinct identifiers and names. */
  lemma DeviceIdentifiersDistinct(coordinatorId: string, d1: ClivetDevice, d2: ClivetDevice)
    requires d1 != d2
    ensures DeviceIdentifier(coordinatorId, d1) != DeviceIdentifier(coordinatorId, d2)
    ensures d1.DeviceName() != d2.DeviceName()
  {
  }

  /** The unique id of any entity: the coordinator's id and the register address. */
  function BaseUniqueId(coordinatorId: string, address: nat): string
  {
    coordinatorId + "_" + Text.NatToString(address)
  }

  function BitPart(bit: Option<nat>): string
  {
    if bit.Some? then "_" + Text.NatToString(bit.value) else ""
  }

  function InvertTag(invert: bool): string
  {
    if invert then "inverted" else ""
  }

  /**
   * The unique id of a boolean entity: the base id, then "_<bit>" when it
   * reads one bit, then "_inverted" or a bare "_".
   */
  function BooleanUniqueId(coordinatorId: string, address: nat, bit: Option<nat>, invert: bool): (id: string)
    ensures |id| > |coordinatorId| + 1 && id[..|coordinatorId| + 1] == coordinatorId + "_"
    ensures id[|id| - 1] == (if invert then 'd' else '_')
  {
    BaseUniqueId(coordinatorId, address) + BitPart(bit) + "_" + InvertTag(invert)
  }

  /** `decode_numeric_value(coordinator.data.get(address))`: unknown when the address is not in the map. */
  function CachedNumber(data: map<int, Word>, address: int, scale: real, signed: bool): (r: Option<Number>)
    ensures r.None? <==> address !in data || data[address] == NotAvailable
    ensures r.Some? ==> r.value.AsReal() == Signed16(data[address], signed) as real * scale
  {
    if address in data then DecodeNumber(Some(data[address]), scale, signed) else None
  }

  /**
   * How an entity action reports a failed write: a CommunicationException
   * becomes a HomeAssistantError; anything else, OfflineException included,
   * passes through unchanged.
   */
  function ActionStatus(st: Status): (r: Status)
    ensures r == Ok <==> st == Ok
    ensures r == Raised(HomeAssistantError) <==> st == Raised(CommunicationFailure) || st == Raised(HomeAssistantError)
    ensures st != Raised(CommunicationFailure) ==> r == st
  {
    if st == Raised(CommunicationFailure) then Raised(HomeAssistantError) else st
  }

  /** An entity is available when the last refresh succeeded and its address is in the map. */
  function Available(lastUpdateSuccess: bool, data: map<int, Word>, address: int): (r: bool)
    ensures r ==> address in data
  {
    lastUpdateSuccess && address in data
  }

  /** Entities of one coordinator at different addresses have different base ids. */
  lemma BaseUniqueIdInjective(coordinatorId: string, a1: nat, a2: nat)
    requires BaseUniqueId(coordinatorId, a1) == BaseUniqueId(coordinatorId, a2)
    ensures a1 == a2
  {
    var p := coordinatorId + "_";
    var id1, id2 := BaseUniqueId(coordinatorId, a1), BaseUniqueId(coordinatorId, a2);
    assert id1 == p + Text.NatToString(a1) && id2 == p + Text.NatToString(a2);
    assert Text.NatToString(a1) == id1[|p|..] && Text.NatToString(a2) == id2[|p|..];
    Text.NatToStringInjective(a1, a2);
  }

  /** What follows the digits of the address in a boolean unique id. */
  function Tail(bit: Option<nat>, invert: bool): string
  {
    BitPart(bit) + "_" + InvertTag(invert)
  }

  lemma BooleanUniqueIdSplits(coordinatorId: string, address: nat, bit: Option<nat>, invert: bool)
    ensures BooleanUniqueId(coordinatorId, address, bit, invert)
              == (coordinatorId + "_") + (Text.NatToString(address) + Tail(bit, invert))
    ensures Tail(bit, invert)[0] == '_'
  {
    var a, d, t := coordinatorId + "_", Text.NatToString(address), Tail(bit, invert);
    var p, i := BitPart(bit), InvertTag(invert);
    calc {
      BooleanUniqueId(coordinatorId, address, bit, invert);
      ((a + d) + p + "_") + i;
      { assert (a + d) + p + "_" == (a + d) + (p + "_"); }
      ((a + d) + (p + "_")) + i;
      (a + d) + ((p + "_") + i);
      a + (d + t);
    }
    if bit.Some? {
      assert t[0] == p[0];
    }
  }

  /** A tail with a bit has a digit in second place; one without has none. */
  lemma TailShape(bit: Option<nat>, invert: bool)
    ensures var t := Tail(bit, invert);
            bit.Some? ==> |t| >= 3 && Text.IsDigit(t[1])
    ensures var t := Tail(bit, invert);
            bit.None? ==> t == "_" + InvertTag(invert) && (|t| == 1 || !Text.IsDigit(t[1]))
  {
    if bit.Some? {
      var d := Text.NatToString(bit.value);
      assert Tail(bit, invert) == "_" + d + "_" + InvertTag(invert);
      assert Tail(bit, invert)[1] == d[0];
    }
  }

  lemma InvertTagInjective(i1: bool, i2: bool)
    requires "_" + InvertTag(i1) == "_" + InvertTag(i2)
    ensures i1 == i2
  {
  }

  lemma TailWithBit(b: nat, invert: bool)
    ensures Tail(Some(b), invert) == "_" + (Text.NatToString(b) + ("_" + InvertTag(invert)))
  {
  }

  lemma DropSeparator(x: string, y: string)
    requires "_" + x == "_" + y
    ensures x == y
  {
    assert x == ("_" + x)[1..] && y == ("_" + y)[1..];
  }

  lemma TailInjectiveWithBits(b1: nat, i1: bool, b2: nat, i2: bool)
    requires Tail(Some(b1), i1) == Tail(Some(b2), i2)
    ensures b1 == b2 && i1 == i2
  {
    var d1, d2 := Text.NatToString(b1), Text.NatToString(b2);
    var r1, r2 := "_" + InvertTag(i1), "_" + InvertTag(i2);
    TailWithBit(b1, i1);
    TailWithBit(b2, i2);
    DropSeparator(d1 + r1, d2 + r2);
    Text.DigitsPrefixUnique(d1, r1, d2, r2);
    Text.NatToStringInjective(b1, b2);
    InvertTagInjective(i1, i2);
  }

  /** Two tails are equal only for the same bit and the same inversion. */
  lemma TailInjective(b1: Option<nat>, i1: bool, b2: Option<nat>, i2: bool)
    requires Tail(b1, i1) == Tail(b2, i2)
    ensures b1 == b2 && i1 == i2
  {
    TailShape(b1, i1);
    TailShape(b2, i2);
    if b1.Some? && b2.Some? {
      TailInjectiveWithBits(b1.value, i1, b2.value, i2);
    } else if b1.None? && b2.None? {
      InvertTagInjective(i1, i2);
    }
  }

  /**
   * The boolean entities of one coordinator have distinct unique ids
   * unless they agree on address, bit and inversion.
   */
  lemma BooleanUniqueIdInjective(coordinatorId: string, a1: nat, b1: Option<nat>, i1: bool,
                                 a2: nat, b2: Option<nat>, i2: bool)
    requires BooleanUniqueId(coordinatorId, a1, b1, i1) == BooleanUniqueId(coordinatorId, a2, b2, i2)
    ensures a1 == a2 && b1 == b2 && i1 == i2
  {
    var p := coordinatorId + "_";
    var d1, d2 := Text.NatToString(a1), Text.NatToString(a2);
    var t1, t2 := Tail(b1, i1), Tail(b2, i2);
    BooleanUniqueIdSplits(coordinatorId, a1, b1, i1);
    BooleanUniqueIdSplits(coordinatorId, a2, b2, i2);
    assert d1 + t1 == (p + (d1 + t1))[|p|..];
    assert d2 + t2 == (p + (d2 + t2))[|p|..];
    Text.DigitsPrefixUnique(d1, t1, d2, t2);
    Text.NatToStringInjective(a1, a2);
    TailInjective(b1, i1, b2, i2);
  }
}
