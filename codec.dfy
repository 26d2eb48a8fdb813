/**
 * The register codec: the static helpers of `ClivetBaseEntity`,
 * `ClivetBooleanBaseEntity` and `ClivetNumericBaseEntity`.
 *
 * Register words and bit positions are non-negative integers, as in the
 * Python code; a word the device reports is a `Word` (0 .. 0xFFFF).
 * Scaled physical values are exact `real`s (the Python code uses floats).
 */
module Codec {

  datatype Option<+T> = None | Some(value: T)

  /** One 16-bit holding-register word as the device reports it. */
  type Word = x: int | 0 <= x < 0x1_0000

  /** The raw value the device uses for "not available". */
  const NotAvailable: int := 0x7FFE

  function Pow2(n: nat): (r: nat)
    ensures r >= 1
  {
    if n == 0 then 1 else 2 * Pow2(n - 1)
  }

  /** Bit `b` of `x`: Python's `bool(x & (1 << b))` for `x >= 0`. */
  function Bit(x: nat, b: nat): bool
  {
    if b == 0 then x % 2 == 1 else Bit(x / 2, b - 1)
  }

  /**
   * `set_bit_value`: `x | (1 << b)` when `v` holds, `x & ~(1 << b)` otherwise.
   * Bit `b` of the result is `v`; every other bit is that of `x`.
   */
  function SetBit(x: nat, b: nat, v: bool): (r: nat)
    ensures Bit(r, b) == v
    ensures forall c: nat :: c != b ==> Bit(r, c) == Bit(x, c)
  {
    if b == 0 then (x / 2) * 2 + (if v then 1 else 0)
    else SetBit(x / 2, b - 1, v) * 2 + x % 2
  }

  /** SetBit is exactly "or in 2^b" or "subtract 2^b when present". */
  lemma {:induction false} SetBitIsOrAndNot(x: nat, b: nat, v: bool)
    ensures SetBit(x, b, v) ==
      if Bit(x, b) == v then x else if v then x + Pow2(b) else x - Pow2(b)
  {
    if b > 0 {
      SetBitIsOrAndNot(x / 2, b - 1, v);
    }
  }

  /** Writing a bit with the value it already has leaves the word unchanged. */
  lemma {:induction false} SetBitSame(x: nat, b: nat)
    ensures SetBit(x, b, Bit(x, b)) == x
  {
    if b > 0 {
      SetBitSame(x / 2, b - 1);
    }
  }

  /** The word changes exactly when the bit differs from the requested value. */
  lemma SetBitUnchangedIff(x: nat, b: nat, v: bool)
    ensures SetBit(x, b, v) == x <==> Bit(x, b) == v
  {
    if Bit(x, b) == v {
      SetBitSame(x, b);
    }
  }

  /** A second write of the same bit overrides the first. */
  lemma {:induction false} SetBitTwice(x: nat, b: nat, v: bool, w: bool)
    ensures SetBit(SetBit(x, b, v), b, w) == SetBit(x, b, w)
  {
    if b == 0 {
      Halves(x / 2, if v then 1 else 0);
    } else {
      var y := SetBit(x / 2, b - 1, v);
      Halves(y, x % 2);
      assert SetBit(x, b, v) == y * 2 + x % 2;
      SetBitTwice(x / 2, b - 1, v, w);
    }
  }

  /** Halving `2q + r` gives back `q` and the remainder `r`. */
  lemma Halves(q: nat, r: nat)
    requires r < 2
    ensures (q * 2 + r) / 2 == q && (q * 2 + r) % 2 == r
  {
  }

  /** Setting and then clearing a bit that was clear restores the word. */
  lemma SetThenClearRestores(x: nat, b: nat)
    requires !Bit(x, b)
    ensures SetBit(SetBit(x, b, true), b, false) == x
  {
    SetBitTwice(x, b, true, false);
    SetBitSame(x, b);
  }

  /** A word below 2^n stays below 2^n when a bit below n is written. */
  lemma {:induction false} SetBitBounded(x: nat, b: nat, v: bool, n: nat)
    requires x < Pow2(n) && b < n
    ensures SetBit(x, b, v) < Pow2(n)
  {
    assert Pow2(n) == 2 * Pow2(n - 1);
    assert x / 2 < Pow2(n - 1);
    if b > 0 {
      SetBitBounded(x / 2, b - 1, v, n - 1);
    }
  }

  /** A 16-bit word with a bit below 16 written is still a 16-bit word. */
  lemma SetBitKeepsWord(x: Word, b: nat, v: bool)
    requires b < 16
    ensures SetBit(x, b, v) < 0x1_0000
  {
    assert Pow2(1) == 2;
    assert Pow2(2) == 4;
    assert Pow2(3) == 8;
    assert Pow2(4) == 16;
    assert Pow2(5) == 32;
    assert Pow2(6) == 64;
    assert Pow2(7) == 128;
    assert Pow2(8) == 256;
    assert Pow2(9) == 512;
    assert Pow2(10) == 1024;
    assert Pow2(11) == 2048;
    assert Pow2(12) == 4096;
    assert Pow2(13) == 8192;
    assert Pow2(14) == 16384;
    assert Pow2(15) == 32768;
    assert Pow2(16) == 65536;
    SetBitBounded(x, b, v, 16);
  }

  /** The bit assignments of a `dict[int, bool]`, in insertion order. */
  predicate DistinctKeys(bits: seq<(nat, bool)>)
  {
    forall i, j :: 0 <= i < j < |bits| ==> bits[i].0 != bits[j].0
  }

  predicate Listed(bits: seq<(nat, bool)>, c: nat)
  {
    exists k :: 0 <= k < |bits| && bits[k].0 == c
  }

  /** `set_bit_values`: the assignments applied one after the other, in order. */
  function ApplyBits(x: nat, bits: seq<(nat, bool)>): nat
    decreases |bits|
  {
    if bits == [] then x else ApplyBits(SetBit(x, bits[0].0, bits[0].1), bits[1..])
  }

  /**
   * With distinct keys, every listed bit ends at its requested value and
   * every unlisted bit keeps its value.
   */
  lemma {:induction false} ApplyBitsEffect(x: nat, bits: seq<(nat, bool)>)
    requires DistinctKeys(bits)
    ensures forall k :: 0 <= k < |bits| ==> Bit(ApplyBits(x, bits), bits[k].0) == bits[k].1
    ensures forall c: nat :: !Listed(bits, c) ==> Bit(ApplyBits(x, bits), c) == Bit(x, c)
    decreases |bits|
  {
    if bits != [] {
      var y := SetBit(x, bits[0].0, bits[0].1);
      var rest := bits[1..];
      ApplyBitsEffect(y, rest);
      assert ApplyBits(x, bits) == ApplyBits(y, rest);
      forall k | 0 <= k < |rest|
        ensures rest[k].0 != bits[0].0
      {
        assert rest[k] == bits[k + 1];
      }
      forall k | 0 <= k < |bits|
        ensures Bit(ApplyBits(x, bits), bits[k].0) == bits[k].1
      {
        if k > 0 {
          assert bits[k] == rest[k - 1];
        }
      }
      forall c: nat | !Listed(bits, c)
        ensures Bit(ApplyBits(x, bits), c) == Bit(x, c)
      {
        forall k | 0 <= k < |rest|
          ensures rest[k].0 != c
        {
          assert rest[k] == bits[k + 1];
        }
        assert c != bits[0].0;
      }
    }
  }

  /** Writing bits below 16 into a 16-bit word yields a 16-bit word. */
  lemma {:induction false} ApplyBitsKeepsWord(x: Word, bits: seq<(nat, bool)>)
    requires forall k :: 0 <= k < |bits| ==> bits[k].0 < 16
    ensures ApplyBits(x, bits) < 0x1_0000
    decreases |bits|
  {
    if bits != [] {
      SetBitKeepsWord(x, bits[0].0, bits[0].1);
      ApplyBitsKeepsWord(SetBit(x, bits[0].0, bits[0].1), bits[1..]);
    }
  }

  /** `set_bit_values` as the source runs it: a loop reassigning the current value. */
  method SetBitValues(current: nat, bits: seq<(nat, bool)>) returns (r: nat)
    ensures r == ApplyBits(current, bits)
  {
    r := current;
    for i := 0 to |bits|
      invariant ApplyBits(current, bits) == ApplyBits(r, bits[i..])
    {
      assert bits[i..][1..] == bits[i + 1..];
      r := SetBit(r, bits[i].0, bits[i].1);
    }
    assert bits[|bits|..] == [];
  }

  /**
   * `decode_bool`: unknown stays unknown; with a bit, the bit's value,
   * without one, "non-zero"; either way XOR `invert`.
   */
  function DecodeBool(register: Option<nat>, bit: Option<nat>, invert: bool): (r: Option<bool>)
    ensures r.Some? <==> register.Some?
  {
    match register
    case None => None
    case Some(raw) =>
      if bit.Some? then Some(Bit(raw, bit.value) != invert) else Some((raw != 0) != invert)
  }

  /** Decoding a bit just written with `v` gives `v` XOR `invert`. */
  lemma DecodeBoolAfterSetBit(x: nat, b: nat, v: bool, invert: bool)
    ensures DecodeBool(Some(SetBit(x, b, v)), Some(b), invert) == Some(v != invert)
  {
  }

  /** Inverting flips every known decoded value. */
  lemma DecodeBoolInvert(register: Option<nat>, bit: Option<nat>)
    ensures register.Some? ==>
      DecodeBool(register, bit, true).value == !DecodeBool(register, bit, false).value
  {
  }

  /** A decoded numeric value: the exact integer when the scale is 1, a scaled real otherwise. */
  datatype Number = Exact(n: int) | Scaled(x: real)
  {
    function AsReal(): real
    {
      match this
      case Exact(n) => n as real
      case Scaled(x) => x
    }
  }

  /** The 16-bit two's-complement reading of `raw` when `signed`, `raw` itself otherwise. */
  function Signed16(raw: int, signed: bool): int
  {
    if signed && raw >= 0x8000 then raw - 0x1_0000 else raw
  }

  /** A signed reading of a word lies in [-32768, 32767], an unsigned one is the word. */
  lemma Signed16Range(raw: Word, signed: bool)
    ensures signed ==> -0x8000 <= Signed16(raw, signed) < 0x8000
    ensures signed ==> (Signed16(raw, signed) < 0 <==> raw >= 0x8000)
    ensures !signed ==> Signed16(raw, signed) == raw
  {
  }

  /**
   * `decode_number`: unknown for a missing register and for the sentinel
   * 0x7FFE, whatever the scale and signedness.
   */
  function DecodeNumber(register: Option<int>, scale: real, signed: bool): (r: Option<Number>)
    ensures r.None? <==> register.None? || register.value == NotAvailable
    ensures r.Some? ==> r.value.AsReal() == Signed16(register.value, signed) as real * scale
    ensures r.Some? ==> (r.value.Exact? <==> scale == 1.0)
  {
    if register.None? || register.value == NotAvailable then None
    else
      var v := Signed16(register.value, signed);
      if scale != 1.0 then Some(Scaled(v as real * scale)) else Some(Exact(v))
  }

  /** Python's `int(x)` on a float: truncation toward zero. */
  function Trunc(x: real): (r: int)
    ensures x >= 0.0 ==> r as real <= x < r as real + 1.0
    ensures x < 0.0 ==> r as real - 1.0 < x <= r as real
  {
    if x >= 0.0 then x.Floor else -((-x).Floor)
  }

  /**
   * `encode_number`: the quotient truncated toward zero; a negative result
   * is wrapped into 16-bit two's complement when `signed`. No range check.
   */
  function EncodeNumber(value: real, scale: real, signed: bool): int
    requires scale != 0.0
  {
    var encoded := Trunc(value / scale);
    if signed && encoded < 0 then 0x1_0000 + encoded else encoded
  }

  /**
   * Encoding the value of any 16-bit word other than the sentinel gives the
   * word back, for every non-zero scale and either signedness.
   */
  lemma EncodeDecodeRoundTrip(raw: Word, scale: real, signed: bool)
    requires raw != NotAvailable && scale != 0.0
    ensures DecodeNumber(Some(raw), scale, signed).Some?
    ensures EncodeNumber(DecodeNumber(Some(raw), scale, signed).value.AsReal(), scale, signed) == raw
  {
    var v := Signed16(raw, signed);
    var x := DecodeNumber(Some(raw), scale, signed).value.AsReal();
    assert x / scale == v as real;
  }

  /** Decoding is stable through one encode step (the physical-value round trip). */
  lemma DecodeEncodeDecode(raw: Word, scale: real, signed: bool)
    requires scale != 0.0
    ensures var d := DecodeNumber(Some(raw), scale, signed);
      d.Some? ==> DecodeNumber(Some(EncodeNumber(d.value.AsReal(), scale, signed)), scale, signed) == d
  {
    if raw != NotAvailable {
      EncodeDecodeRoundTrip(raw, scale, signed);
    }
  }

  /**
   * Where the truncated quotient is in the signed 16-bit range, a signed
   * encoding is a word whose signed reading is that quotient; negative
   * quotients land in [0x8000, 0xFFFF]. Unsigned encoding never wraps.
   */
  lemma EncodeRange(value: real, scale: real, signed: bool)
    requires scale != 0.0
    ensures var t := Trunc(value / scale);
      signed && -0x8000 <= t < 0x8000 ==>
        0 <= EncodeNumber(value, scale, signed) < 0x1_0000
        && Signed16(EncodeNumber(value, scale, signed), true) == t
        && (t < 0 <==> EncodeNumber(value, scale, signed) >= 0x8000)
    ensures !signed ==> EncodeNumber(value, scale, signed) == Trunc(value / scale)
  {
  }

  /** Encoding truncates toward zero rather than rounding. */
  lemma EncodeTruncates(value: real, scale: real, signed: bool)
    requires scale > 0.0 && value >= 0.0
    ensures var e := EncodeNumber(value, scale, signed);
      e as real * scale <= value < (e + 1) as real * scale
  {
    var q := value / scale;
    var e := EncodeNumber(value, scale, signed);
    assert e == Trunc(q);
    assert q * scale == value;
    assert e as real <= q < e as real + 1.0;
    MulMonotone(e as real, q, scale);
    MulStrictMonotone(q, (e + 1) as real, scale);
    assert value < (e + 1) as real * scale;
  }

  lemma MulMonotone(a: real, b: real, c: real)
    requires a <= b && c > 0.0
    ensures a * c <= b * c
  {
  }

  lemma MulStrictMonotone(a: real, b: real, c: real)
    requires a < b && c > 0.0
    ensures a * c < b * c
  {
  }

  /** The documented examples of the codec. */
  lemma CodecExamples()
    ensures DecodeNumber(Some(0x8000), 0.1, true) == Some(Scaled(-3276.8))
    ensures DecodeNumber(Some(0x8000), 0.1, false) == Some(Scaled(3276.8))
    ensures DecodeNumber(Some(NotAvailable), 0.1, true) == None
    ensures DecodeBool(Some(4), Some(2), false) == Some(true)
    ensures DecodeBool(Some(4), Some(2), true) == Some(false)
    ensures DecodeBool(None, Some(2), false) == None
  {
  }
}
