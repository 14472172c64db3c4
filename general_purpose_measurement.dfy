/**
 * The channel-parameter translator for the general-purpose measurement function.
 *
 * It maps a channel's raw slots to a configuration array and back:
 *   initialValue            <-> param1, a fixed-point number with four decimals (x 10000)
 *   impulsesPerUnit         <-> param3, likewise
 *   unitPrefix, unitSuffix  <-> textParam1, textParam2, at most four characters
 *   precision               <-> param2 bits 0-2 (0..5)
 *   storeMeasurementHistory <-> param2 bit 3
 *   chartType               <-> param2 bit 4 (0 linear, 1 bar)
 *   chartDataSourceType     <-> param2 bit 6 (0 differential, 1 standard)
 *   interpolateMeasurements <-> param2 bit 8
 * Bits 5 and 7 of param2 are "rubbish": every write clears them.
 */
module GeneralPurposeMeasurement {
  import opened Bitwise
  import opened PhpValues
  import opened FixedRange
  import opened Channels

  /** ChannelFunction::GENERAL_PURPOSE_MEASUREMENT. */
  const GeneralPurposeMeasurementFunction: int := 520

  const InitialValue: string := "initialValue"
  const ImpulsesPerUnit: string := "impulsesPerUnit"
  const UnitPrefix: string := "unitPrefix"
  const UnitSuffix: string := "unitSuffix"
  const Precision: string := "precision"
  const StoreMeasurementHistory: string := "storeMeasurementHistory"
  const ChartType: string := "chartType"
  const ChartDataSourceType: string := "chartDataSourceType"
  const InterpolateMeasurements: string := "interpolateMeasurements"

  /** The keys packed into param2. */
  const Param2Keys: set<string> :=
    {Precision, StoreMeasurementHistory, ChartType, ChartDataSourceType, InterpolateMeasurements}

  /** Every key this translator reads and writes. */
  const AllKeys: set<string> := Param2Keys + {InitialValue, ImpulsesPerUnit, UnitPrefix, UnitSuffix}

  const PrecisionMask: int := 0x7             // 0b000000111
  const StoreHistoryMask: int := 0x8          // 0b000001000
  const ChartTypeMask: int := 0x10            // 0b000010000
  const ChartDataSourceMask: int := 0x40      // 0b001000000
  const InterpolateMask: int := 0x100         // 0b100000000
  const RubbishMask: int := 0xA0              // 0b010100000

  const MaxPrecision: int := 5
  const FixedMin: real := -1000000.0
  const FixedMax: real := 1000000.0
  const FixedScale: real := 10000.0
  const MaxTextLength: nat := 4

  function Min(a: int, b: int): int { if a < b then a else b }
  function Max(a: int, b: int): int { if a < b then b else a }

  // ---------------------------------------------------------------------------------------
  // Fixed-point fields (param1, param3)

  /** The slot value written for a fixed-point key: `intval(getValueInRange($v, -1e6, 1e6) * 10000)`. */
  function EncodeFixed(v: Value): (n: int)
    ensures -10_000_000_000 <= n <= 10_000_000_000
  {
    Trunc(GetValueInRange(ToNumber(v), FixedMin, FixedMax) * FixedScale)
  }

  /** The number reported for a fixed-point slot: the slot divided by 10000. */
  function DecodeFixed(n: int): (x: real)
    ensures x * FixedScale == n as real
    ensures -10_000_000_000 <= n <= 10_000_000_000 ==> FixedMin <= x <= FixedMax
  {
    n as real / FixedScale
  }

  // ---------------------------------------------------------------------------------------
  // Text fields (textParam1, textParam2)

  /**
   * A text is stored only if it has at most four characters: a string by its length, an
   * integer when it is in -999..9999, a float when its truncation is, null and booleans always.
   */
  predicate TextAccepted(v: Value)
    ensures v.Str? ==> (TextAccepted(v) <==> |v.s| <= MaxTextLength)
    ensures v.Int? ==> (TextAccepted(v) <==> -999 <= v.i <= 9999)
    ensures v.Float? ==> (TextAccepted(v) <==> -999 <= Trunc(v.r) <= 9999)
    ensures v.Null? || v.Bool? ==> TextAccepted(v)
  {
    IntTextFitsFour(if v.Int? then v.i else if v.Float? then Trunc(v.r) else 0);
    |TextOf(v)| <= MaxTextLength
  }

  /** The text slot after a write of `key`: replaced when the key is present and accepted. */
  function TextAfter(text: string, config: Config, key: string): (r: string)
    ensures |r| <= MaxTextLength || r == text
  {
    if key in config && TextAccepted(config[key]) then TextOf(config[key]) else text
  }

  // ---------------------------------------------------------------------------------------
  // param2

  /** The precision written: `max(0, min(intval($p), 5))`. */
  function ClampPrecision(v: Value): (p: int)
    ensures 0 <= p <= MaxPrecision
    ensures 0 <= IntVal(v) <= MaxPrecision ==> p == IntVal(v)
    ensures IntVal(v) < 0 ==> p == 0
    ensures MaxPrecision < IntVal(v) ==> p == MaxPrecision
  {
    Max(0, Min(IntVal(v), MaxPrecision))
  }

  /** A flag bit after a write: the key's truth value when present, bit k of `value` otherwise. */
  predicate FlagAfter(config: Config, key: string, value: int, k: nat)
  {
    if key in config then Truthy(config[key]) else Bit(value, k)
  }

  /** The precision bits after a write: the clamped precision when present, `value`'s otherwise. */
  function PrecisionAfter(config: Config, value: int): (p: int)
    ensures 0 <= p < 8
    ensures Precision in config ==> p <= MaxPrecision
  {
    if Precision in config then ClampPrecision(config[Precision]) else value % 8
  }

  /**
   * What a write of `config` makes of param2 `value`, stated bit by bit: `value` with its
   * nine low bits replaced, the precision in bits 0-2, the four flags in bits 3, 4, 6 and 8,
   * zeros in bits 5 and 7, and every higher bit kept.
   */
  function Param2Written(config: Config, value: int): (r: int)
    ensures r / 512 == value / 512
    ensures IsInt64(value) ==> IsInt64(r)
  {
    var p := PrecisionAfter(config, value);
    var low := [
      Bit(p, 0), Bit(p, 1), Bit(p, 2),
      FlagAfter(config, StoreMeasurementHistory, value, 3),
      FlagAfter(config, ChartType, value, 4),
      false,
      FlagAfter(config, ChartDataSourceType, value, 6),
      false,
      FlagAfter(config, InterpolateMeasurements, value, 8)];
    assert Pow2(|low|) == 512;
    var q := value / 512;
    var b := BitsValue(low);
    DivUnique(512 * q + b, 512, q, b);
    assert value == 512 * q + value % 512;
    assert IsInt64(value) ==> -0x40_0000_0000_0000 <= q < 0x40_0000_0000_0000;
    WithLowBits(value, low)
  }

  /** Bit k of the written param2, case by case. */
  lemma Param2WrittenBit(config: Config, value: int, k: nat)
    ensures Bit(Param2Written(config, value), k) ==
      if k < 3 then Bit(PrecisionAfter(config, value), k)
      else if k == 3 then FlagAfter(config, StoreMeasurementHistory, value, 3)
      else if k == 4 then FlagAfter(config, ChartType, value, 4)
      else if k == 6 then FlagAfter(config, ChartDataSourceType, value, 6)
      else if k == 8 then FlagAfter(config, InterpolateMeasurements, value, 8)
      else if k == 5 || k == 7 then false
      else Bit(value, k)
  {
    var p := PrecisionAfter(config, value);
    WithLowBitsBits(value, [
      Bit(p, 0), Bit(p, 1), Bit(p, 2),
      FlagAfter(config, StoreMeasurementHistory, value, 3),
      FlagAfter(config, ChartType, value, 4),
      false,
      FlagAfter(config, ChartDataSourceType, value, 6),
      false,
      FlagAfter(config, InterpolateMeasurements, value, 8)], k);
  }

  /** The bits of the masks used on param2. */
  lemma MaskBits(k: nat)
    ensures Bit(PrecisionMask, k) == (k < 3)
    ensures Bit(StoreHistoryMask, k) == (k == 3)
    ensures Bit(ChartTypeMask, k) == (k == 4)
    ensures Bit(ChartDataSourceMask, k) == (k == 6)
    ensures Bit(InterpolateMask, k) == (k == 8)
    ensures Bit(RubbishMask, k) == (k == 5 || k == 7)
  {
    assert Pow2(3) == 8 && Pow2(4) == 16 && Pow2(6) == 64 && Pow2(8) == 256;
    LowOnesBits(3, k);
    Pow2Bits(3, k);
    Pow2Bits(4, k);
    Pow2Bits(6, k);
    Pow2Bits(8, k);
    var rubbish := [false, false, false, false, false, true, false, true];
    assert BitsValue(rubbish) == RubbishMask;
    BitsValueBits(rubbish, k);
  }

  /** `($x & ~$mask) | $n`, bit by bit. */
  lemma ClearThenSetBit(x: int, mask: int, n: int, k: nat)
    ensures Bit(Or(And(x, Not(mask)), n), k) == ((Bit(x, k) && !Bit(mask, k)) || Bit(n, k))
  {
    BitOr(And(x, Not(mask)), n, k);
    BitAnd(x, Not(mask), k);
    BitNot(mask, k);
  }

  /** The first step of setValuesToParam2 clears bits 5 and 7 and nothing else. */
  lemma RubbishStep(x: int, y: int)
    requires y == And(x, Not(RubbishMask))
    ensures forall k: nat :: Bit(y, k) == (Bit(x, k) && k != 5 && k != 7)
  {
    forall k: nat
      ensures Bit(y, k) == (Bit(x, k) && k != 5 && k != 7)
    {
      MaskBits(k);
      BitAnd(x, Not(RubbishMask), k);
      BitNot(RubbishMask, k);
    }
  }

  /** The precision step: when the key is present, bits 0-2 become those of p, others stay. */
  lemma PrecisionStep(x: int, present: bool, p: int, y: int)
    requires 0 <= p < 8
    requires y == if present then Or(And(x, Not(PrecisionMask)), p) else x
    ensures forall k: nat :: Bit(y, k) == if present && k < 3 then Bit(p, k) else Bit(x, k)
  {
    forall k: nat
      ensures Bit(y, k) == if present && k < 3 then Bit(p, k) else Bit(x, k)
    {
      if present {
        MaskBits(k);
        ClearThenSetBit(x, PrecisionMask, p, k);
        if k >= 3 {
          assert Pow2(3) == 8;
          BitAbove(p, 3, k);
        }
      }
    }
  }

  /** A flag step: when the key is present, bit j becomes the flag, others stay. */
  lemma FlagStep(x: int, present: bool, flag: bool, j: nat, y: int)
    requires y == if present then Or(And(x, Not(Pow2(j))), if flag then Shl(1, j) else 0) else x
    ensures forall k: nat :: Bit(y, k) == if present && k == j then flag else Bit(x, k)
  {
    forall k: nat
      ensures Bit(y, k) == if present && k == j then flag else Bit(x, k)
    {
      if present {
        Pow2Bits(j, k);
        ClearThenSetBit(x, Pow2(j), if flag then Shl(1, j) else 0, k);
      }
    }
  }

  /**
   * The six steps of setValuesToParam2, each as it is written, compose to Param2Written:
   * r0 after clearing the rubbish bits, r1 after the precision, r2..r5 after each flag.
   */
  lemma Param2Steps(config: Config, value: int, r0: int, r1: int, r2: int, r3: int, r4: int, r5: int)
    requires r0 == And(value, Not(RubbishMask))
    requires r1 == if Precision in config
      then Or(And(r0, Not(PrecisionMask)), ClampPrecision(config[Precision])) else r0
    requires r2 == if StoreMeasurementHistory in config
      then Or(And(r1, Not(StoreHistoryMask)), if Truthy(config[StoreMeasurementHistory]) then Shl(1, 3) else 0) else r1
    requires r3 == if ChartType in config
      then Or(And(r2, Not(ChartTypeMask)), if Truthy(config[ChartType]) then Shl(1, 4) else 0) else r2
    requires r4 == if ChartDataSourceType in config
      then Or(And(r3, Not(ChartDataSourceMask)), if Truthy(config[ChartDataSourceType]) then Shl(1, 6) else 0) else r3
    requires r5 == if InterpolateMeasurements in config
      then Or(And(r4, Not(InterpolateMask)), if Truthy(config[InterpolateMeasurements]) then Shl(1, 8) else 0) else r4
    ensures r5 == Param2Written(config, value)
  {
    assert Pow2(3) == StoreHistoryMask && Pow2(4) == ChartTypeMask;
    assert Pow2(6) == ChartDataSourceMask && Pow2(8) == InterpolateMask;
    RubbishStep(value, r0);
    PrecisionStep(r0, Precision in config, PrecisionAfter(config, value), r1);
    FlagStep(r1, StoreMeasurementHistory in config,
      StoreMeasurementHistory in config && Truthy(config[StoreMeasurementHistory]), 3, r2);
    FlagStep(r2, ChartType in config, ChartType in config && Truthy(config[ChartType]), 4, r3);
    FlagStep(r3, ChartDataSourceType in config,
      ChartDataSourceType in config && Truthy(config[ChartDataSourceType]), 6, r4);
    FlagStep(r4, InterpolateMeasurements in config,
      InterpolateMeasurements in config && Truthy(config[InterpolateMeasurements]), 8, r5);
    forall k: nat
      ensures Bit(r5, k) == Bit(Param2Written(config, value), k)
    {
      Param2WrittenBit(config, value, k);
      if Precision !in config && k < 3 {
        LowBitsOfMod8(value, k);
      }
    }
    BitsEqual(r5, Param2Written(config, value));
  }

  /**
   * `setValuesToParam2`: clears the rubbish bits, then for each param2 key present clears
   * its bits and or's in the new value. The result is exactly the value Param2Written describes.
   */
  method SetValuesToParam2(config: Config, value: int) returns (r: int)
    ensures r == Param2Written(config, value)
  {
    r := And(value, Not(RubbishMask)); // clear all rubbish
    ghost var r0 := r;
    if Precision in config {
      r := And(r, Not(PrecisionMask));
      r := Or(r, ClampPrecision(config[Precision]));
    }
    ghost var r1 := r;
    if StoreMeasurementHistory in config {
      r := And(r, Not(StoreHistoryMask));
      r := Or(r, if Truthy(config[StoreMeasurementHistory]) then Shl(1, 3) else 0);
    }
    ghost var r2 := r;
    if ChartType in config {
      r := And(r, Not(ChartTypeMask));
      r := Or(r, if Truthy(config[ChartType]) then Shl(1, 4) else 0);
    }
    ghost var r3 := r;
    if ChartDataSourceType in config {
      r := And(r, Not(ChartDataSourceMask));
      r := Or(r, if Truthy(config[ChartDataSourceType]) then Shl(1, 6) else 0);
    }
    ghost var r4 := r;
    if InterpolateMeasurements in config {
      r := And(r, Not(InterpolateMask));
      r := Or(r, if Truthy(config[InterpolateMeasurements]) then Shl(1, 8) else 0);
    }
    Param2Steps(config, value, r0, r1, r2, r3, r4, r);
  }

  /** The low three bits of `value % 8` are those of value. */
  lemma LowBitsOfMod8(value: int, k: nat)
    requires k < 3
    ensures Bit(value % 8, k) == Bit(value, k)
  {
    assert Pow2(3) == 8;
    AndLowMask(value, 3);
    BitAnd(value, PrecisionMask, k);
    MaskBits(k);
  }

  /**
   * `getValuesFromParam2`: the five param2 fields. Defined for every integer; the precision
   * is the remainder modulo 8 (for a negative value too, as two's complement gives) and each
   * flag is one bit.
   */
  function GetValuesFromParam2(value: int): (r: Config)
    ensures r.Keys == Param2Keys
    ensures r[Precision] == Int(value % 8)
    ensures r[StoreMeasurementHistory] == Bool(Bit(value, 3))
    ensures r[ChartType] == Int(if Bit(value, 4) then 1 else 0)
    ensures r[ChartDataSourceType] == Int(if Bit(value, 6) then 1 else 0)
    ensures r[InterpolateMeasurements] == Bool(Bit(value, 8))
  {
    assert Pow2(0) == 1 && Pow2(1) == 2 && Pow2(3) == 8 && Pow2(8) == 256;
    AndLowMask(value, 3);
    AndSingleBit(value, 3);
    AndLowMask(Shr(value, 4), 1);
    AndLowMask(Shr(value, 6), 1);
    AndSingleBit(value, 8);
    map[
      Precision := Int(And(value, PrecisionMask)),
      StoreMeasurementHistory := Bool(And(value, StoreHistoryMask) != 0),
      ChartType := Int(And(Shr(value, 4), 1)),
      ChartDataSourceType := Int(And(Shr(value, 6), 1)),
      InterpolateMeasurements := Bool(And(value, InterpolateMask) != 0)]
  }

  // ---------------------------------------------------------------------------------------
  // The translator

  /** `getConfigFromParams`: the configuration a channel's raw slots stand for. */
  function GetConfigFromParams(p: ChannelParams): (c: Config)
    ensures c.Keys == AllKeys
    ensures c[InitialValue] == Float(DecodeFixed(p.param1))
    ensures c[ImpulsesPerUnit] == Float(DecodeFixed(p.param3))
    ensures c[UnitPrefix] == Str(p.textParam1)
    ensures c[UnitSuffix] == Str(p.textParam2)
    ensures forall key :: key in Param2Keys ==> c[key] == GetValuesFromParam2(p.param2)[key]
  {
    var r := GetValuesFromParam2(p.param2);
    assert InitialValue !in r && ImpulsesPerUnit !in r && UnitPrefix !in r && UnitSuffix !in r;
    map[
      InitialValue := Float(DecodeFixed(p.param1)),
      ImpulsesPerUnit := Float(DecodeFixed(p.param3)),
      UnitPrefix := Str(p.textParam1),
      UnitSuffix := Str(p.textParam2)]
    + GetValuesFromParam2(p.param2)
  }

  /** The raw slots after `setParamsFromConfig`; absent keys leave their slots as they were. */
  function ParamsAfterConfig(p: ChannelParams, config: Config): (q: ChannelParams)
    ensures q.functionId == p.functionId && q.param4 == p.param4
    ensures ValidParams(p) ==> ValidParams(q)
  {
    p.(
      param1 := if InitialValue in config then EncodeFixed(config[InitialValue]) else p.param1,
      param2 := Param2Written(config, p.param2),
      param3 := if ImpulsesPerUnit in config then EncodeFixed(config[ImpulsesPerUnit]) else p.param3,
      textParam1 := TextAfter(p.textParam1, config, UnitPrefix),
      textParam2 := TextAfter(p.textParam2, config, UnitSuffix))
  }

  /** `setParamsFromConfig`: writes the slots of the keys present in `config`, in place. */
  method SetParamsFromConfig(channel: Channel, config: Config)
    requires channel.Valid()
    modifies channel
    ensures channel.Valid()
    ensures channel.Params() == ParamsAfterConfig(old(channel.Params()), config)
  {
    ghost var p := channel.Params();
    if InitialValue in config {
      channel.param1 := EncodeFixed(config[InitialValue]);
    }
    assert channel.Params() == p.(param1 := ParamsAfterConfig(p, config).param1);
    var param2 := SetValuesToParam2(config, channel.param2);
    channel.param2 := param2;
    if ImpulsesPerUnit in config {
      channel.param3 := EncodeFixed(config[ImpulsesPerUnit]);
    }
    ghost var q := ParamsAfterConfig(p, config);
    assert channel.Params() == q.(textParam1 := p.textParam1, textParam2 := p.textParam2);
    if UnitPrefix in config {
      if TextAccepted(config[UnitPrefix]) {
        channel.textParam1 := TextOf(config[UnitPrefix]);
      }
    }
    assert channel.Params() == q.(textParam2 := p.textParam2);
    if UnitSuffix in config {
      if TextAccepted(config[UnitSuffix]) {
        channel.textParam2 := TextOf(config[UnitSuffix]);
      }
    }
  }

  /** `supports`: this translator handles exactly the general-purpose measurement function. */
  predicate Supports(channel: Channel)
    reads channel`functionId
    ensures Supports(channel) <==> channel.functionId == GeneralPurposeMeasurementFunction
  {
    channel.functionId in [GeneralPurposeMeasurementFunction]
  }
}
