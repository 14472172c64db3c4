/**
 * What the general-purpose measurement translator promises: writing one field leaves the
 * others alone, absent keys leave their slots alone, the rubbish bits are always cleared,
 * in-range values read back as written, a write repeated is a write done once, and
 * out-of-range input is clamped or dropped without error.
 */
module GeneralPurposeMeasurementProperties {
  import opened Bitwise
  import opened PhpValues
  import opened FixedRange
  import opened Channels
  import opened GeneralPurposeMeasurement

  // ---------------------------------------------------------------------------------------
  // param2

  /** Two values in 0..7 with the same three low bits are equal. */
  lemma LowThreeBitsDetermine(a: int, b: int)
    requires 0 <= a < 8 && 0 <= b < 8
    requires forall k: nat :: k < 3 ==> Bit(a, k) == Bit(b, k)
    ensures a == b
  {
    assert Pow2(3) == 8;
    forall k: nat
      ensures Bit(a, k) == Bit(b, k)
    {
      if k >= 3 {
        BitAbove(a, 3, k);
        BitAbove(b, 3, k);
      }
    }
    BitsEqual(a, b);
  }

  /** The precision field of a written param2 is the precision the write asked for. */
  lemma WrittenPrecision(config: Config, value: int)
    ensures Param2Written(config, value) % 8 == PrecisionAfter(config, value)
  {
    var w := Param2Written(config, value);
    var p := PrecisionAfter(config, value);
    forall k: nat | k < 3
      ensures Bit(w % 8, k) == Bit(p, k)
    {
      LowBitsOfMod8(w, k);
      Param2WrittenBit(config, value, k);
    }
    LowThreeBitsDetermine(w % 8, p);
  }

  /** Every write of param2 clears bits 5 and 7, whatever keys the configuration holds. */
  lemma RubbishAlwaysCleared(config: Config, value: int)
    ensures !Bit(Param2Written(config, value), 5) && !Bit(Param2Written(config, value), 7)
  {
    Param2WrittenBit(config, value, 5);
    Param2WrittenBit(config, value, 7);
  }

  /** With no param2 key present, the new param2 is the old one with bits 5 and 7 cleared. */
  lemma NoParam2KeysOnlyClearsRubbish(config: Config, value: int)
    requires config.Keys !! Param2Keys
    ensures Param2Written(config, value) == And(value, Not(RubbishMask))
  {
    var w := Param2Written(config, value);
    RubbishStep(value, And(value, Not(RubbishMask)));
    forall k: nat
      ensures Bit(w, k) == Bit(And(value, Not(RubbishMask)), k)
    {
      Param2WrittenBit(config, value, k);
      if k < 3 {
        LowBitsOfMod8(value, k);
      }
    }
    BitsEqual(w, And(value, Not(RubbishMask)));
  }

  /** Bits 9 and up of param2 are never changed. */
  lemma HighBitsKept(config: Config, value: int, k: nat)
    requires k >= 9
    ensures Bit(Param2Written(config, value), k) == Bit(value, k)
  {
    Param2WrittenBit(config, value, k);
  }

  /**
   * Writing only the precision stores max(0, min(p, 5)) in bits 0-2 and keeps every bit
   * other than 0-2, 5 and 7.
   */
  lemma PrecisionWriteIsolated(config: Config, value: int)
    requires Precision in config
    requires forall key :: key in Param2Keys && key in config ==> key == Precision
    ensures Param2Written(config, value) % 8 == ClampPrecision(config[Precision])
    ensures forall k: nat :: 3 <= k && k != 5 && k != 7 ==>
      Bit(Param2Written(config, value), k) == Bit(value, k)
  {
    WrittenPrecision(config, value);
    forall k: nat | 3 <= k && k != 5 && k != 7
      ensures Bit(Param2Written(config, value), k) == Bit(value, k)
    {
      Param2WrittenBit(config, value, k);
    }
  }

  /** The flag keys and the bit each one owns. */
  predicate FlagBit(key: string, j: nat)
  {
    || (key == StoreMeasurementHistory && j == 3)
    || (key == ChartType && j == 4)
    || (key == ChartDataSourceType && j == 6)
    || (key == InterpolateMeasurements && j == 8)
  }

  /**
   * Writing only one flag sets or clears its own bit, following the value's truth, and keeps
   * every bit other than that one, 5 and 7.
   */
  lemma FlagWriteIsolated(config: Config, value: int, key: string, j: nat)
    requires FlagBit(key, j) && key in config
    requires forall other :: other in Param2Keys && other in config ==> other == key
    ensures Bit(Param2Written(config, value), j) == Truthy(config[key])
    ensures forall k: nat :: k != j && k != 5 && k != 7 ==>
      Bit(Param2Written(config, value), k) == Bit(value, k)
  {
    Param2WrittenBit(config, value, j);
    forall k: nat | k != j && k != 5 && k != 7
      ensures Bit(Param2Written(config, value), k) == Bit(value, k)
    {
      Param2WrittenBit(config, value, k);
      if k < 3 {
        LowBitsOfMod8(value, k);
      }
    }
  }

  /** The field a param2 key reads back after it is written with v. */
  function Param2FieldRead(key: string, v: Value): Value
  {
    if key == Precision then Int(ClampPrecision(v))
    else if key == ChartType || key == ChartDataSourceType then Int(if Truthy(v) then 1 else 0)
    else Bool(Truthy(v))
  }

  /**
   * Decoding a written param2 gives, for each key present, the value written (clamped or
   * converted to its field's type) and, for each key absent, the field decoded before.
   */
  lemma Param2RoundTrip(config: Config, value: int)
    ensures forall key :: key in Param2Keys ==>
      GetValuesFromParam2(Param2Written(config, value))[key] ==
        if key in config then Param2FieldRead(key, config[key]) else GetValuesFromParam2(value)[key]
  {
    forall key | key in Param2Keys
      ensures GetValuesFromParam2(Param2Written(config, value))[key] ==
        if key in config then Param2FieldRead(key, config[key]) else GetValuesFromParam2(value)[key]
    {
      Param2RoundTripKey(config, value, key);
    }
  }

  /** Param2RoundTrip for one key. */
  lemma Param2RoundTripKey(config: Config, value: int, key: string)
    requires key in Param2Keys
    ensures GetValuesFromParam2(Param2Written(config, value))[key] ==
      if key in config then Param2FieldRead(key, config[key]) else GetValuesFromParam2(value)[key]
  {
    var w := Param2Written(config, value);
    var before := GetValuesFromParam2(value);
    var after := GetValuesFromParam2(w);
    if key == Precision {
      WrittenPrecision(config, value);
    } else if key == StoreMeasurementHistory {
      Param2WrittenBit(config, value, 3);
    } else if key == ChartType {
      Param2WrittenBit(config, value, 4);
    } else if key == ChartDataSourceType {
      Param2WrittenBit(config, value, 6);
    } else {
      Param2WrittenBit(config, value, 8);
    }
  }

  /** A precision in 0..5 and flags of their decoded types read back exactly as written. */
  predicate CanonicalParam2Value(key: string, v: Value)
  {
    if key == Precision then v.Int? && 0 <= v.i <= MaxPrecision
    else if key == ChartType || key == ChartDataSourceType then v == Int(0) || v == Int(1)
    else v.Bool?
  }

  lemma CanonicalParam2ReadsBack(key: string, v: Value)
    requires key in Param2Keys && CanonicalParam2Value(key, v)
    ensures Param2FieldRead(key, v) == v
  {
  }

  /** Writing the same configuration twice gives what writing it once gives. */
  lemma Param2Idempotent(config: Config, value: int)
    ensures Param2Written(config, Param2Written(config, value)) == Param2Written(config, value)
  {
    var w := Param2Written(config, value);
    var w2 := Param2Written(config, w);
    WrittenPrecision(config, value);
    forall k: nat
      ensures Bit(w2, k) == Bit(w, k)
    {
      Param2WrittenBit(config, w, k);
      Param2WrittenBit(config, value, k);
      if k < 3 && Precision !in config {
        LowBitsOfMod8(w, k);
      }
    }
    BitsEqual(w2, w);
  }

  /**
   * Starting from param2 = 0, writing precision 3, storeMeasurementHistory true and
   * chartType 1 decodes to precision 3, history on, bar chart, differential source and no
   * interpolation.
   */
  lemma Param2Scenario()
    ensures GetValuesFromParam2(Param2Written(
      map[Precision := Int(3), StoreMeasurementHistory := Bool(true), ChartType := Int(1)], 0)) ==
      map[Precision := Int(3), StoreMeasurementHistory := Bool(true), ChartType := Int(1),
          ChartDataSourceType := Int(0), InterpolateMeasurements := Bool(false)]
  {
    var config := map[Precision := Int(3), StoreMeasurementHistory := Bool(true), ChartType := Int(1)];
    Param2RoundTrip(config, 0);
    assert !Bit(0, 6) && !Bit(0, 8);
    var r := GetValuesFromParam2(Param2Written(config, 0));
    var expected := map[Precision := Int(3), StoreMeasurementHistory := Bool(true), ChartType := Int(1),
                        ChartDataSourceType := Int(0), InterpolateMeasurements := Bool(false)];
    assert r.Keys == expected.Keys;
    assert forall key :: key in r ==> r[key] == expected[key];
  }

  // ---------------------------------------------------------------------------------------
  // Fixed-point fields

  /** x has at most four decimal digits. */
  predicate FourDecimals(x: real)
  {
    (x * FixedScale).Floor as real == x * FixedScale
  }

  /** An in-range value with at most four decimals reads back exactly. */
  lemma FixedRoundTrip(x: real)
    requires FixedMin <= x <= FixedMax && FourDecimals(x)
    ensures DecodeFixed(EncodeFixed(Float(x))) == x
  {
    var n := (x * FixedScale).Floor;
    if x < 0.0 {
      assert (-(x * FixedScale)).Floor == -n;
    }
    assert EncodeFixed(Float(x)) == n;
  }

  /** Writing back a decoded slot value restores it, for every slot value in -10^10..10^10. */
  lemma FixedReencode(n: int)
    requires -10_000_000_000 <= n <= 10_000_000_000
    ensures EncodeFixed(Float(DecodeFixed(n))) == n
  {
    var x := DecodeFixed(n);
    assert x * FixedScale == n as real;
    assert (x * FixedScale).Floor == n;
    FixedRoundTrip(x);
  }

  /** Out-of-range values are silently clamped to the nearest bound. */
  lemma FixedClamped(v: Value)
    ensures ToNumber(v) > FixedMax ==> EncodeFixed(v) == 10_000_000_000
    ensures ToNumber(v) < FixedMin ==> EncodeFixed(v) == -10_000_000_000
  {
    if ToNumber(v) > FixedMax {
      assert GetValueInRange(ToNumber(v), FixedMin, FixedMax) == FixedMax;
    }
    if ToNumber(v) < FixedMin {
      assert GetValueInRange(ToNumber(v), FixedMin, FixedMax) == FixedMin;
    }
  }

  /** initialValue 2000000 is stored as 1000000 x 10000 and reads back as 1000000. */
  lemma FixedClampScenario()
    ensures EncodeFixed(Int(2000000)) == 10_000_000_000
    ensures DecodeFixed(EncodeFixed(Int(2000000))) == 1000000.0
  {
    FixedClamped(Int(2000000));
  }

  /** intval truncates: 12.34567 is stored as 123456 and reads back as 12.3456. */
  lemma FixedTruncationScenario()
    ensures EncodeFixed(Float(12.34567)) == 123456
    ensures DecodeFixed(EncodeFixed(Float(12.34567))) == 12.3456
  {
    assert 12.34567 * FixedScale == 123456.7;
    assert (123456.7).Floor == 123456;
  }

  // ---------------------------------------------------------------------------------------
  // Text fields

  /** The stored text is the value given, or the old text when the value is too long. */
  lemma TextCap(text: string, config: Config, key: string)
    requires key in config
    ensures |TextOf(config[key])| <= MaxTextLength ==> TextAfter(text, config, key) == TextOf(config[key])
    ensures |TextOf(config[key])| > MaxTextLength ==> TextAfter(text, config, key) == text
  {
  }

  /** A unitPrefix of "meter" is dropped: a stored "kg" is still reported. */
  lemma TextCapScenario(p: ChannelParams)
    requires p.textParam1 == "kg"
    ensures GetConfigFromParams(ParamsAfterConfig(p, map[UnitPrefix := Str("meter")]))[UnitPrefix] == Str("kg")
  {
    var q := ParamsAfterConfig(p, map[UnitPrefix := Str("meter")]);
    assert |TextOf(Str("meter"))| == 5;
    assert q.textParam1 == "kg";
    assert UnitPrefix !in GetValuesFromParam2(q.param2);
  }

  // ---------------------------------------------------------------------------------------
  // The whole translator

  /** Keys absent from the configuration leave their slots untouched; the function id and param4 never change. */
  lemma AbsentKeysUntouched(p: ChannelParams, config: Config)
    ensures ParamsAfterConfig(p, config).functionId == p.functionId
    ensures ParamsAfterConfig(p, config).param4 == p.param4
    ensures InitialValue !in config ==> ParamsAfterConfig(p, config).param1 == p.param1
    ensures ImpulsesPerUnit !in config ==> ParamsAfterConfig(p, config).param3 == p.param3
    ensures UnitPrefix !in config ==> ParamsAfterConfig(p, config).textParam1 == p.textParam1
    ensures UnitSuffix !in config ==> ParamsAfterConfig(p, config).textParam2 == p.textParam2
  {
  }

  /** A configuration with none of the translator's keys changes only the rubbish bits. */
  lemma NoKeysOnlyClearsRubbish(p: ChannelParams, config: Config)
    requires config.Keys !! AllKeys
    ensures ParamsAfterConfig(p, config) == p.(param2 := And(p.param2, Not(RubbishMask)))
  {
    NoParam2KeysOnlyClearsRubbish(config, p.param2);
  }

  /** setParamsFromConfig twice with the same configuration is the same as once. */
  lemma WriteIdempotent(p: ChannelParams, config: Config)
    ensures ParamsAfterConfig(ParamsAfterConfig(p, config), config) == ParamsAfterConfig(p, config)
  {
    Param2Idempotent(config, p.param2);
  }

  /** A configuration whose every translator key holds a value the slots represent exactly. */
  predicate Canonical(config: Config)
  {
    && (forall key :: key in config && key in Param2Keys ==> CanonicalParam2Value(key, config[key]))
    && (InitialValue in config ==> CanonicalFixed(config[InitialValue]))
    && (ImpulsesPerUnit in config ==> CanonicalFixed(config[ImpulsesPerUnit]))
    && (UnitPrefix in config ==> CanonicalText(config[UnitPrefix]))
    && (UnitSuffix in config ==> CanonicalText(config[UnitSuffix]))
  }

  predicate CanonicalFixed(v: Value)
  {
    v.Float? && FixedMin <= v.r <= FixedMax && FourDecimals(v.r)
  }

  predicate CanonicalText(v: Value)
  {
    v.Str? && |v.s| <= MaxTextLength
  }

  /**
   * Round trip: after writing a canonical configuration, every key written reads back as
   * written, and every key not written reads back as it did before.
   */
  lemma WriteThenRead(p: ChannelParams, config: Config)
    requires Canonical(config)
    ensures forall key :: key in AllKeys && key in config ==>
      GetConfigFromParams(ParamsAfterConfig(p, config))[key] == config[key]
    ensures forall key :: key in AllKeys && key !in config ==>
      GetConfigFromParams(ParamsAfterConfig(p, config))[key] == GetConfigFromParams(p)[key]
  {
    forall key | key in AllKeys
      ensures GetConfigFromParams(ParamsAfterConfig(p, config))[key] ==
        if key in config then config[key] else GetConfigFromParams(p)[key]
    {
      if key in Param2Keys {
        WriteThenReadParam2Key(p, config, key);
      } else {
        WriteThenReadSlots(p, config);
      }
    }
  }

  /** WriteThenRead for a param2 key. */
  lemma WriteThenReadParam2Key(p: ChannelParams, config: Config, key: string)
    requires Canonical(config) && key in Param2Keys
    ensures GetConfigFromParams(ParamsAfterConfig(p, config))[key] ==
      if key in config then config[key] else GetConfigFromParams(p)[key]
  {
    var q := ParamsAfterConfig(p, config);
    Param2RoundTripKey(config, p.param2, key);
    if key in config {
      CanonicalParam2ReadsBack(key, config[key]);
    }
  }

  /** WriteThenRead for the fixed-point and text keys. */
  lemma WriteThenReadSlots(p: ChannelParams, config: Config)
    requires Canonical(config)
    ensures forall key :: key in {InitialValue, ImpulsesPerUnit, UnitPrefix, UnitSuffix} ==>
      GetConfigFromParams(ParamsAfterConfig(p, config))[key] ==
        if key in config then config[key] else GetConfigFromParams(p)[key]
  {
    var q := ParamsAfterConfig(p, config);
    if InitialValue in config {
      FixedRoundTrip(config[InitialValue].r);
    }
    if ImpulsesPerUnit in config {
      FixedRoundTrip(config[ImpulsesPerUnit].r);
    }
  }

  /** Raw slots that reading and writing back leaves exactly as they are. */
  predicate Normalized(p: ChannelParams)
  {
    && -10_000_000_000 <= p.param1 <= 10_000_000_000
    && -10_000_000_000 <= p.param3 <= 10_000_000_000
    && Param2Normalized(p.param2)
  }

  /** A param2 with a precision of at most 5 and the rubbish bits clear. */
  predicate Param2Normalized(v: int)
  {
    v % 8 <= MaxPrecision && !Bit(v, 5) && !Bit(v, 7)
  }

  /** A decoded fixed-point slot re-encodes to itself exactly when it is within range. */
  lemma FixedReapply(n: int)
    ensures EncodeFixed(Float(DecodeFixed(n))) == n <==> -10_000_000_000 <= n <= 10_000_000_000
  {
    if -10_000_000_000 <= n <= 10_000_000_000 {
      FixedReencode(n);
    }
  }

  /** Writing back the decoded param2 fields is a no-op exactly when param2 is normalized. */
  lemma Param2Reapply(config: Config, v: int)
    requires forall key :: key in Param2Keys ==> key in config && config[key] == GetValuesFromParam2(v)[key]
    ensures Param2Written(config, v) == v <==> Param2Normalized(v)
  {
    var w := Param2Written(config, v);
    WrittenPrecision(config, v);
    assert config[Precision] == Int(v % 8);
    RubbishAlwaysCleared(config, v);
    if Param2Normalized(v) {
      forall k: nat
        ensures Bit(w, k) == Bit(v, k)
      {
        Param2WrittenBit(config, v, k);
        if k < 3 {
          LowBitsOfMod8(v, k);
        }
      }
      BitsEqual(w, v);
    }
  }

  /**
   * Writing back the configuration read from a channel is a no-op on its raw slots exactly
   * when the slots are normalized: fixed-point slots within range, a precision of at most 5
   * and the rubbish bits clear.
   */
  lemma ReadThenWrite(p: ChannelParams)
    ensures ParamsAfterConfig(p, GetConfigFromParams(p)) == p <==> Normalized(p)
  {
    var c := GetConfigFromParams(p);
    FixedReapply(p.param1);
    FixedReapply(p.param3);
    Param2Reapply(c, p.param2);
  }
}
