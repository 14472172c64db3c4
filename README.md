# General-purpose measurement channel parameters

This project models SUPLA's translator between the raw parameter slots of a
general-purpose measurement channel and the configuration it shows to the
API. It covers `param1`..`param4`, `textParam1` and `textParam2`.

- `initialValue` and `impulsesPerUnit` are fixed-point numbers. Each is clamped
  to ±1 000 000 and stored times 10 000 in `param1` and `param3`.
- The unit prefix and suffix are short texts of at most four characters.
- Five settings are packed as bit fields of `param2`:
  - precision: bits 0-2;
  - store measurement history: bit 3;
  - chart type: bit 4;
  - chart data source type: bit 6;
  - interpolate measurements: bit 8.

Bits 5 and 7 are "rubbish", cleared on every write.

Modules:

- `Bitwise`: PHP's integer operators `&`, `|`, `~`, `>>`, `<<` on unbounded
  integers in two's complement (`<<` without 64-bit wrap-around). It proves
  the bit-level facts about them: the bits of `&`, `|`, `~` and `>>`, the bits
  of `1 << j` (the only shift left the translator uses), masks, bit
  extensionality, and replacing the low bits of a value.
- `PhpValues`: configuration values (null, bool, int, float, string) and the
  PHP conversions the translator applies to them:
  - truthiness;
  - `intval` (truncation, leading-integer parsing of strings);
  - the number used in clamping;
  - the string stored in a text slot.
- `FixedRange`: the range clamp used for the fixed-point fields.
- `Channels`: the channel. It is a class whose slot fields are updated in
  place, with the invariant that every integer slot fits 64 bits. It has a
  value snapshot `ChannelParams`.
- `GeneralPurposeMeasurement`: the translator itself, with these parts:
  - `GetConfigFromParams` and `GetValuesFromParam2` decode.
  - `SetParamsFromConfig` is a method on a `Channel`. It writes the fields
    one by one and is proved against the function `ParamsAfterConfig`.
  - `SetValuesToParam2` is a method doing PHP's mask-and-or steps one by one.
    It is proved equal to the declarative `Param2Written`: the old `param2`
    with its nine low bits replaced.
  - `Supports` is the function-id test.
- `GeneralPurposeMeasurementProperties`: the translator's promises:
  - writing one field leaves every other bit alone, except the rubbish bits 5
    and 7, which every write clears;
  - absent keys leave their slots alone;
  - the rubbish bits are always cleared;
  - writes are idempotent;
  - in-range values read back as written, under exact arithmetic (IEEE
    doubles can lose one unit; see "Left out");
  - reading a channel and writing the result back is a no-op exactly when its
    slots are normalized, under exact arithmetic (with IEEE doubles a
    fixed-point slot can drop by one unit; see "Left out");
  - out-of-range input is clamped or dropped;
  - concrete scenarios.

The code converts with `intval`, which truncates. So `initialValue` 12.34567
is stored as 123456 and reads back as 12.3456, not rounded to 123457. The
model follows the code (`FixedTruncationScenario`).

## Model

| member | source | states |
|---|---|---|
| `GeneralPurposeMeasurement.GetConfigFromParams` | src/SuplaBundle/Model/ChannelParamsTranslator/GeneralPurposeMeasurementParamsTranslator.php:12-19 | the configuration read from a channel has exactly the four slot keys and the five param2 keys; initialValue and impulsesPerUnit are param1 and param3 divided by 10 000, unitPrefix and unitSuffix are the two texts, and each param2 key holds what `GetValuesFromParam2` decodes |
| `GeneralPurposeMeasurement.GetValuesFromParam2` | src/SuplaBundle/Model/ChannelParamsTranslator/GeneralPurposeMeasurementParamsTranslator.php:48-56 | the five param2 keys are present; the precision is param2 modulo 8 (bits 0-2); storeMeasurementHistory and interpolateMeasurements are the booleans of bits 3 and 8; chartType and chartDataSourceType are bits 4 and 6 as 0 or 1 |
| `GeneralPurposeMeasurement.SetValuesToParam2` | src/SuplaBundle/Model/ChannelParamsTranslator/GeneralPurposeMeasurementParamsTranslator.php:58-81 | the mask-and-or steps give exactly the old value with its nine low bits replaced as `Param2Written` says |
| `GeneralPurposeMeasurement.Param2Steps` | src/SuplaBundle/Model/ChannelParamsTranslator/GeneralPurposeMeasurementParamsTranslator.php:59-79 | the six PHP steps, each as written, compose to `Param2Written` |
| `GeneralPurposeMeasurement.Param2WrittenBit` | src/SuplaBundle/Model/ChannelParamsTranslator/GeneralPurposeMeasurementParamsTranslator.php:58-81 | bit by bit: bits 0-2 are the clamped precision when given, bits 3, 4, 6, 8 the truth of their key when given, bits 5 and 7 are cleared, and every other bit is the old one |
| `GeneralPurposeMeasurement.RubbishStep` | src/SuplaBundle/Model/ChannelParamsTranslator/GeneralPurposeMeasurementParamsTranslator.php:59 | `&= ~0b010100000` clears bits 5 and 7 and keeps every other bit |
| `GeneralPurposeMeasurement.PrecisionStep` | src/SuplaBundle/Model/ChannelParamsTranslator/GeneralPurposeMeasurementParamsTranslator.php:60-63 | clearing bits 0-2 and or-ing a value in 0..7 sets bits 0-2 to that value and keeps the others |
| `GeneralPurposeMeasurement.FlagStep` | src/SuplaBundle/Model/ChannelParamsTranslator/GeneralPurposeMeasurementParamsTranslator.php:64-79 | clearing bit j and or-ing `1 << j` or 0 sets bit j to the flag and keeps the others |
| `GeneralPurposeMeasurement.ClampPrecision` | src/SuplaBundle/Model/ChannelParamsTranslator/GeneralPurposeMeasurementParamsTranslator.php:62 | `max(0, min(intval(p), 5))` is in 0..5, is `intval(p)` when that is in range, and is 0 below and 5 above |
| `GeneralPurposeMeasurement.EncodeFixed` | src/SuplaBundle/Model/ChannelParamsTranslator/GeneralPurposeMeasurementParamsTranslator.php:23 | the stored fixed-point value is within ±10^10 for every input |
| `GeneralPurposeMeasurement.SetParamsFromConfig` | src/SuplaBundle/Model/ChannelParamsTranslator/GeneralPurposeMeasurementParamsTranslator.php:21-39 | the channel's slots become `ParamsAfterConfig` of the old slots, and the 64-bit invariant is kept |
| `GeneralPurposeMeasurement.DecodeFixed` | src/SuplaBundle/Model/ChannelParamsTranslator/GeneralPurposeMeasurementParamsTranslator.php:14-15 | the reported number times 10 000 is the slot, and a slot within ±10^10 reports a number within ±1 000 000; `FixedReencode` and `FixedReapply` state that it undoes `EncodeFixed` |
| `GeneralPurposeMeasurement.TextAccepted` | src/SuplaBundle/Model/ChannelParamsTranslator/GeneralPurposeMeasurementParamsTranslator.php:29-38 | the length cap on a unit text: a string is accepted when it has at most four characters, an integer exactly when it is in -999..9999, a float exactly when its truncated integer is (the model's text of a float; see the `PhpValues.TextOf` line under "Left out"), null and booleans always |
| `GeneralPurposeMeasurement.TextAfter` | src/SuplaBundle/Model/ChannelParamsTranslator/GeneralPurposeMeasurementParamsTranslator.php:29-38 | a write never leaves a text slot longer than four characters unless that text was already there; `TextCap` gives the stored-or-dropped cases |
| `GeneralPurposeMeasurement.ParamsAfterConfig` | src/SuplaBundle/Model/ChannelParamsTranslator/GeneralPurposeMeasurementParamsTranslator.php:21-39 | the slots after a write: the function id and param4 never change and 64-bit slots stay 64-bit; `AbsentKeysUntouched`, `WriteThenRead`, `ReadThenWrite` and `WriteIdempotent` state the rest |
| `GeneralPurposeMeasurement.Param2Written` | src/SuplaBundle/Model/ChannelParamsTranslator/GeneralPurposeMeasurementParamsTranslator.php:58-81 | the written param2 keeps every bit above bit 8 (`r / 512 == value / 512`) and a 64-bit value stays 64-bit; its low bits, built from `PrecisionAfter` and `FlagAfter`, are given bit by bit in `Param2WrittenBit` |
| `GeneralPurposeMeasurement.PrecisionAfter` | src/SuplaBundle/Model/ChannelParamsTranslator/GeneralPurposeMeasurementParamsTranslator.php:60-63 | the precision bits after a write are a value in 0..7, and at most 5 when the key is given |
| `GeneralPurposeMeasurement.FlagAfter` | src/SuplaBundle/Model/ChannelParamsTranslator/GeneralPurposeMeasurementParamsTranslator.php:64-79 | a flag bit after a write: the key's truth when given, the old bit otherwise; `FlagWriteIsolated` and `Param2RoundTrip` state what that means for the decoded flags |
| `PhpValues.IntVal` | src/SuplaBundle/Model/ChannelParamsTranslator/GeneralPurposeMeasurementParamsTranslator.php:62 | `intval`: integers as they are, booleans as 0 or 1, floats truncated toward zero |
| `PhpValues.Truthy` | src/SuplaBundle/Model/ChannelParamsTranslator/GeneralPurposeMeasurementParamsTranslator.php:64-79 | PHP's truth value, used by the `?:` of each flag; `FlagWriteIsolated` states that the written bit follows it |
| `PhpValues.ToNumber` | src/SuplaBundle/Model/ChannelParamsTranslator/GeneralPurposeMeasurementParamsTranslator.php:23 | the number clamped and scaled for a fixed-point key; `EncodeFixed` and `FixedClamped` state its use |
| `PhpValues.TextOf` | src/SuplaBundle/Model/ChannelParamsTranslator/GeneralPurposeMeasurementParamsTranslator.php:30-36 | the string stored for a unit text; `TextAccepted` states when it fits, for each kind of value (string, integer, float, null, boolean) |
| `Bitwise.And` | src/SuplaBundle/Model/ChannelParamsTranslator/GeneralPurposeMeasurementParamsTranslator.php:50-79 | PHP's `&`; `Bitwise.BitAnd` states its bits |
| `Bitwise.Or` | src/SuplaBundle/Model/ChannelParamsTranslator/GeneralPurposeMeasurementParamsTranslator.php:62-78 | PHP's bitwise or; `Bitwise.BitOr` states its bits |
| `Bitwise.Not` | src/SuplaBundle/Model/ChannelParamsTranslator/GeneralPurposeMeasurementParamsTranslator.php:59-77 | PHP's `~`; `Bitwise.BitNot` states its bits |
| `Bitwise.Shr` | src/SuplaBundle/Model/ChannelParamsTranslator/GeneralPurposeMeasurementParamsTranslator.php:52-53 | PHP's `>>`; `Bitwise.BitShr` states its bits |
| `Bitwise.Shl` | src/SuplaBundle/Model/ChannelParamsTranslator/GeneralPurposeMeasurementParamsTranslator.php:66-78 | PHP's `<<` on 1; `Bitwise.Pow2Bits` states that only bit j of `1 << j` is set |
| `Bitwise.BitAnd` | src/SuplaBundle/Model/ChannelParamsTranslator/GeneralPurposeMeasurementParamsTranslator.php:50-79 | bit k of `a & b` is set exactly when bit k of both operands is |
| `Bitwise.BitOr` | src/SuplaBundle/Model/ChannelParamsTranslator/GeneralPurposeMeasurementParamsTranslator.php:62-78 | bit k of the bitwise or of a and b is set exactly when bit k of either operand is |
| `Bitwise.BitNot` | src/SuplaBundle/Model/ChannelParamsTranslator/GeneralPurposeMeasurementParamsTranslator.php:59-77 | bit k of `~x` is the negation of bit k of x |
| `Bitwise.BitShr` | src/SuplaBundle/Model/ChannelParamsTranslator/GeneralPurposeMeasurementParamsTranslator.php:52-53 | bit j of `x >> k` is bit j + k of x |
| `Bitwise.Pow2Bits` | src/SuplaBundle/Model/ChannelParamsTranslator/GeneralPurposeMeasurementParamsTranslator.php:66-78 | `1 << j` has bit j set and no other |
| `Channels.Channel.constructor` | src/SuplaBundle/Model/ChannelParamsTranslator/GeneralPurposeMeasurementParamsTranslator.php:12-39 | a channel built from 64-bit slots satisfies the 64-bit invariant and holds exactly those slots |
| `GeneralPurposeMeasurement.Supports` | src/SuplaBundle/Model/ChannelParamsTranslator/GeneralPurposeMeasurementParamsTranslator.php:83-87 | true exactly when the channel's function is the general-purpose measurement; it reads nothing but the function id |
| `FixedRange.GetValueInRange` | src/SuplaBundle/Model/ChannelParamsTranslator/GeneralPurposeMeasurementParamsTranslator.php:23 | the clamped value lies within the bounds, is the input when inside them and the nearest bound otherwise |
| `PhpValues.IntTextFitsFour` | src/SuplaBundle/Model/ChannelParamsTranslator/GeneralPurposeMeasurementParamsTranslator.php:30 | an integer's decimal text is at most four characters exactly when it is in -999..9999 |
| `GeneralPurposeMeasurementProperties.WrittenPrecision` | src/SuplaBundle/Model/ChannelParamsTranslator/GeneralPurposeMeasurementParamsTranslator.php:60-63 | the precision field after a write is the clamped requested precision, or the old one when none is given |
| `GeneralPurposeMeasurementProperties.RubbishAlwaysCleared` | src/SuplaBundle/Model/ChannelParamsTranslator/GeneralPurposeMeasurementParamsTranslator.php:59 | after every write bits 5 and 7 are clear, whatever the configuration |
| `GeneralPurposeMeasurementProperties.NoParam2KeysOnlyClearsRubbish` | src/SuplaBundle/Model/ChannelParamsTranslator/GeneralPurposeMeasurementParamsTranslator.php:58-81 | with no param2 key given, the write is exactly `value & ~0b010100000` |
| `GeneralPurposeMeasurementProperties.HighBitsKept` | src/SuplaBundle/Model/ChannelParamsTranslator/GeneralPurposeMeasurementParamsTranslator.php:58-81 | bits 9 and up are never changed |
| `GeneralPurposeMeasurementProperties.PrecisionWriteIsolated` | src/SuplaBundle/Model/ChannelParamsTranslator/GeneralPurposeMeasurementParamsTranslator.php:60-63 | writing only the precision stores it clamped in bits 0-2 and keeps every bit but 0-2, 5 and 7 |
| `GeneralPurposeMeasurementProperties.FlagWriteIsolated` | src/SuplaBundle/Model/ChannelParamsTranslator/GeneralPurposeMeasurementParamsTranslator.php:64-79 | writing only one flag sets its own bit to the value's truth and keeps every other bit but 5 and 7 |
| `GeneralPurposeMeasurementProperties.Param2RoundTrip` | src/SuplaBundle/Model/ChannelParamsTranslator/GeneralPurposeMeasurementParamsTranslator.php:48-81 | decoding a written param2 gives each given key its normalized value and each absent key its old decoded value |
| `GeneralPurposeMeasurementProperties.CanonicalParam2ReadsBack` | src/SuplaBundle/Model/ChannelParamsTranslator/GeneralPurposeMeasurementParamsTranslator.php:48-81 | a precision in 0..5, a boolean flag or a chart field of 0 or 1 is its own normalized value |
| `GeneralPurposeMeasurementProperties.Param2Idempotent` | src/SuplaBundle/Model/ChannelParamsTranslator/GeneralPurposeMeasurementParamsTranslator.php:58-81 | writing the same configuration twice gives what writing it once gives |
| `GeneralPurposeMeasurementProperties.Param2Scenario` | src/SuplaBundle/Model/ChannelParamsTranslator/GeneralPurposeMeasurementParamsTranslator.php:48-81 | precision 3, history on and chart type 1 written on 0 decode to those values with source type 0 and no interpolation |
| `GeneralPurposeMeasurementProperties.FixedRoundTrip` | src/SuplaBundle/Model/ChannelParamsTranslator/GeneralPurposeMeasurementParamsTranslator.php:14-27 | an in-range value with at most four decimals reads back exactly |
| `GeneralPurposeMeasurementProperties.FixedReencode` | src/SuplaBundle/Model/ChannelParamsTranslator/GeneralPurposeMeasurementParamsTranslator.php:14-27 | a stored slot within ±10^10, decoded and encoded again, is unchanged |
| `GeneralPurposeMeasurementProperties.FixedClamped` | src/SuplaBundle/Model/ChannelParamsTranslator/GeneralPurposeMeasurementParamsTranslator.php:23 | a value above 1 000 000 is stored as 10^10 and one below -1 000 000 as -10^10 |
| `GeneralPurposeMeasurementProperties.FixedClampScenario` | src/SuplaBundle/Model/ChannelParamsTranslator/GeneralPurposeMeasurementParamsTranslator.php:23 | initialValue 2 000 000 is stored as 10^10 and reads back as 1 000 000 |
| `GeneralPurposeMeasurementProperties.FixedTruncationScenario` | src/SuplaBundle/Model/ChannelParamsTranslator/GeneralPurposeMeasurementParamsTranslator.php:23 | 12.34567 is stored as 123456 (truncated) and reads back as 12.3456 |
| `GeneralPurposeMeasurementProperties.TextCap` | src/SuplaBundle/Model/ChannelParamsTranslator/GeneralPurposeMeasurementParamsTranslator.php:29-38 | a text of at most four characters is stored; a longer one is dropped without error and the old text stays |
| `GeneralPurposeMeasurementProperties.TextCapScenario` | src/SuplaBundle/Model/ChannelParamsTranslator/GeneralPurposeMeasurementParamsTranslator.php:29-33 | with "kg" stored, a unitPrefix of "meter" is dropped and "kg" is still reported |
| `GeneralPurposeMeasurementProperties.AbsentKeysUntouched` | src/SuplaBundle/Model/ChannelParamsTranslator/GeneralPurposeMeasurementParamsTranslator.php:21-39 | the function id and param4 never change; a slot whose key is absent keeps its value |
| `GeneralPurposeMeasurementProperties.NoKeysOnlyClearsRubbish` | src/SuplaBundle/Model/ChannelParamsTranslator/GeneralPurposeMeasurementParamsTranslator.php:21-39 | a configuration without any translator key changes only bits 5 and 7 of param2 |
| `GeneralPurposeMeasurementProperties.WriteIdempotent` | src/SuplaBundle/Model/ChannelParamsTranslator/GeneralPurposeMeasurementParamsTranslator.php:21-39 | writing the same configuration twice is the same as writing it once |
| `GeneralPurposeMeasurementProperties.WriteThenRead` | src/SuplaBundle/Model/ChannelParamsTranslator/GeneralPurposeMeasurementParamsTranslator.php:12-39 | after writing a configuration whose values the slots represent exactly, each given key reads back as written and each absent key reads back as before |
| `GeneralPurposeMeasurementProperties.FixedReapply` | src/SuplaBundle/Model/ChannelParamsTranslator/GeneralPurposeMeasurementParamsTranslator.php:14-27 | a decoded fixed-point slot re-encodes to itself exactly when it is within ±10^10 |
| `GeneralPurposeMeasurementProperties.Param2Reapply` | src/SuplaBundle/Model/ChannelParamsTranslator/GeneralPurposeMeasurementParamsTranslator.php:48-81 | writing back the decoded param2 fields leaves param2 unchanged exactly when its precision is at most 5 and bits 5 and 7 are clear |
| `GeneralPurposeMeasurementProperties.ReadThenWrite` | src/SuplaBundle/Model/ChannelParamsTranslator/GeneralPurposeMeasurementParamsTranslator.php:12-39 | writing back what was read from a channel leaves every slot unchanged exactly when the slots are normalized |

## Left out

- The translator registry and dispatch, the `ChannelParamTranslator` interface and the channel entity's getters and setters are not part of this model. The channel's slots are plain fields.
- `Supports`: the general-purpose measurement function id is taken as 520. The `ChannelFunction` enumeration is not part of this model.
- `FixedRange.GetValueInRange`: the clamp is modelled as a numeric `max(lo, min(x, hi))`. The helper it comes from is not part of this model. PHP's loose comparison of non-numeric strings with numbers is not modelled. A value is compared through its numeric conversion.
- `GeneralPurposeMeasurement.EncodeFixed`: the arithmetic is exact (real numbers) rather than IEEE 754 doubles. With doubles, `intval(x * 10000)` can fall one unit short for four-decimal inputs whose product is not exact. `intval` of a float outside the integer range is also not modelled.
- `GeneralPurposeMeasurementProperties.FixedRoundTrip`: holds under exact arithmetic only. As a double, `0.0003 * 10000` is 2.9999999999999996, so PHP stores 2 and reads back 0.0002.
- `GeneralPurposeMeasurementProperties.WriteThenRead`: for the two fixed-point keys it rests on `FixedRoundTrip`, and so holds under exact arithmetic only. An initialValue of 0.0003 reads back as 0.0002 with doubles.
- `GeneralPurposeMeasurementProperties.FixedReencode`: holds under exact arithmetic only. With doubles, param1 = 3 reads as 0.0003; writing that back computes `0.0003 * 10000` = 2.9999999999999996, and `intval` stores 2.
- `GeneralPurposeMeasurementProperties.FixedReapply`: like `FixedReencode`, holds under exact arithmetic only. With doubles, the in-range slot 3 re-encodes to 2.
- `GeneralPurposeMeasurementProperties.ReadThenWrite`: for param1 and param3 it rests on `FixedReapply`, so it holds under exact arithmetic only. With doubles, saving back the configuration read from a channel with param1 = 3 lowers param1 to 2.
- `GeneralPurposeMeasurement.DecodeFixed`: `maximumDecimalPrecision(n / 10000, 4)` is modelled as the exact quotient. It has at most four decimals already, so the rounding helper changes nothing. Float rounding is not modelled.
- `PhpValues.IntVal`: string conversion reads only leading white space, a sign and decimal digits. Exponents and fractions are not modelled: `intval("1e3")` is 1000 in PHP and 1 here. A float outside the 64-bit range is truncated without bound, while PHP's conversion is not a truncation there. That reaches `ClampPrecision` only when the precision is at least 2^63 in magnitude.
- `PhpValues.ToNumber`: a decimal string with a fraction or exponent is read through `intval`, so `{initialValue: "12.5"}` is stored as 120000; PHP reads it as the float 12.5 and stores 125000. Null and booleans are taken as 0 and 0 or 1, while PHP compares them with numbers as booleans, so PHP clamps a null `initialValue` to -1 000 000. Non-numeric strings are taken by their leading integer, while PHP compares them with numbers as strings.
- `PhpValues.TextOf`: a float passed as a text is modelled by the text of its truncated integer. PHP's float-to-string formatting is not modelled. A null text is stored as the empty string.
- `GeneralPurposeMeasurement.TextAfter`: the length is the count of characters of the model's string. UTF-8 decoding by `mb_strlen` is not modelled.
- `GeneralPurposeMeasurement.GetConfigFromParams`: the configuration is a map, so the key order that `array_merge` produces is not modelled.
- `ChannelIcon.php` and `CurrentUserAware.php` are not part of this model. They hold no translator logic.
- Concurrency and persistence of the channel are not modelled.
