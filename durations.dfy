/**
 * `format_duration` (json_tools/aw_analyze.py, json_tools/aw_extractor.py):
 * seconds below a minute, minutes below an hour, hours from there on. The
 * model keeps the unit, the scaled value and the number of decimals; the
 * digits themselves come from rounding the scaled value.
 */
module Durations {

  datatype Unit = Seconds | Minutes | Hours

  /** A duration as it is printed: `value` with `decimals` decimals, followed by the unit. */
  datatype Rendered = Rendered(value: real, decimals: nat, unit: Unit)

  /** Seconds per unit. */
  function Scale(u: Unit): real
  {
    match u
    case Seconds => 1.0
    case Minutes => 60.0
    case Hours => 3600.0
  }

  /** `format_duration(d)`. */
  function FormatDuration(d: real): (r: Rendered)
    ensures r.unit == Seconds <==> d < 60.0
    ensures r.unit == Hours <==> 3600.0 <= d
    ensures r.value * Scale(r.unit) == d
    ensures r.decimals == if r.unit == Hours then 2 else 1
  {
    if d < 60.0 then Rendered(d, 1, Seconds)
    else if d < 3600.0 then Rendered(d / 60.0, 1, Minutes)
    else Rendered(d / 3600.0, 2, Hours)
  }

  /** The suffix of json_tools/aw_analyze.py: `s`, `m`, `h`. */
  function ShortSuffix(u: Unit): string
  {
    match u
    case Seconds => "s"
    case Minutes => "m"
    case Hours => "h"
  }

  /** The analyzer prints `s` below a minute, `m` below an hour and `h` from there on. */
  lemma ShortSuffixOf(d: real)
    ensures ShortSuffix(FormatDuration(d).unit) == "s" <==> d < 60.0
    ensures ShortSuffix(FormatDuration(d).unit) == "m" <==> 60.0 <= d < 3600.0
    ensures ShortSuffix(FormatDuration(d).unit) == "h" <==> 3600.0 <= d
  {
  }

  /** The suffix of json_tools/aw_extractor.py: ` seconds`, ` minutes`, ` hours`. */
  function WordSuffix(u: Unit): string
  {
    match u
    case Seconds => " seconds"
    case Minutes => " minutes"
    case Hours => " hours"
  }

  function Pow10(n: nat): (r: nat)
    ensures r >= 1
  {
    if n == 0 then 1 else 10 * Pow10(n - 1)
  }

  /**
   * The printed digits as one integer: the value scaled by `10^decimals`,
   * rounded to the nearest integer (a value exactly half way is rounded up).
   */
  function Digits(r: Rendered): (n: int)
    ensures (n as real - 0.5) <= r.value * Pow10(r.decimals) as real < n as real + 0.5
  {
    (r.value * Pow10(r.decimals) as real + 0.5).Floor
  }

  /** Units never go down as durations grow. */
  lemma UnitMonotone(a: real, b: real)
    requires a <= b
    ensures FormatDuration(a).unit == Hours ==> FormatDuration(b).unit == Hours
    ensures FormatDuration(b).unit == Seconds ==> FormatDuration(a).unit == Seconds
  {
  }

  /** Just under an hour prints as "60.0m"; an hour prints as "1.00h"; zero prints as "0.0s". */
  lemma FormatDurationExamples()
    ensures FormatDuration(3599.0).unit == Minutes && Digits(FormatDuration(3599.0)) == 600
    ensures FormatDuration(3600.0) == Rendered(1.0, 2, Hours) && Digits(FormatDuration(3600.0)) == 100
    ensures FormatDuration(59.9).unit == Seconds && Digits(FormatDuration(59.9)) == 599
    ensures FormatDuration(0.0) == Rendered(0.0, 1, Seconds) && Digits(FormatDuration(0.0)) == 0
  {
    assert Pow10(1) == 10 && Pow10(2) == 100;
  }
}
