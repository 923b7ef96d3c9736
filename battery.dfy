/** The battery receiver's update rule, in Java `int` arithmetic. */
module Battery {
  import opened Wrappers
  import opened JavaLang

  /** `intent.getIntExtra(name, -1)`: the extra, or -1 when it is absent. */
  function IntExtra(extra: Option<Int32>): (r: Int32)
    ensures extra.Some? ==> r == extra.value
    ensures extra.None? ==> r == -1
  {
    extra.GetOr(-1)
  }

  /** The battery level after an event: `(rawlevel * 100) / scale` with the
      product wrapping at 32 bits and the quotient truncated, only when
      `rawlevel >= 0 && scale > 0`; otherwise the previous level. */
  function BatteryLevel(prev: int, rawlevel: Int32, scale: Int32): (r: int)
    ensures !(rawlevel >= 0 && scale > 0) ==> r == prev
  {
    if rawlevel >= 0 && scale > 0 then JavaDiv(Wrap32(rawlevel * 100), scale) else prev
  }

  /** Euclidean division of a non-negative number rounds down. */
  lemma DivBounds(x: nat, d: int)
    requires d > 0
    ensures x / d >= 0
    ensures (x / d) * d <= x < (x / d + 1) * d
  {
    var q, m := x / d, x % d;
    assert x == q * d + m && 0 <= m < d;
    assert (q + 1) * d == q * d + d;
  }

  /** Multiplying by a positive number preserves order, so it can be cancelled. */
  lemma CancelPositive(a: int, b: int, d: int)
    requires d > 0 && a * d <= b * d
    ensures a <= b
  {
  }

  /** Without overflow the level is the percentage rounded down, and a raw
      level within the scale gives a percentage between 0 and 100. */
  lemma BatteryLevelPercent(prev: int, rawlevel: Int32, scale: Int32)
    requires 0 <= rawlevel <= 21474836 && scale > 0
    ensures BatteryLevel(prev, rawlevel, scale) == (rawlevel * 100) / scale
    ensures BatteryLevel(prev, rawlevel, scale) * scale <= rawlevel * 100
    ensures rawlevel * 100 < (BatteryLevel(prev, rawlevel, scale) + 1) * scale
    ensures rawlevel <= scale ==> 0 <= BatteryLevel(prev, rawlevel, scale) <= 100
  {
    var x: nat := rawlevel * 100;
    assert x <= MaxInt;
    DivBounds(x, scale);
    var q := x / scale;
    if rawlevel <= scale {
      assert x <= 100 * scale;
      CancelPositive(q, 100, scale);
    }
  }

  /** A reading of 50 on a scale of 100 is 50 percent. */
  lemma HalfCharged(prev: int)
    ensures BatteryLevel(prev, 50, 100) == 50
  {
    BatteryLevelPercent(prev, 50, 100);
  }
}
