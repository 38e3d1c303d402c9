/** Numeric helpers shared by every stat rule: the machine widths the pet
    record uses, and the clamp applied on every stat write. */
module Utils {

  /** An unsigned 8-bit value: the width of every bounded pet stat. */
  type Byte = x: int | 0 <= x < 256

  /** A signed 32-bit value: the width of the arithmetic fed to the clamp. */
  type I32 = x: int | -0x8000_0000 <= x < 0x8000_0000

  function Min(a: int, b: int): int { if a <= b then a else b }

  function Max(a: int, b: int): int { if a >= b then a else b }

  /** `u8::saturating_sub`: subtraction that stops at zero. */
  function SaturatingSub(a: Byte, b: Byte): Byte {
    if a >= b then a - b else 0
  }

  /** Bounds `value` to [min, max]. Below `min` gives `min`, above `max`
      gives `max`, anything else is kept. */
  function CapStat(value: I32, min: Byte, max: Byte): (r: Byte)
    ensures min <= max ==> min <= r <= max
    ensures min <= value <= max ==> r == value
    ensures min <= max ==> r == Max(min, Min(value, max))
  {
    if value < min then min
    else if value > max then max
    else value
  }

  /** The three branches of the clamp, as its unit tests state them. */
  lemma CapStatCases(value: I32, min: Byte, max: Byte)
    requires min <= max
    ensures value < min ==> CapStat(value, min, max) == min
    ensures value > max ==> CapStat(value, min, max) == max
    ensures min <= value <= max ==> CapStat(value, min, max) == value
  {
  }

  /** Clamping twice is clamping once. */
  lemma CapStatIdempotent(value: I32, min: Byte, max: Byte)
    requires min <= max
    ensures CapStat(CapStat(value, min, max), min, max) == CapStat(value, min, max)
  {
  }

  /** The clamp never reverses the order of two values. */
  lemma CapStatMonotone(v1: I32, v2: I32, min: Byte, max: Byte)
    requires min <= max && v1 <= v2
    ensures CapStat(v1, min, max) <= CapStat(v2, min, max)
  {
  }
}
