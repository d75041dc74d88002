/**
 * Shared numeric vocabulary: the unsigned 8-bit values of the telemetry
 * protocol and single-precision arithmetic idealised as exact reals, with
 * every non-finite IEEE result (NaN, +Inf, -Inf) folded into one value.
 */
module Numeric {

  /** An unsigned 8-bit value (C# `byte`, protocol `uint8`). */
  type Byte = x: int | 0 <= x < 256

  /** C#'s unchecked `(byte)` cast: keep the low eight bits. */
  function ToByte(x: int): (r: Byte)
    ensures 0 <= x < 256 ==> r == x
    ensures (r - x) % 256 == 0
  {
    x % 256
  }

  /** A float quantity: a finite value, or the NaN/Infinity that a division by zero yields. */
  datatype Float = Finite(value: real) | NonFinite

  function Sum(a: Float, b: Float): (r: Float)
    ensures r.Finite? <==> a.Finite? && b.Finite?
  {
    if a.Finite? && b.Finite? then Finite(a.value + b.value) else NonFinite
  }

  function Diff(a: Float, b: Float): (r: Float)
    ensures r.Finite? <==> a.Finite? && b.Finite?
  {
    if a.Finite? && b.Finite? then Finite(a.value - b.value) else NonFinite
  }

  function Prod(a: Float, b: Float): (r: Float)
    ensures r.Finite? <==> a.Finite? && b.Finite?
  {
    if a.Finite? && b.Finite? then Finite(a.value * b.value) else NonFinite
  }

  /** IEEE division: any division by zero (0/0 or x/0) is not finite. */
  function Quot(a: Float, b: Float): (r: Float)
    ensures r.Finite? <==> a.Finite? && b.Finite? && b.value != 0.0
    ensures r.Finite? ==> r.value * b.value == a.value
  {
    if a.Finite? && b.Finite? && b.value != 0.0 then Finite(a.value / b.value) else NonFinite
  }
}
