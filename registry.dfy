/** Values read from the I/O registry's property dictionaries, and Swift's
    checked bridging of a number to `Int` and `UInt64` (`as? Int`,
    `as? UInt64`): the cast succeeds exactly when the value fits the
    target type. */
module Registry {
  import opened Wrappers

  const Int64Min: int := -0x8000_0000_0000_0000
  const Int64Max: int := 0x7FFF_FFFF_FFFF_FFFF
  const UInt64Max: int := 0xFFFF_FFFF_FFFF_FFFF

  /** A property value: an integral number, or anything else (a string,
      data, a fractional number). */
  datatype Scalar = Number(n: int) | NonNumber

  /** A top-level property: a plain value or a nested dictionary. */
  datatype Property = Plain(value: Scalar) | Dict(entries: map<string, Scalar>)

  /** `dict[key] as? Int`. */
  function AsInt(v: Option<Scalar>): (r: Option<int>)
    ensures r.Some? <==> v.Some? && v.value.Number? && Int64Min <= v.value.n <= Int64Max
    ensures r.Some? ==> r.value == v.value.n
  {
    if v.Some? && v.value.Number? && Int64Min <= v.value.n <= Int64Max then Some(v.value.n) else None
  }

  /** `dict[key] as? UInt64`. */
  function AsUInt64(v: Option<Scalar>): (r: Option<nat>)
    ensures r.Some? <==> v.Some? && v.value.Number? && 0 <= v.value.n <= UInt64Max
    ensures r.Some? ==> r.value == v.value.n
  {
    if v.Some? && v.value.Number? && 0 <= v.value.n <= UInt64Max then Some(v.value.n) else None
  }

  /** Lookup that yields `None` for a missing key. */
  function Lookup<V>(m: map<string, V>, key: string): Option<V> {
    if key in m then Some(m[key]) else None
  }

  /** A value that bridges to `Int` but not to `UInt64` is negative, so a
      later `UInt64(_:)` conversion of it traps. */
  lemma IntOnlyValuesAreNegative(v: Option<Scalar>)
    requires AsUInt64(v).None? && AsInt(v).Some?
    ensures AsInt(v).value < 0
  {
  }
}
