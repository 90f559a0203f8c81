/**
 * The `InteractiveObjectFlags` bit set: an eight-bit value with one bit per
 * boolean property, and the `contains`/`set` operations of a bit-flags type.
 */
module InteractiveFlags {

  type Flags = bv8

  /** Whether the object accepts mouse and other user events. */
  const MOUSE_ENABLED: Flags := 1

  /** Whether the object accepts double-clicks. */
  const DOUBLE_CLICK_ENABLED: Flags := 2

  /** All bits of `flag` are set in `bits`: inserting them changes nothing. */
  predicate Contains(bits: Flags, flag: Flags): (r: bool)
    ensures r <==> bits | flag == bits
  {
    bits & flag == flag
  }

  /** Inserts `flag` when `value` holds and removes it otherwise. */
  function Set(bits: Flags, flag: Flags, value: bool): (r: Flags)
    ensures Contains(r, flag) <==> value || flag == 0
    ensures r & !flag == bits & !flag
    ensures value ==> r & flag == flag
    ensures !value ==> r & flag == 0
  {
    if value then bits | flag else bits & !flag
  }

  /** Setting either flag leaves the other one as it was. */
  lemma SetKeepsOtherFlag(bits: Flags, value: bool)
    ensures Contains(Set(bits, MOUSE_ENABLED, value), DOUBLE_CLICK_ENABLED)
            == Contains(bits, DOUBLE_CLICK_ENABLED)
    ensures Contains(Set(bits, DOUBLE_CLICK_ENABLED, value), MOUSE_ENABLED)
            == Contains(bits, MOUSE_ENABLED)
  {
  }
}
