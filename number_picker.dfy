/**
 * The stepping logic of the `NumberPicker` component: a minus and a plus
 * button around a value, each handing `value - 1` or `value + 1` to the
 * component's `onValueChange` callback. A press reaches a button's
 * `onClick` only while the button is enabled.
 */
module NumberPicker {
  import opened Wrappers

  /** The minus button's `enabled` expression. */
  predicate MinusEnabled(enabled: bool, value: int, minValue: int) {
    enabled && value > minValue
  }

  /** The plus button's `enabled` expression. */
  predicate PlusEnabled(enabled: bool, value: int, maxValue: int) {
    enabled && value < maxValue
  }

  /** The minus button's `onClick`: the value passed to `onValueChange`, if it calls it. */
  function MinusClick(value: int, minValue: int): (emitted: Option<int>)
    ensures emitted.Some? <==> value > minValue
    ensures emitted.Some? ==> emitted.value == value - 1 && emitted.value >= minValue
  {
    if value > minValue then Some(value - 1) else None
  }

  /** The plus button's `onClick`. */
  function PlusClick(value: int, maxValue: int): (emitted: Option<int>)
    ensures emitted.Some? <==> value < maxValue
    ensures emitted.Some? ==> emitted.value == value + 1 && emitted.value <= maxValue
  {
    if value < maxValue then Some(value + 1) else None
  }

  /** A press on the minus button: nothing reaches `onClick` while the button is disabled. */
  function PressMinus(enabled: bool, value: int, minValue: int): (emitted: Option<int>)
    ensures emitted.Some? <==> MinusEnabled(enabled, value, minValue)
    ensures emitted.Some? ==> emitted.value == value - 1
  {
    if MinusEnabled(enabled, value, minValue) then MinusClick(value, minValue) else None
  }

  /** A press on the plus button. */
  function PressPlus(enabled: bool, value: int, maxValue: int): (emitted: Option<int>)
    ensures emitted.Some? <==> PlusEnabled(enabled, value, maxValue)
    ensures emitted.Some? ==> emitted.value == value + 1
  {
    if PlusEnabled(enabled, value, maxValue) then PlusClick(value, maxValue) else None
  }

  /** From a value inside the range, every emitted value stays inside it and is one step away. */
  lemma PressStaysInRange(enabled: bool, value: int, minValue: int, maxValue: int)
    requires minValue <= value <= maxValue
    ensures forall e :: e in [PressMinus(enabled, value, minValue), PressPlus(enabled, value, maxValue)] && e.Some? ==>
      minValue <= e.value <= maxValue && (e.value == value - 1 || e.value == value + 1)
  {
  }
}
