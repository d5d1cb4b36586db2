/**
 * The border thickness setting: `parseInt(value) || 40`. The parse result is
 * a parameter: `None` stands for NaN, `Some(n)` for the integer parsed.
 */
module Border {
  import opened Wrappers

  /** The thickness used when the input does not give a usable one. */
  const DefaultBorder: int := 40

  /**
   * `parsed || 40`: NaN and zero (also negative zero) are falsy and give the
   * default; every other integer, negative ones included, is kept.
   */
  function BorderFallback(parsed: Option<int>): (b: int)
    ensures b != 0
    ensures parsed.Some? && parsed.value != 0 ==> b == parsed.value
    ensures b == DefaultBorder <==> parsed.None? || parsed == Some(0) || parsed == Some(DefaultBorder)
  {
    match parsed
    case None => DefaultBorder
    case Some(n) => if n == 0 then DefaultBorder else n
  }

  /** The global border thickness, reassigned by the debounced input handler. */
  class BorderSetting {
    var size: int

    ghost predicate Valid()
      reads this
    {
      size != 0
    }

    /** The thickness read from the input's initial value. */
    constructor (parsed: Option<int>)
      ensures Valid() && size == BorderFallback(parsed)
    {
      size := BorderFallback(parsed);
    }

    /** A new input value replaces the thickness; the previous one is forgotten. */
    method OnInput(parsed: Option<int>)
      requires Valid()
      modifies this
      ensures Valid() && size == BorderFallback(parsed)
    {
      size := BorderFallback(parsed);
    }
  }
}
