/**
 * The opacity parameter of `create_overlay` and the rule, written out three
 * times in `applyFill`, that turns it into the opacity actually applied.
 */
module Opacity {
  import opened Wrappers

  /**
   * The opacity parameter as the run handler receives it: absent, typed in by
   * the user (a string, given here already through `parseFloat`), or picked
   * from the suggestions (a number).
   */
  datatype OpacityParam = Unset | Typed(parsed: real) | Picked(value: real)

  /**
   * A typed value of 1 or more is a percentage: it is divided by 100 and
   * capped at 1. A value below 1 is already a fraction and is kept.
   */
  function Normalise(x: real): (r: real)
    ensures r <= 1.0
    ensures x >= 1.0 ==> 0.01 <= r && (r == 1.0 || r * 100.0 == x)
    ensures x < 1.0 ==> r == x
  {
    if x >= 1.0 then
      var fraction := x / 100.0;
      if fraction > 1.0 then 1.0 else fraction
    else
      x
  }

  /** From 1 upwards the result is min(x / 100, 1). */
  lemma NormalisePercentage(x: real)
    requires x >= 1.0
    ensures Normalise(x) == if x / 100.0 <= 1.0 then x / 100.0 else 1.0
    ensures x <= 100.0 ==> Normalise(x) * 100.0 == x
    ensures x >= 100.0 ==> Normalise(x) == 1.0
  {
  }

  /** Exactly the values below 1 come out unchanged: the rule is not idempotent at 1. */
  lemma NormaliseFixedPoints(x: real)
    ensures Normalise(x) == x <==> x < 1.0
  {
  }

  /** The opacity `applyFill` assigns, if any: a typed value is normalised, a picked one is used as it is. */
  function Effective(p: OpacityParam): (r: Option<real>)
    ensures r.None? <==> p.Unset?
    ensures p.Typed? ==> r.value <= 1.0 && (p.parsed < 1.0 ==> r.value == p.parsed)
    ensures p.Typed? ==> r == Some(Normalise(p.parsed))
    ensures p.Picked? ==> r.value == p.value
  {
    match p
    case Unset => None
    case Typed(x) => Some(Normalise(x))
    case Picked(v) => Some(v)
  }
}
