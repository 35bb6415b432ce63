/** The progress bar's width computation. The percentage is a `real`; IEEE
    floating point is not modelled. */
module Progress {

  /** `Math.min(100, Math.max(0, value))`: the width, in percent, of the bar. */
  function Clamp(value: real): (r: real)
    ensures 0.0 <= r <= 100.0
    ensures 0.0 <= value <= 100.0 ==> r == value
    ensures value < 0.0 ==> r == 0.0
    ensures value > 100.0 ==> r == 100.0
  {
    var atLeastZero := if value > 0.0 then value else 0.0;
    if atLeastZero < 100.0 then atLeastZero else 100.0
  }

  /** Clamping an already clamped width changes nothing. */
  lemma ClampIdempotent(value: real)
    ensures Clamp(Clamp(value)) == Clamp(value)
  {
  }

  /** A larger value never gives a narrower bar. */
  lemma ClampMonotone(v: real, w: real)
    requires v <= w
    ensures Clamp(v) <= Clamp(w)
  {
  }

  /** The three widths the component's own checks expect. */
  lemma ClampExamples()
    ensures Clamp(42.0) == 42.0
    ensures Clamp(-10.0) == 0.0
    ensures Clamp(150.0) == 100.0
  {
  }
}
