/** The roundings of JavaScript numbers, over the reals, and the padding of their numerals. */
module Numbers {

  /** Math.round: to the nearest integer, halves up. */
  function Round(x: real): int {
    (x + 0.5).Floor
  }

  /** Number.toFixed read back: the nearest multiple of 1/scale, halves away from zero. */
  function ToFixed(x: real, scale: int): real
    requires scale > 0
  {
    if x < 0.0 then -(Round(-x * scale as real) as real / scale as real)
    else Round(x * scale as real) as real / scale as real
  }

  /** padStart with '0'. */
  function PadStart(s: string, width: nat): string {
    if |s| >= width then s else seq(width - |s|, _ => '0') + s
  }

  lemma RoundIsNear(x: real)
    ensures x - 0.5 < Round(x) as real <= x + 0.5
  {
  }

  /** Rounding to a multiple of 1/scale moves a number by at most half of that. */
  lemma ToFixedIsNear(x: real, scale: int)
    requires scale > 0
    ensures -0.5 <= (ToFixed(x, scale) - x) * scale as real <= 0.5
  {
    var y := if x < 0.0 then -x else x;
    RoundIsNear(y * scale as real);
    var n := Round(y * scale as real) as real;
    assert n / scale as real * scale as real == n;
  }
}
