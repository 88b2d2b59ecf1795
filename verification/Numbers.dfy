/** Functions on reals that several modules share. */
module Numbers {

  /** A C cast from double to int */
  function Trunc(x: real): int { if x >= 0.0 then x.Floor else -(-x).Floor }

  function Power(x: real, n: nat): real { if n == 0 then 1.0 else x * Power(x, n - 1) }
}
